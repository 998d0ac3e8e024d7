module StateShape {
  // The valid states, described field by field: the shape, the identities, the universe, the sites, the summary.

  import opened Frozen
  import opened DockerState
  import opened DockerThaw
  import opened DockerValid

  // ---------------------------------------------------------------- the fields

  /** The keys are just these. */
  ghost predicate HasKeys(v: Py, names: set<string>) {
    IsMap(v) && forall k :: k in v.keys <==> k.StrKey? && k.text in names
  }

  ghost predicate Says(v: Py, k: string, x: Py) { Get(v, k) == Fine(x) }

  /** The field is there and Python takes it for true. */
  ghost predicate Given(v: Py, k: string) { Get(v, k).Fine? && Truth(Get(v, k).value) }

  ghost predicate NotGiven(v: Py, k: string) { Get(v, k).Fine? && !Truth(Get(v, k).value) }

  ghost predicate Shape(s: Py) {
    && s.Dict? && Says(s, "schema_version", Str("i28bf-b1.1"))
    && HasKeys(s, {"schema_version", "authorization", "repository", "policy", "parser", "universe", "per_site", "aggregate"})
  }

  /** The pair identity: three fields, and the digest of a dictionary of them. */
  ghost predicate Authorization(a: Py, h: Host, sha: Sha) {
    && HasKeys(a, {"issuance", "expiry", "duration_seconds", "pair_digest"})
    && Item(a, "issuance").Fine? && Item(a, "expiry").Fine? && Item(a, "duration_seconds").Fine?
    && Item(a, "pair_digest") == Fine(Str(sha(Canonical(
         Dict([StrKey("issuance"), StrKey("expiry"), StrKey("duration_seconds")],
              [Item(a, "issuance").value, Item(a, "expiry").value, Item(a, "duration_seconds").value]), h))))
  }

  ghost predicate Policy(p: Py) {
    && Says(p, "policy_schema_version", Str("docker-boundary-policy.v1"))
    && Given(p, "policy_digest") && Given(p, "category_table_digest") && Given(p, "normalization_version")
  }

  ghost predicate Parser(p: Py) {
    && Says(p, "parser_schema_version", Str("i28bf-b1.1")) && NotGiven(p, "parser_untrustworthy")
    && Says(p, "source_position_version", Str("i28bf-a3.1"))
  }

  /** Python's `v == n`. */
  ghost predicate EqualsNumber(v: Py, n: nat) {
    v == Atom(IntAtom(n)) || v == Atom(FloatAtom(n as real)) ||
    (v == Atom(BoolAtom(true)) && n == 1) || (v == Atom(BoolAtom(false)) && n == 0)
  }

  /** The values can be members of a set, where no two of them are the same. */
  ghost predicate Different(vs: seq<Py>) {
    (forall v | v in vs :: Hashable(v)) && forall i, j | 0 <= i < j < |vs| :: Loose(vs[i]) != Loose(vs[j])
  }

  /** `universe`: sites that are all different, and their number. */
  ghost predicate Universe(u: Py) {
    && Says(u, "reconciliation", Str("AGREE")) && Given(u, "expected_positive")
    && Given(u, "site_ids") && Members(Get(u, "site_ids").value).Fine?
    && var sites := Members(Get(u, "site_ids").value).value;
       Different(sites) && Get(u, "site_count").Fine? && EqualsNumber(Get(u, "site_count").value, |sites|)
  }

  /** The record decides about the site, in favour, at a known position. */
  ghost predicate Decides(r: Py, site: Py) {
    && Get(r, "id").Fine? && Hashable(Get(r, "id").value) && Loose(Get(r, "id").value) == Loose(site)
    && Given(r, "position") && Says(r, "decision", Str("PASS"))
  }

  /** There is one record for each site, and no other. */
  ghost predicate Decided(records: seq<Py>, sites: seq<Py>) {
    && (forall x | x in sites :: exists r | r in records :: Decides(r, x))
    && (forall r | r in records :: exists x | x in sites :: Decides(r, x))
    && |records| == |sites|
  }

  ghost predicate Sites(per: Py, u: Py)
    requires Universe(u)
  {
    Truth(per) && Members(per).Fine? && Decided(Members(per).value, Members(Get(u, "site_ids").value).value)
  }

  /** `aggregate`: everything is in order, and what was not examined is marked. */
  ghost predicate Aggregate(a: Py) {
    && Says(a, "workflow_coverage", Str("NOT_ADJUDICATED — deferred to Gate 4N-I28BG (ADV-I28AX-ARCH-01 part B)"))
    && Says(a, "docker_aggregate", Atom(BoolAtom(true))) && Says(a, "docker_per_site_layer", Atom(BoolAtom(true)))
  }

  ghost predicate Described(s: Py, h: Host, sha: Sha) {
    && Shape(s)
    && Item(s, "authorization").Fine? && Authorization(Item(s, "authorization").value, h, sha)
    && Item(s, "policy").Fine? && Policy(Item(s, "policy").value)
    && Item(s, "parser").Fine? && Parser(Item(s, "parser").value)
    && Item(s, "universe").Fine? && Universe(Item(s, "universe").value)
    && Item(s, "per_site").Fine? && Sites(Item(s, "per_site").value, Item(s, "universe").value)
    && Item(s, "aggregate").Fine? && Aggregate(Item(s, "aggregate").value)
  }

  // ---------------------------------------------------------------- section by section

  lemma {:induction false} ShapeExactly(s: Py)
    ensures Shape(s) <==> s.Dict? && Get(s, "schema_version") == Fine(Str(STATE_SCHEMA_VERSION)) && CheckFields(s.keys) == []
  {
    if s.Dict? { FieldsExactly(s.keys); }
  }

  ghost predicate TopField(k: Key) {
    k.StrKey? &&
    k.text in {"schema_version", "authorization", "repository", "policy", "parser", "universe", "per_site", "aggregate"}
  }

  lemma {:induction false} FieldsExactly(ks: seq<Key>)
    ensures CheckFields(ks) == [] <==> forall k :: k in ks <==> TopField(k)
  {
    assert forall k :: TopField(k) <==> k.StrKey? && k.text in STATE_TOP_FIELDS;
    if CheckFields(ks) == [] {
      assert !AnyUnknown(ks, STATE_TOP_FIELDS) && !AnyMissing(ks, STATE_TOP_FIELDS);
    }
    if forall k :: k in ks <==> TopField(k) {
      forall f | f in STATE_TOP_FIELDS ensures StrKey(f) in ks { assert TopField(StrKey(f)); }
    }
  }

  lemma {:induction false} KeyValuesHold(ks: seq<Key>, v: Py)
    ensures v in KeyValues(ks) <==> exists k | k in ks :: v == KeyValue(k)
  {
    if ks != [] {
      KeyValuesHold(ks[1..], v);
      assert ks == [ks[0]] + ks[1..];
    }
  }

  /** The set of the keys, as Python builds it. */
  lemma {:induction false} KeySet(ks: seq<Key>, names: set<string>)
    ensures AsSet(KeyValues(ks)) == Fine(set n | n in names :: Str(n)) <==>
            forall k :: k in ks <==> k.StrKey? && k.text in names
  {
    forall v ensures v in KeyValues(ks) <==> exists k | k in ks :: v == KeyValue(k) { KeyValuesHold(ks, v); }
    assert forall v | v in KeyValues(ks) :: Loose(v) == v && Hashable(v);
    var wanted := set n | n in names :: Str(n);
    assert forall v :: v in Image(KeyValues(ks)) <==> v in KeyValues(ks);
    assert AsSet(KeyValues(ks)) == Fine(Image(KeyValues(ks)));
    if Image(KeyValues(ks)) == wanted {
      forall k ensures k in ks <==> k.StrKey? && k.text in names {
        if k in ks { assert KeyValue(k) in wanted; }
        if k.StrKey? && k.text in names {
          assert Str(k.text) in wanted;
          assert Str(k.text) in KeyValues(ks);
          var k' :| k' in ks && Str(k.text) == KeyValue(k');
        }
      }
    }
    if forall k :: k in ks <==> k.StrKey? && k.text in names {
      forall v ensures v in Image(KeyValues(ks)) <==> v in wanted {
        if v in wanted {
          var n :| n in names && v == Str(n);
          assert StrKey(n) in ks && KeyValue(StrKey(n)) == v;
        }
      }
      assert Image(KeyValues(ks)) == wanted;
    }
  }

  lemma {:induction false} ThreeClean(a: bool, p: Problem, b: bool, q: Problem, c: bool, r: Problem)
    ensures When(a, p) + When(b, q) + When(c, r) == [] <==> !a && !b && !c
  {
    assert |When(a, p) + When(b, q) + When(c, r)| == |When(a, p)| + |When(b, q)| + |When(c, r)|;
  }

  lemma {:induction false} FourClean(a: bool, p: Problem, b: bool, q: Problem, c: bool, r: Problem, d: bool, t: Problem)
    ensures When(a, p) + When(b, q) + When(c, r) + When(d, t) == [] <==> !a && !b && !c && !d
  {
    ThreeClean(a, p, b, q, c, r);
    assert |When(a, p) + When(b, q) + When(c, r) + When(d, t)| == |When(a, p) + When(b, q) + When(c, r)| + |When(d, t)|;
  }

  lemma {:induction false} AuthorizationExactly(a: Py, h: Host, sha: Sha)
    ensures CheckAuthorization(a, h, sha) == Fine([]) <==> Authorization(a, h, sha)
  {
    var names := {"issuance", "expiry", "duration_seconds", "pair_digest"};
    assert (set n | n in names :: Str(n)) == {Str("issuance"), Str("expiry"), Str("duration_seconds"), Str("pair_digest")};
    if IsMap(a) { KeySet(a.keys, names); }
  }

  lemma {:induction false} PolicyExactly(p: Py)
    ensures CheckPolicy(p) == Fine([]) <==> Policy(p)
  {
    if IsMap(p) {
      FourClean(!Says(p, "policy_schema_version", Str(POLICY_SCHEMA_VERSION)), StalePolicy, !Given(p, "policy_digest"),
                PolicyIncomplete, !Given(p, "category_table_digest"), PolicyIncomplete, !Given(p, "normalization_version"),
                PolicyIncomplete);
    }
  }

  lemma {:induction false} ParserExactly(p: Py)
    ensures CheckParser(p) == Fine([]) <==> Parser(p)
  {
    if IsMap(p) {
      ThreeClean(!Says(p, "parser_schema_version", Str(PARSER_SCHEMA_VERSION)), StaleParser,
                 Given(p, "parser_untrustworthy"), Untrustworthy,
                 !Says(p, "source_position_version", Str(SOURCE_POSITION_VERSION)), StalePosition);
    }
  }

  lemma {:induction false} LooseNumber(v: Py, n: nat)
    ensures Loose(v) == Atom(FloatAtom(n as real)) <==> EqualsNumber(v, n)
  {
    if v.Atom? && v.a.IntAtom? { assert v.a.n as real == n as real <==> v.a.n == n; }
  }

  /** A list that is given is the one that is checked. */
  lemma {:induction false} GivenSites(u: Py)
    requires Given(u, "site_ids")
    ensures SiteIds(u) == Members(Get(u, "site_ids").value)
  {
    LookupDefault(u.keys, u.vals, "site_ids", Tuple([]), NONE_VALUE);
  }

  lemma {:induction false} UniverseExactly(u: Py)
    ensures CheckUniverse(u) == Fine([]) <==> Universe(u)
  {
    if Given(u, "site_ids") {
      GivenSites(u);
      if SiteIds(u).Fine? {
        var sites := SiteIds(u).value;
        SetSize(sites);
        if Get(u, "site_count").Fine? { LooseNumber(Get(u, "site_count").value, |sites|); }
      }
    }
  }

  // ---------------------------------------------------------------- the records

  /** The column of a field, if every record has it. */
  lemma {:induction false} ColumnFine(rs: seq<Py>, k: string)
    ensures Column(rs, k).Fine? <==> forall r | r in rs :: Get(r, k).Fine?
  {
    if rs != [] {
      ColumnFine(rs[1..], k);
      assert rs == [rs[0]] + rs[1..];
    }
  }

  lemma {:induction false} ColumnMembers(rs: seq<Py>, k: string, v: Py)
    requires Column(rs, k).Fine?
    ensures v in Column(rs, k).value <==> exists r | r in rs :: Get(r, k) == Fine(v)
  {
    if rs != [] {
      ColumnMembers(rs[1..], k, v);
      assert rs == [rs[0]] + rs[1..];
    }
  }

  lemma {:induction false} ColumnHashable(rs: seq<Py>, k: string)
    requires Column(rs, k).Fine?
    ensures AllHashable(Column(rs, k).value) <==> forall r | r in rs :: Get(r, k).Fine? && Hashable(Get(r, k).value)
    ensures AllTrue(Column(rs, k).value) <==> forall r | r in rs :: Given(r, k)
    ensures forall w :: AllEqual(Column(rs, k).value, w) <==> forall r | r in rs :: Says(r, k, w)
  {
    ColumnFine(rs, k);
    forall v ensures v in Column(rs, k).value <==> exists r | r in rs :: Get(r, k) == Fine(v) { ColumnMembers(rs, k, v); }
    forall r | r in rs ensures Get(r, k).value in Column(rs, k).value { assert Get(r, k) == Fine(Get(r, k).value); }
  }

  ghost predicate About(r: Py, site: Py) { Get(r, "id").Fine? && Loose(Get(r, "id").value) == Loose(site) }

  /** The records are about the sites and about nothing else. */
  ghost predicate Matched(records: seq<Py>, sites: seq<Py>) {
    (forall x | x in sites :: SomeAbout(records, x)) && forall r | r in records :: AboutSome(r, sites)
  }

  ghost predicate SomeAbout(records: seq<Py>, x: Py) { exists r | r in records :: About(r, x) }

  ghost predicate AboutSome(r: Py, sites: seq<Py>) { exists x | x in sites :: About(r, x) }

  lemma {:induction false} SameImages(ids: seq<Py>, sites: seq<Py>)
    ensures Image(ids) == Image(sites) <==>
            (forall x | x in sites :: SameIn(x, ids)) && forall v | v in ids :: SameIn(v, sites)
  {
    forall x ensures Loose(x) in Image(ids) <==> SameIn(x, ids) { }
    forall x ensures Loose(x) in Image(sites) <==> SameIn(x, sites) { }
  }

  ghost predicate SameIn(x: Py, vs: seq<Py>) { exists v | v in vs :: Loose(v) == Loose(x) }

  lemma {:induction false} AboutIds(records: seq<Py>, x: Py)
    requires Column(records, "id").Fine?
    ensures SameIn(x, Column(records, "id").value) <==> SomeAbout(records, x)
  {
    var ids := Column(records, "id").value;
    if SameIn(x, ids) {
      var v :| v in ids && Loose(v) == Loose(x);
      ColumnMembers(records, "id", v);
      var r :| r in records && Get(r, "id") == Fine(v);
      assert About(r, x);
    }
    if SomeAbout(records, x) {
      var r :| r in records && About(r, x);
      ColumnMembers(records, "id", Get(r, "id").value);
    }
  }

  lemma {:induction false} ImagesMeet(records: seq<Py>, sites: seq<Py>)
    requires Column(records, "id").Fine?
    ensures Image(Column(records, "id").value) == Image(sites) <==> Matched(records, sites)
  {
    var ids := Column(records, "id").value;
    SameImages(ids, sites);
    forall x | x in sites ensures SameIn(x, ids) <==> SomeAbout(records, x) { AboutIds(records, x); }
    IdsInSites(records, sites);
  }

  lemma {:induction false} IdsInSites(records: seq<Py>, sites: seq<Py>)
    requires Column(records, "id").Fine?
    ensures (forall v | v in Column(records, "id").value :: SameIn(v, sites)) <==>
            forall r | r in records :: AboutSome(r, sites)
  {
    var ids := Column(records, "id").value;
    ColumnFine(records, "id");
    forall v ensures v in ids <==> exists r | r in records :: Get(r, "id") == Fine(v) { ColumnMembers(records, "id", v); }
    forall r | r in records ensures AboutSome(r, sites) <==> SameIn(Get(r, "id").value, sites) {
      if SameIn(Get(r, "id").value, sites) {
        var x :| x in sites && Loose(x) == Loose(Get(r, "id").value);
        assert About(r, x);
      }
    }
    forall r | r in records ensures Get(r, "id").value in ids { assert Get(r, "id") == Fine(Get(r, "id").value); }
  }

  ghost predicate Passing(r: Py) {
    Get(r, "id").Fine? && Hashable(Get(r, "id").value) && Given(r, "position") && Says(r, "decision", Str("PASS"))
  }

  lemma {:induction false} DecidedIs(records: seq<Py>, sites: seq<Py>)
    ensures Decided(records, sites) <==>
            AllPassing(records) && Matched(records, sites) && |records| == |sites|
  {
    assert forall r, x :: Decides(r, x) <==> Passing(r) && About(r, x);
  }

  /** What the code asks of the records. */
  ghost predicate Listed(records: seq<Py>, sites: seq<Py>) {
    && AllPassing(records) && Column(records, "id").Fine? && Distinct(Column(records, "id").value)
    && Image(Column(records, "id").value) == Image(sites)
  }

  ghost predicate AllPassing(records: seq<Py>) { forall r | r in records :: Passing(r) }

  lemma {:induction false} SameNumber(ids: seq<Py>, sites: seq<Py>)
    requires Distinct(sites) && Image(ids) == Image(sites)
    ensures Distinct(ids) <==> |ids| == |sites|
  {
    SetSize(sites);
    SetSize(ids);
  }

  /** One record for each site and no other: in terms of the sets that Python builds. */
  lemma {:induction false} DecidedExactly(records: seq<Py>, sites: seq<Py>)
    requires Distinct(sites)
    ensures Listed(records, sites) <==> Decided(records, sites)
  {
    DecidedIs(records, sites);
    ColumnFine(records, "id");
    if Column(records, "id").Fine? {
      var ids := Column(records, "id").value;
      ColumnLength(records, "id");
      ImagesMeet(records, sites);
      if Image(ids) == Image(sites) { SameNumber(ids, sites); }
    }
  }

  lemma {:induction false} SitesExactly(per: Py, agg: Py, u: Py)
    requires Universe(u)
    ensures CheckSites(per, u) == Fine([]) && CheckAggregate(agg, per) == Fine([]) <==> Sites(per, u) && Aggregate(agg)
  {
    GivenSites(u);
    var sites := SiteIds(u).value;
    if Members(per).Fine? {
      var records := Members(per).value;
      DecidedExactly(records, sites);
      ListedExactly(per, records, agg, u, sites);
    }
  }

  lemma {:induction false} ListedExactly(per: Py, records: seq<Py>, agg: Py, u: Py, sites: seq<Py>)
    requires Members(per) == Fine(records) && SiteIds(u) == Fine(sites) && AllHashable(sites)
    ensures CheckSites(per, u) == Fine([]) && CheckAggregate(agg, per) == Fine([]) <==>
            Truth(per) && Listed(records, sites) && Aggregate(agg)
  {
    ColumnFine(records, "id");
    ColumnFine(records, "position");
    ColumnFine(records, "decision");
    if Column(records, "id").Fine? { ColumnHashable(records, "id"); }
    if Column(records, "position").Fine? { ColumnHashable(records, "position"); }
    if Column(records, "decision").Fine? { ColumnHashable(records, "decision"); }
    if Column(records, "id").Fine? && Column(records, "position").Fine? {
      SitesReconcile(Truth(per), Column(records, "id").value, AllTrue(Column(records, "position").value), sites);
    }
    if Column(records, "decision").Fine? { AggregateExactly(agg, per, records); }
  }

  lemma {:induction false} AggregateExactly(agg: Py, per: Py, records: seq<Py>)
    requires Members(per) == Fine(records) && Column(records, "decision").Fine?
    ensures CheckAggregate(agg, per) == Fine([]) <==>
            Aggregate(agg) && AllEqual(Column(records, "decision").value, Str("PASS"))
  {
    if IsMap(agg) {
      var clean, layer := Get(agg, "docker_aggregate").value, Get(agg, "docker_per_site_layer").value;
      FourClean(!Says(agg, "workflow_coverage", Str(WORKFLOW_COVERAGE_MARKER)), CoverageMarker, clean != TRUE, NotClean,
                clean == TRUE && !AllEqual(Column(records, "decision").value, Str(SITE_PASS)), ForcedClean,
                layer != clean, LayerDisagrees);
    }
  }

  // ---------------------------------------------------------------- the whole state

  /** A state is valid exactly if it is as described. */
  lemma {:induction false} ValidExactly(s: Py, h: Host, sha: Sha)
    ensures ValidState(s, h, sha) <==> Described(s, h, sha)
  {
    ValidSections(s, h, sha);
    ShapeExactly(s);
    if Item(s, "authorization").Fine? { AuthorizationExactly(Item(s, "authorization").value, h, sha); }
    if Item(s, "policy").Fine? { PolicyExactly(Item(s, "policy").value); }
    if Item(s, "parser").Fine? { ParserExactly(Item(s, "parser").value); }
    if Item(s, "universe").Fine? {
      var u := Item(s, "universe").value;
      UniverseExactly(u);
      if Universe(u) && Item(s, "per_site").Fine? && Item(s, "aggregate").Fine? {
        SitesExactly(Item(s, "per_site").value, Item(s, "aggregate").value, u);
      }
    }
  }

  // ---------------------------------------------------------------- what the checks rest on

  /** What Python takes for false: None, False, zero, and everything empty. */
  lemma {:induction false} FalsyExactly(v: Py)
    ensures !Truth(v) <==>
      || v == Atom(NoneAtom) || v == Atom(BoolAtom(false)) || v == Atom(IntAtom(0)) || v == Atom(FloatAtom(0.0))
      || v == Str("") || v == ByteArray("") || v == List([]) || v == Tuple([]) || v == Set([]) || v == FrozenSet([])
      || (IsMap(v) && v.keys == [])
  {
  }

  /** The way leads through tuples to `x`. */
  ghost predicate Inside(v: Py, x: Py, way: seq<Py>) {
    && way != [] && way[0] == v && way[|way| - 1] == x
    && forall i | 0 <= i < |way| - 1 :: way[i].Tuple? && way[i + 1] in way[i].elems
  }

  predicate Unhashable(v: Py) { v.List? || v.Dict? || v.Proxy? || v.Set? || v.ByteArray? }

  /** A value can be a member of a set exactly if no unhashable one is in it, through tuples within tuples. */
  lemma {:induction false} HashableExactly(v: Py)
    ensures Hashable(v) <==> !exists x, way :: Inside(v, x, way) && Unhashable(x)
    decreases v
  {
    if v.Tuple? {
      forall e | e in v.elems ensures Hashable(e) <==> !exists x, way :: Inside(e, x, way) && Unhashable(x) {
        HashableExactly(e);
      }
      if !Hashable(v) {
        var e :| e in v.elems && !Hashable(e);
        var x, way :| Inside(e, x, way) && Unhashable(x);
        assert Inside(v, x, [v] + way);
      }
      if exists x, way :: Inside(v, x, way) && Unhashable(x) {
        var x, way :| Inside(v, x, way) && Unhashable(x);
        assert Inside(way[1], x, way[1..]);
      }
    } else {
      assert Inside(v, v, [v]);
      assert forall x, way :: Inside(v, x, way) ==> x == v;
    }
  }

  /** Ids of different types that cannot be ordered make the check raise, not report, if both are unknown to the other side. */
  lemma {:induction false} MixedIdsRaise(present: bool, ids: seq<Py>, positioned: bool, sites: seq<Py>, x: Py, y: Py)
    requires x in ids && y in ids && IsStr(x) && !IsStr(y) && Loose(x) !in Image(sites) && Loose(y) !in Image(sites)
    ensures SiteProblems(present, ids, positioned, sites).Crash? && SiteProblems(present, sites, positioned, ids).Crash?
  {
    assert Loose(x) in Image(ids) - Image(sites) && Loose(y) in Image(ids) - Image(sites);
    assert IsStr(Loose(x)) && !IsStr(Loose(y)) && !IsNumber(Loose(x));
    TwoMembers(Image(ids) - Image(sites), Loose(x), Loose(y));
  }

  lemma {:induction false} TwoMembers<T>(s: set<T>, x: T, y: T)
    requires x in s && y in s && x != y
    ensures |s| > 1
  {
    assert {x, y} <= s;
    assert s == {x, y} + (s - {x, y});
  }

  // ---------------------------------------------------------------- there are such states

  /** A dict with these fields. */
  function Fields(v: seq<(string, Py)>): Py {
    Dict(seq(|v|, i requires 0 <= i < |v| => StrKey(v[i].0)), seq(|v|, i requires 0 <= i < |v| => v[i].1))
  }

  ghost predicate Named(v: seq<(string, Py)>) { forall i, j | 0 <= i < j < |v| :: v[i].0 != v[j].0 }

  lemma {:induction false} LookupAt(ks: seq<Key>, vs: seq<Py>, i: nat, default: Py)
    requires |ks| == |vs| && i < |ks| && ks[i].StrKey? && forall j | 0 <= j < i :: ks[j] != ks[i]
    ensures Has(ks, vs, ks[i].text) && Lookup(ks, vs, ks[i].text, default) == vs[i]
  {
    if i > 0 { LookupAt(ks[1..], vs[1..], i - 1, default); }
  }

  lemma {:induction false} FieldsAre(v: seq<(string, Py)>)
    requires Named(v)
    ensures forall i | 0 <= i < |v| :: Item(Fields(v), v[i].0) == Get(Fields(v), v[i].0) == Fine(v[i].1)
    ensures HasKeys(Fields(v), set f | f in v :: f.0)
  {
    forall i | 0 <= i < |v| ensures Item(Fields(v), v[i].0) == Get(Fields(v), v[i].0) == Fine(v[i].1) {
      LookupAt(Fields(v).keys, Fields(v).vals, i, NONE_VALUE);
    }
    var ks := Fields(v).keys;
    assert |ks| == |v| && forall i | 0 <= i < |v| :: ks[i] == StrKey(v[i].0);
    forall k ensures k in ks <==> k.StrKey? && k.text in (set f | f in v :: f.0) {
      if k.StrKey? && k.text in (set f | f in v :: f.0) {
        var f :| f in v && f.0 == k.text;
        var i :| 0 <= i < |v| && v[i] == f;
        assert ks[i] == k;
      }
    }
  }

  lemma {:induction false} FourNames(v: seq<(string, Py)>)
    requires |v| == 4
    ensures (set f | f in v :: f.0) == {v[0].0, v[1].0, v[2].0, v[3].0}
  {
    assert v[0] in v && v[1] in v && v[2] in v && v[3] in v;
  }

  lemma {:induction false} SampleAuthorization(h: Host, sha: Sha) returns (a: Py)
    ensures Authorization(a, h, sha)
  {
    var none := NONE_VALUE;
    var pair := Dict([StrKey("issuance"), StrKey("expiry"), StrKey("duration_seconds")], [none, none, none]);
    a := PairFields(Str(sha(Canonical(pair, h))));
  }

  lemma {:induction false} PairFields(digest: Py) returns (a: Py)
    ensures HasKeys(a, {"issuance", "expiry", "duration_seconds", "pair_digest"})
    ensures Item(a, "issuance") == Item(a, "expiry") == Item(a, "duration_seconds") == Fine(NONE_VALUE)
    ensures Item(a, "pair_digest") == Fine(digest)
  {
    var v := [("issuance", NONE_VALUE), ("expiry", NONE_VALUE), ("duration_seconds", NONE_VALUE), ("pair_digest", digest)];
    FieldsAre(v);
    FourNames(v);
    assert v[0].0 == "issuance" && v[1].0 == "expiry" && v[2].0 == "duration_seconds" && v[3].0 == "pair_digest";
    a := Fields(v);
  }

  lemma {:induction false} SamplePolicy() returns (p: Py)
    ensures Policy(p)
  {
    var v := [("policy_schema_version", Str("docker-boundary-policy.v1")), ("policy_digest", Str("p")),
              ("category_table_digest", Str("c")), ("normalization_version", Str("n"))];
    FieldsAre(v);
    assert v[0].0 == "policy_schema_version" && v[1].0 == "policy_digest";
    assert v[2].0 == "category_table_digest" && v[3].0 == "normalization_version";
    p := Fields(v);
  }

  lemma {:induction false} SampleParser() returns (p: Py)
    ensures Parser(p)
  {
    var v := [("parser_schema_version", Str("i28bf-b1.1")), ("parser_untrustworthy", Tuple([])),
              ("source_position_version", Str("i28bf-a3.1"))];
    FieldsAre(v);
    assert v[0].0 == "parser_schema_version" && v[1].0 == "parser_untrustworthy" && v[2].0 == "source_position_version";
    p := Fields(v);
  }

  lemma {:induction false} SampleUniverse() returns (u: Py)
    ensures Universe(u) && Get(u, "site_ids") == Fine(Tuple([Str("a")]))
  {
    var v := [("reconciliation", Str("AGREE")), ("expected_positive", TRUE), ("site_ids", Tuple([Str("a")])),
              ("site_count", Atom(IntAtom(1)))];
    FieldsAre(v);
    assert v[0].0 == "reconciliation" && v[1].0 == "expected_positive" && v[2].0 == "site_ids" && v[3].0 == "site_count";
    u := Fields(v);
  }

  lemma {:induction false} SampleSites(u: Py) returns (per: Py)
    requires Universe(u) && Get(u, "site_ids") == Fine(Tuple([Str("a")]))
    ensures Sites(per, u)
  {
    var v := [("id", Str("a")), ("position", Atom(IntAtom(7))), ("decision", Str("PASS"))];
    FieldsAre(v);
    assert v[0].0 == "id" && v[1].0 == "position" && v[2].0 == "decision";
    var r := Fields(v);
    assert Decides(r, Str("a")) && Str("a") in [Str("a")] && r in [r];
    per := List([r]);
  }

  lemma {:induction false} SampleAggregate() returns (a: Py)
    ensures Aggregate(a)
  {
    var v := [("workflow_coverage", Str(WORKFLOW_COVERAGE_MARKER)), ("docker_aggregate", TRUE), ("docker_per_site_layer", TRUE)];
    FieldsAre(v);
    assert v[0].0 == "workflow_coverage" && v[1].0 == "docker_aggregate" && v[2].0 == "docker_per_site_layer";
    a := Fields(v);
  }

  /** Eight names, told apart by their lengths and two letters. */
  lemma {:induction false} EightNamed(v: seq<(string, Py)>)
    requires |v| == 8 && |v[0].0| == 14 && |v[1].0| == 13 && |v[2].0| == 10 && |v[3].0| == |v[4].0| == 6
    requires |v[5].0| == |v[6].0| == 8 && |v[7].0| == 9 && v[3].0[1] != v[4].0[1] && v[5].0[0] != v[6].0[0]
    ensures Named(v)
    ensures (set f | f in v :: f.0) == {v[0].0, v[1].0, v[2].0, v[3].0, v[4].0, v[5].0, v[6].0, v[7].0}
  {
    assert forall i | 0 <= i < |v| :: v[i] in v;
  }

  lemma {:induction false} Assembled(v: seq<(string, Py)>, h: Host, sha: Sha)
    requires |v| == 8 && Named(v)
    requires (set f | f in v :: f.0) == {v[0].0, v[1].0, v[2].0, v[3].0, v[4].0, v[5].0, v[6].0, v[7].0}
    requires v[0] == ("schema_version", Str("i28bf-b1.1")) && v[1].0 == "authorization" && v[2].0 == "repository"
    requires v[3].0 == "policy" && v[4].0 == "parser" && v[5].0 == "universe" && v[6].0 == "per_site" && v[7].0 == "aggregate"
    requires Authorization(v[1].1, h, sha) && Policy(v[3].1) && Parser(v[4].1) && Universe(v[5].1)
    requires Sites(v[6].1, v[5].1) && Aggregate(v[7].1)
    ensures Described(Fields(v), h, sha)
  {
    FieldsAre(v);
    assert v[0].0 == "schema_version";
  }

  /** A dict with the eight fields. */
  lemma {:induction false} EightFields(a: Py, p: Py, q: Py, u: Py, per: Py, g: Py) returns (v: seq<(string, Py)>)
    ensures |v| == 8 && Named(v)
    ensures (set f | f in v :: f.0) == {v[0].0, v[1].0, v[2].0, v[3].0, v[4].0, v[5].0, v[6].0, v[7].0}
    ensures v[0] == ("schema_version", Str("i28bf-b1.1")) && v[1] == ("authorization", a) && v[2].0 == "repository"
    ensures v[3] == ("policy", p) && v[4] == ("parser", q) && v[5] == ("universe", u)
    ensures v[6] == ("per_site", per) && v[7] == ("aggregate", g)
  {
    v := [("schema_version", Str("i28bf-b1.1")), ("authorization", a), ("repository", NONE_VALUE), ("policy", p),
          ("parser", q), ("universe", u), ("per_site", per), ("aggregate", g)];
    EightNamed(v);
  }

  lemma {:induction false} FromSections(a: Py, p: Py, q: Py, u: Py, per: Py, g: Py, h: Host, sha: Sha) returns (s: Py)
    requires Authorization(a, h, sha) && Policy(p) && Parser(q) && Universe(u) && Sites(per, u) && Aggregate(g)
    ensures Described(s, h, sha)
  {
    var v := EightFields(a, p, q, u, per, g);
    Assembled(v, h, sha);
    s := Fields(v);
  }

  /** So there is a valid state, whatever the digest. */
  lemma {:induction false} SampleValid(h: Host, sha: Sha) returns (s: Py)
    ensures ValidState(s, h, sha)
  {
    var a := SampleAuthorization(h, sha);
    var p := SamplePolicy();
    var q := SampleParser();
    var u := SampleUniverse();
    var per := SampleSites(u);
    var g := SampleAggregate();
    s := FromSections(a, p, q, u, per, g, h, sha);
    ValidExactly(s, h, sha);
  }
}
