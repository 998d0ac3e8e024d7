/**
 When a valid state stays valid after it has been frozen and thawed, and that its digest and its
 cache key do not change.
 */
module DockerThaw {
  import opened Frozen
  import opened DockerState

  lemma {:induction false} ThawLength(vs: seq<Py>, h: Host)
    ensures |ThawAll(vs, h)| == |vs|
  {
    if vs != [] { ThawLength(vs[1..], h); }
  }

  lemma {:induction false} ThawRaw(v: Py, h: Host)
    requires Raw(v)
    ensures Raw(Thaw(v, h)) && Thaw(Thaw(v, h), h) == Thaw(v, h)
    decreases v, 0
  {
    match v {
      case Dict(_, vs) => ThawRawAll(vs, h);
      case List(vs) => ThawRawAll(vs, h);
      case Tuple(vs) => ThawRawAll(vs, h);
      case _ =>
    }
  }

  lemma {:induction false} ThawRawAll(vs: seq<Py>, h: Host)
    requires RawAll(vs)
    ensures RawAll(ThawAll(vs, h)) && ThawAll(ThawAll(vs, h), h) == ThawAll(vs, h) && |ThawAll(vs, h)| == |vs|
    decreases vs, 1
  {
    if vs != [] {
      ThawRaw(vs[0], h);
      ThawRawAll(vs[1..], h);
    }
  }

  // ---------------------------------------------------------------- what the checks can see of a value

  /** The two values have the same truth value and are the same if either is a plain value. */
  predicate Alike(v: Py, w: Py) { Truth(v) == Truth(w) && v.Atom? == w.Atom? && (v.Atom? ==> v == w) }

  predicate AlikeOut(r: Out<Py>, t: Out<Py>) { r.Fine? == t.Fine? && (r.Fine? ==> Alike(r.value, t.value)) }

  lemma {:induction false} ThawAlike(v: Py, h: Host)
    requires Raw(v)
    ensures Alike(v, Thaw(v, h))
  {
    match v {
      case List(vs) => ThawLength(vs, h);
      case Tuple(vs) => ThawLength(vs, h);
      case _ =>
    }
  }

  lemma {:induction false} ThawLookup(ks: seq<Key>, vs: seq<Py>, k: string, default: Py, h: Host)
    requires RawAll(vs)
    ensures Lookup(ks, ThawAll(vs, h), k, Thaw(default, h)) == Thaw(Lookup(ks, vs, k, default), h)
    ensures Has(ks, ThawAll(vs, h), k) == Has(ks, vs, k)
    ensures Raw(default) ==> Raw(Lookup(ks, vs, k, default))
  {
    if ks != [] && vs != [] { ThawLookup(ks[1..], vs[1..], k, default, h); }
  }

  ghost function ThawOut(r: Out<Py>, h: Host): Out<Py> { if r.Crash? then Crash else Fine(Thaw(r.value, h)) }

  ghost predicate RawOut(r: Out<Py>) { r.Fine? ==> Raw(r.value) }

  lemma {:induction false} ThawGet(v: Py, k: string, h: Host)
    requires Raw(v)
    ensures Get(Thaw(v, h), k) == ThawOut(Get(v, k), h) && RawOut(Get(v, k))
  {
    if v.Dict? { ThawLookup(v.keys, v.vals, k, NONE_VALUE, h); }
  }

  lemma {:induction false} ThawItem(v: Py, k: string, h: Host)
    requires Raw(v)
    ensures Item(Thaw(v, h), k) == ThawOut(Item(v, k), h) && RawOut(Item(v, k))
  {
    ThawGet(v, k, h);
    if v.Dict? { ThawLookup(v.keys, v.vals, k, NONE_VALUE, h); }
  }

  lemma {:induction false} GetAlike(v: Py, k: string, h: Host)
    requires Raw(v)
    ensures AlikeOut(Get(v, k), Get(Thaw(v, h), k))
  {
    ThawGet(v, k, h);
    if Get(v, k).Fine? { ThawAlike(Get(v, k).value, h); }
  }

  predicate Scalars(vs: seq<Py>) { vs == [] || (vs[0].Atom? && Scalars(vs[1..])) }

  lemma {:induction false} ThawScalars(vs: seq<Py>, h: Host)
    requires Scalars(vs)
    ensures ThawAll(vs, h) == vs
  {
    if vs != [] { ThawScalars(vs[1..], h); }
  }

  /** What was a tuple is a list after thawing, and a list cannot be a member of a set. */
  lemma {:induction false} ThawHashable(vs: seq<Py>, h: Host)
    requires RawAll(vs)
    ensures AllHashable(ThawAll(vs, h)) <==> Scalars(vs)
  {
    if vs != [] {
      ThawHashable(vs[1..], h);
      var ts := ThawAll(vs, h);
      assert ts == [Thaw(vs[0], h)] + ThawAll(vs[1..], h);
      assert Hashable(Thaw(vs[0], h)) <==> vs[0].Atom?;
      assert (forall x | x in ts :: Hashable(x)) <==>
             Hashable(ts[0]) && (forall x | x in ThawAll(vs[1..], h) :: Hashable(x));
    }
  }

  // ---------------------------------------------------------------- section by section

  lemma {:induction false} RawThree(a: Py, b: Py, c: Py, h: Host)
    requires Raw(a) && Raw(b) && Raw(c)
    ensures RawAll([a, b, c]) && ThawAll([a, b, c], h) == [Thaw(a, h), Thaw(b, h), Thaw(c, h)]
  {
    assert [a, b, c][1..] == [b, c] && [b, c][1..] == [c] && [c][1..] == [];
    assert RawAll([]) && ThawAll([], h) == [];
    assert RawAll([c]) && ThawAll([c], h) == [Thaw(c, h)] + ThawAll([], h);
    assert RawAll([b, c]) && ThawAll([b, c], h) == [Thaw(b, h)] + ThawAll([c], h);
  }

  lemma {:induction false} ThawPair(auth: Py, h: Host)
    requires Raw(auth) && Pair(auth).Fine?
    ensures Pair(Thaw(auth, h)).Fine? && Canonical(Pair(Thaw(auth, h)).value, h) == Canonical(Pair(auth).value, h)
  {
    ThawItem(auth, "issuance", h);
    ThawItem(auth, "expiry", h);
    ThawItem(auth, "duration_seconds", h);
    var p := Pair(auth).value;
    RawThree(p.vals[0], p.vals[1], p.vals[2], h);
    ThawCanonicalAll(p.vals, h);
  }

  lemma {:induction false} ThawAuthorization(auth: Py, h: Host, sha: Sha)
    requires Raw(auth) && CheckAuthorization(auth, h, sha) == Fine([])
    ensures CheckAuthorization(Thaw(auth, h), h, sha) == Fine([])
  {
    ThawItem(auth, "pair_digest", h);
    ThawAlike(Item(auth, "pair_digest").value, h);
    ThawPair(auth, h);
  }

  lemma {:induction false} ThawPolicy(pol: Py, h: Host)
    requires Raw(pol)
    ensures CheckPolicy(Thaw(pol, h)) == CheckPolicy(pol)
  {
    GetAlike(pol, "policy_schema_version", h);
    GetAlike(pol, "policy_digest", h);
    GetAlike(pol, "category_table_digest", h);
    GetAlike(pol, "normalization_version", h);
  }

  lemma {:induction false} ThawParser(par: Py, h: Host)
    requires Raw(par)
    ensures CheckParser(Thaw(par, h)) == CheckParser(par)
  {
    GetAlike(par, "parser_schema_version", h);
    GetAlike(par, "parser_untrustworthy", h);
    GetAlike(par, "source_position_version", h);
  }

  lemma {:induction false} PlainKeys(ks: seq<Key>)
    ensures Scalars(KeyValues(ks))
  {
    if ks != [] { PlainKeys(ks[1..]); }
  }

  lemma {:induction false} PlainChars(s: string)
    ensures Scalars(Chars(s))
  {
    if s != "" { PlainChars(s[1..]); }
  }

  lemma {:induction false} ScalarsRaw(vs: seq<Py>)
    requires Scalars(vs)
    ensures RawAll(vs)
  {
    if vs != [] { ScalarsRaw(vs[1..]); }
  }

  /** Iterating over a thawed value gives the thawed members. */
  lemma {:induction false} ThawMembers(v: Py, h: Host)
    requires Raw(v)
    ensures Members(v).Crash? ==> Members(Thaw(v, h)).Crash?
    ensures Members(v).Fine? ==> Members(Thaw(v, h)) == Fine(ThawAll(Members(v).value, h)) && RawAll(Members(v).value)
  {
    if v.Dict? {
      PlainKeys(v.keys);
      ScalarsRaw(KeyValues(v.keys));
      ThawScalars(KeyValues(v.keys), h);
    } else if v.Atom? && v.a.StrAtom? {
      PlainChars(v.a.s);
      ScalarsRaw(Chars(v.a.s));
      ThawScalars(Chars(v.a.s), h);
    }
  }

  /** The default matters only when the key is missing. */
  lemma {:induction false} LookupDefault(ks: seq<Key>, vs: seq<Py>, k: string, a: Py, b: Py)
    ensures if Has(ks, vs, k) then Lookup(ks, vs, k, a) == Lookup(ks, vs, k, b)
            else Lookup(ks, vs, k, a) == a && Lookup(ks, vs, k, b) == b
  {
    if ks != [] && vs != [] { LookupDefault(ks[1..], vs[1..], k, a, b); }
  }

  lemma {:induction false} ThawGetOr(v: Py, k: string, h: Host)
    requires Raw(v) && v.Dict?
    ensures var x, y := GetOr(v, k, Tuple([])).value, GetOr(Thaw(v, h), k, Tuple([])).value;
      Raw(x) && (y == Thaw(x, h) || (x == y == Tuple([])))
  {
    ThawLookup(v.keys, v.vals, k, Tuple([]), h);
    LookupDefault(v.keys, ThawAll(v.vals, h), k, Tuple([]), Thaw(Tuple([]), h));
    LookupDefault(v.keys, v.vals, k, Tuple([]), NONE_VALUE);
  }

  lemma {:induction false} ThawSiteIds(uni: Py, h: Host)
    requires Raw(uni) && SiteIds(uni).Fine?
    ensures SiteIds(Thaw(uni, h)) == Fine(ThawAll(SiteIds(uni).value, h)) && RawAll(SiteIds(uni).value)
  {
    ThawGetOr(uni, "site_ids", h);
    ThawMembers(GetOr(uni, "site_ids", Tuple([])).value, h);
  }

  lemma {:induction false} ThawUniverse(uni: Py, h: Host)
    requires Raw(uni) && CheckUniverse(uni) == Fine([])
    ensures CheckUniverse(Thaw(uni, h)) == if Scalars(SiteIds(uni).value) then Fine([]) else Crash
  {
    ThawSiteIds(uni, h);
    ThawHashable(SiteIds(uni).value, h);
    if Scalars(SiteIds(uni).value) {
      ThawScalars(SiteIds(uni).value, h);
      GetAlike(uni, "reconciliation", h);
      GetAlike(uni, "expected_positive", h);
      GetAlike(uni, "site_ids", h);
      GetAlike(uni, "site_count", h);
    }
  }

  lemma {:induction false} ThawColumn(rs: seq<Py>, k: string, h: Host)
    requires RawAll(rs) && Column(rs, k).Fine?
    ensures Column(ThawAll(rs, h), k) == Fine(ThawAll(Column(rs, k).value, h))
    ensures RawAll(Column(rs, k).value)
  {
    if rs != [] {
      ThawGet(rs[0], k, h);
      ThawColumn(rs[1..], k, h);
    }
  }

  lemma {:induction false} AllCons(vs: seq<Py>, w: Py)
    requires vs != []
    ensures AllTrue(vs) <==> Truth(vs[0]) && AllTrue(vs[1..])
    ensures AllEqual(vs, w) <==> vs[0] == w && AllEqual(vs[1..], w)
  {
    assert vs == [vs[0]] + vs[1..] && vs[0] in vs;
    assert forall d | d in vs[1..] :: d in vs;
  }

  lemma {:induction false} ThawEvery(vs: seq<Py>, w: Py, h: Host)
    requires RawAll(vs) && w.Atom?
    ensures AllTrue(ThawAll(vs, h)) == AllTrue(vs) && AllEqual(ThawAll(vs, h), w) == AllEqual(vs, w)
  {
    if vs != [] {
      ThawAlike(vs[0], h);
      ThawEvery(vs[1..], w, h);
      AllCons(vs, w);
      AllCons(ThawAll(vs, h), w);
    }
  }

  ghost function RecordIds(per: Py): Out<seq<Py>> {
    var records :- Members(per);
    Column(records, "id")
  }

  lemma {:induction false} ThawRecordIds(per: Py, h: Host)
    requires Raw(per) && RecordIds(per).Fine?
    ensures RecordIds(Thaw(per, h)) == Fine(ThawAll(RecordIds(per).value, h)) && RawAll(RecordIds(per).value)
  {
    ThawMembers(per, h);
    ThawColumn(Members(per).value, "id", h);
  }

  lemma {:induction false} ThawPositions(per: Py, h: Host)
    requires Raw(per) && Members(per).Fine? && Column(Members(per).value, "position").Fine?
    ensures Members(Thaw(per, h)).Fine? && Column(Members(Thaw(per, h)).value, "position").Fine?
    ensures AllTrue(Column(Members(Thaw(per, h)).value, "position").value) == AllTrue(Column(Members(per).value, "position").value)
  {
    ThawMembers(per, h);
    ThawColumn(Members(per).value, "position", h);
    ThawEvery(Column(Members(per).value, "position").value, NONE_VALUE, h);
  }

  lemma {:induction false} ThawSites(per: Py, uni: Py, h: Host)
    requires Raw(per) && Raw(uni) && CheckSites(per, uni) == Fine([]) && Scalars(SiteIds(uni).value)
    ensures CheckSites(Thaw(per, h), Thaw(uni, h)) == if Scalars(RecordIds(per).value) then Fine([]) else Crash
  {
    ThawRecordIds(per, h);
    ThawPositions(per, h);
    ThawSiteIds(uni, h);
    ThawScalars(SiteIds(uni).value, h);
    ThawHashable(RecordIds(per).value, h);
    ThawAlike(per, h);
    if Scalars(RecordIds(per).value) { ThawScalars(RecordIds(per).value, h); }
  }

  lemma {:induction false} ThawAggregate(agg: Py, per: Py, h: Host)
    requires Raw(agg) && Raw(per) && CheckAggregate(agg, per) == Fine([])
    ensures CheckAggregate(Thaw(agg, h), Thaw(per, h)) == Fine([])
  {
    ThawMembers(per, h);
    var records := Members(per).value;
    ThawColumn(records, "decision", h);
    ThawEvery(Column(records, "decision").value, Str(SITE_PASS), h);
    GetAlike(agg, "workflow_coverage", h);
    GetAlike(agg, "docker_aggregate", h);
    GetAlike(agg, "docker_per_site_layer", h);
  }

  // ---------------------------------------------------------------- the whole state

  ghost predicate ScalarOut(r: Out<seq<Py>>) { r.Fine? && Scalars(r.value) }

  /** The site ids and the record ids are plain values. */
  ghost predicate PlainIds(s: Py) {
    && Item(s, "universe").Fine? && ScalarOut(SiteIds(Item(s, "universe").value))
    && Item(s, "per_site").Fine? && ScalarOut(RecordIds(Item(s, "per_site").value))
  }

  ghost predicate Identities(s: Py, h: Host, sha: Sha) {
    && Item(s, "authorization").Fine? && CheckAuthorization(Item(s, "authorization").value, h, sha) == Fine([])
    && Item(s, "policy").Fine? && CheckPolicy(Item(s, "policy").value) == Fine([])
    && Item(s, "parser").Fine? && CheckParser(Item(s, "parser").value) == Fine([])
  }

  ghost predicate Inventory(s: Py) {
    && Item(s, "universe").Fine? && CheckUniverse(Item(s, "universe").value) == Fine([])
    && Item(s, "per_site").Fine? && CheckSites(Item(s, "per_site").value, Item(s, "universe").value) == Fine([])
  }

  ghost predicate Summary(s: Py) {
    && Item(s, "per_site").Fine?
    && Item(s, "aggregate").Fine? && CheckAggregate(Item(s, "aggregate").value, Item(s, "per_site").value) == Fine([])
  }

  lemma {:induction false} IdentitiesClean(s: Py, h: Host, sha: Sha)
    ensures CheckIdentities(s, h, sha) == Fine([]) <==> Identities(s, h, sha)
  {
  }

  lemma {:induction false} InventoryClean(s: Py)
    ensures CheckInventory(s) == Fine([]) <==> Inventory(s)
  {
  }

  lemma {:induction false} SummaryClean(s: Py)
    ensures CheckSummary(s) == Fine([]) <==> Summary(s)
  {
  }

  lemma {:induction false} SectionsClean(s: Py, h: Host, sha: Sha)
    ensures CheckSections(s, h, sha) == Fine([]) <==> Identities(s, h, sha) && Inventory(s) && Summary(s)
  {
    IdentitiesClean(s, h, sha);
    InventoryClean(s);
    SummaryClean(s);
  }

  lemma {:induction false} ThawIdentities(s: Py, h: Host, sha: Sha)
    requires Raw(s) && Identities(s, h, sha)
    ensures Identities(Thaw(s, h), h, sha)
  {
    ThawItem(s, "authorization", h);
    ThawItem(s, "policy", h);
    ThawItem(s, "parser", h);
    ThawAuthorization(Item(s, "authorization").value, h, sha);
    ThawPolicy(Item(s, "policy").value, h);
    ThawParser(Item(s, "parser").value, h);
  }

  lemma {:induction false} ThawSummary(s: Py, h: Host)
    requires Raw(s) && Summary(s)
    ensures Summary(Thaw(s, h))
  {
    ThawItem(s, "per_site", h);
    ThawItem(s, "aggregate", h);
    ThawAggregate(Item(s, "aggregate").value, Item(s, "per_site").value, h);
  }

  lemma {:induction false} ThawInventory(s: Py, h: Host)
    requires Raw(s) && Inventory(s)
    ensures CheckInventory(Thaw(s, h)) == if PlainIds(s) then Fine([]) else Crash
  {
    ThawItem(s, "universe", h);
    ThawItem(s, "per_site", h);
    ThawUniverse(Item(s, "universe").value, h);
    if Scalars(SiteIds(Item(s, "universe").value).value) {
      ThawSites(Item(s, "per_site").value, Item(s, "universe").value, h);
    }
  }

  lemma {:induction false} SectionsOf(s: Py, h: Host, sha: Sha)
    requires Identities(s, h, sha) && Summary(s) && (CheckInventory(s) == Fine([]) || CheckInventory(s).Crash?)
    ensures CheckSections(s, h, sha) == CheckInventory(s)
  {
    IdentitiesClean(s, h, sha);
    SummaryClean(s);
  }

  /** What a valid state has passed. */
  lemma {:induction false} ValidSections(s: Py, h: Host, sha: Sha)
    ensures ValidState(s, h, sha) <==>
            s.Dict? && Get(s, "schema_version") == Fine(Str(STATE_SCHEMA_VERSION)) && CheckFields(s.keys) == [] &&
            Identities(s, h, sha) && Inventory(s) && Summary(s)
  {
    SectionsClean(s, h, sha);
  }

  /** A valid state stays valid when it is frozen and thawed if its ids are plain values; otherwise checking it again raises. */
  lemma {:induction false} ThawValid(s: Py, h: Host, sha: Sha)
    requires Raw(s) && ValidState(s, h, sha)
    ensures ValidateState(Thaw(s, h), h, sha) == if PlainIds(s) then Fine([]) else Crash
  {
    ValidSections(s, h, sha);
    GetAlike(s, "schema_version", h);
    ThawIdentities(s, h, sha);
    ThawSummary(s, h);
    ThawInventory(s, h);
    SectionsOf(Thaw(s, h), h, sha);
  }

  lemma {:induction false} ThawDigest(s: Py, h: Host, sha: Sha)
    requires Raw(s)
    ensures StateDigest(Thaw(s, h), h, sha) == StateDigest(s, h, sha)
  {
    ThawRaw(s, h);
  }

  lemma {:induction false} ThawComponent(s: Py, contract: string, source: Source, h: Host)
    requires Raw(s)
    ensures Component(Thaw(s, h), contract, source) == ThawOut(Component(s, contract, source), h)
    ensures RawOut(Component(s, contract, source))
  {
    match source {
      case In(section, field) =>
        ThawItem(s, section, h);
        if Item(s, section).Fine? { ThawItem(Item(s, section).value, field, h); }
      case Top(field) => ThawItem(s, field, h);
      case Contract =>
    }
  }

  lemma {:induction false} ThawComponents(s: Py, contract: string, sources: seq<Source>, h: Host)
    requires Raw(s)
    ensures var r, t := Components(s, contract, sources), Components(Thaw(s, h), contract, sources);
      r.Fine? == t.Fine? && (r.Fine? ==> RawAll(r.value) && t.value == ThawAll(r.value, h) && AnyEmpty(t.value) == AnyEmpty(r.value))
  {
    if sources != [] {
      ThawComponent(s, contract, sources[0], h);
      ThawComponents(s, contract, sources[1..], h);
      if Component(s, contract, sources[0]).Fine? { ThawAlike(Component(s, contract, sources[0]).value, h); }
    }
  }

  lemma {:induction false} ThawDigestOf(names: seq<Key>, sources: seq<Source>, s: Py, contract: string, h: Host, sha: Sha)
    requires Raw(s)
    ensures DigestOf(names, sources, Thaw(s, h), contract, h, sha) == DigestOf(names, sources, s, contract, h, sha)
  {
    ThawComponents(s, contract, sources, h);
    var r := Components(s, contract, sources);
    if r.Fine? { ThawCanonicalAll(r.value, h); }
  }

  /** Freezing and thawing a state does not move it to another place in the cache. */
  lemma {:induction false} ThawKeyDigest(s: Py, contract: string, h: Host, sha: Sha)
    requires Raw(s)
    ensures KeyDigest(Thaw(s, h), contract, h, sha) == KeyDigest(s, contract, h, sha)
  {
    ThawDigestOf(CACHE_KEY_FIELDS, KEY_SOURCES, s, contract, h, sha);
  }
}
