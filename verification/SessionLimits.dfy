/** Exactly when the section-by-section report at session finish loses a difference. */
module SessionLimits {
  import opened Common
  import opened Frozen
  import opened Sorting
  import opened CanonicalDicts
  import opened DockerState
  import opened DockerThaw
  import opened GovernedCache
  import opened StateOrder
  import opened Session

  // ---------------------------------------------------------------- equal sections make equal states

  lemma {:induction false} RestNothing(ks: seq<Key>, cs: seq<Canon>, apart: set<string>)
    requires forall k | k in ks :: k.text in apart
    ensures Rest(ks, cs, apart) == []
  {
    if ks != [] && cs != [] { RestNothing(ks[1..], cs[1..], apart); }
  }

  function AsSetOf(fields: seq<string>): set<string> { set f | f in fields }

  ghost predicate AllHold(s: Py, fields: seq<string>) { forall f | f in fields :: Holds(s, f) }

  ghost predicate AllSame(s: Py, t: Py, fields: seq<string>, h: Host)
    requires s.Dict? && t.Dict?
  {
    forall f | f in fields :: SameAt(s, t, f, h)
  }

  ghost predicate Different(fields: seq<string>) { forall i, j | 0 <= i < j < |fields| :: fields[i] != fields[j] }

  lemma {:induction false} FieldsHead(fields: seq<string>, apart: set<string>)
    requires fields != [] && Different(fields) && AsSetOf(fields) !! apart
    ensures var more := apart + {fields[0]};
      more + AsSetOf(fields[1..]) == apart + AsSetOf(fields) && AsSetOf(fields[1..]) !! more && Different(fields[1..]) && fields[0] !in apart
  {
    assert fields == [fields[0]] + fields[1..];
    assert fields[0] in AsSetOf(fields);
  }

  lemma {:induction false} HoldTail(s: Py, fields: seq<string>)
    requires AllHold(s, fields) && fields != []
    ensures Holds(s, fields[0]) && AllHold(s, fields[1..])
  {
    assert fields[0] in fields && forall f | f in fields[1..] :: f in fields;
  }

  lemma {:induction false} SameTail(s: Py, t: Py, fields: seq<string>, h: Host)
    requires s.Dict? && t.Dict? && AllSame(s, t, fields, h) && fields != []
    ensures SameAt(s, t, fields[0], h) && AllSame(s, t, fields[1..], h)
  {
    assert fields[0] in fields && forall f | f in fields[1..] :: f in fields;
  }

  /** Dicts that agree on each of some keys and apart from them agree. */
  lemma {:induction false} PeelAll(s: Py, t: Py, fields: seq<string>, apart: set<string>, h: Host)
    requires WellKeyed(s) && WellKeyed(t) && AllHold(s, fields) && AllHold(t, fields) && AllSame(s, t, fields, h)
    requires Different(fields) && AsSetOf(fields) !! apart && SameApart(s, t, apart + AsSetOf(fields), h)
    ensures SameApart(s, t, apart, h)
  {
    if fields == [] {
      assert apart + AsSetOf(fields) == apart;
    } else {
      FieldsHead(fields, apart);
      HoldTail(s, fields);
      HoldTail(t, fields);
      SameTail(s, t, fields, h);
      PeelAll(s, t, fields[1..], apart + {fields[0]}, h);
      PeelKey(s, t, fields[0], apart, apart + {fields[0]}, h);
    }
  }

  const OTHER_FIELDS := ["schema_version", "authorization", "repository", "policy", "parser", "aggregate"]

  lemma {:induction false} FieldsSplit()
    ensures AsSetOf(STATE_TOP_FIELDS) == {"per_site", "universe"} + AsSetOf(OTHER_FIELDS)
    ensures Different(OTHER_FIELDS)
    ensures forall f | f in OTHER_FIELDS :: f in STATE_TOP_FIELDS && f != "per_site" && f != "universe"
  {
  }

  lemma {:induction false} HasIn(ks: seq<Key>, vs: seq<Py>, k: string)
    requires |ks| == |vs| && StrKey(k) in ks
    ensures Has(ks, vs, k)
  {
    if ks[0] != StrKey(k) { HasIn(ks[1..], vs[1..], k); }
  }

  lemma {:induction false} FieldsPresent(s: Py, fields: seq<string>)
    requires WellKeyed(s) && !AnyUnknown(s.keys, fields) && !AnyMissing(s.keys, fields)
    ensures AllHold(s, fields) && forall k | k in s.keys :: k.text in AsSetOf(fields)
  {
    forall f | f in fields ensures Holds(s, f) { HasIn(s.keys, s.vals, f); }
  }

  lemma {:induction false} FieldsNamed(s: Py)
    requires WellKeyed(s) && CheckFields(s.keys) == []
    ensures AllHold(s, STATE_TOP_FIELDS) && forall k | k in s.keys :: k.text in AsSetOf(STATE_TOP_FIELDS)
  {
    FieldsPresent(s, STATE_TOP_FIELDS);
  }

  lemma {:induction false} SectionsMakeApart(s: Py, t: Py, h: Host)
    requires WellKeyed(s) && WellKeyed(t) && CheckFields(s.keys) == [] && CheckFields(t.keys) == []
    requires AllSame(s, t, STATE_TOP_FIELDS, h)
    ensures SameApart(s, t, {"per_site", "universe"}, h)
  {
    var apart := {"per_site", "universe"};
    FieldsSplit();
    FieldsNamed(s);
    FieldsNamed(t);
    RestNothing(s.keys, CanonicalAll(s.vals, h), apart + AsSetOf(OTHER_FIELDS));
    RestNothing(t.keys, CanonicalAll(t.vals, h), apart + AsSetOf(OTHER_FIELDS));
    PeelAll(s, t, OTHER_FIELDS, apart, h);
  }

  lemma {:induction false} SameUniverses(u: Py, w: Py, h: Host)
    requires WellKeyed(u) && WellKeyed(w) && At(u, "site_ids").List? && At(w, "site_ids").List?
    requires Canonical(u, h) == Canonical(w, h)
    ensures SameUniverse(u, w, h)
  {
    Present(u, "site_ids");
    Present(w, "site_ids");
    OneKey(u, w, "site_ids", h);
    ListsAgree(At(u, "site_ids").elems, At(w, "site_ids").elems, h);
  }

  lemma {:induction false} PickSame(s: Py, t: Py, fields: seq<string>, f: string, h: Host)
    requires s.Dict? && t.Dict? && AllSame(s, t, fields, h) && f in fields
    ensures Canonical(At(s, f), h) == Canonical(At(t, f), h)
  {
    assert SameAt(s, t, f, h);
  }

  lemma {:induction false} SortedFields()
    ensures "per_site" in STATE_TOP_FIELDS && "universe" in STATE_TOP_FIELDS
  {
    assert STATE_TOP_FIELDS[6] == "per_site" && STATE_TOP_FIELDS[5] == "universe";
  }

  /** States whose sections all have the same canonical form are the same. */
  lemma {:induction false} SectionsMakeState(s: Py, t: Py, h: Host)
    requires Ordinary(s) && Ordinary(t) && CheckFields(s.keys) == [] && CheckFields(t.keys) == []
    requires AllSame(s, t, STATE_TOP_FIELDS, h)
    ensures SameUpToOrder(s, t, h)
  {
    SectionsMakeApart(s, t, h);
    SortedFields();
    PickSame(s, t, STATE_TOP_FIELDS, "per_site", h);
    PickSame(s, t, STATE_TOP_FIELDS, "universe", h);
    ListsAgree(At(s, "per_site").elems, At(t, "per_site").elems, h);
    SameUniverses(At(s, "universe"), At(t, "universe"), h);
  }

  /** No section has a number of one kind where the other state has a number of another kind. */
  ghost predicate KindsKept(s: Py, t: Py, fields: seq<string>, h: Host)
    requires s.Dict? && t.Dict?
  {
    forall f | f in fields :: SameKinds(Canonical(At(s, f), h), Canonical(At(t, f), h))
  }

  lemma {:induction false} EqualIsSame(s: Py, t: Py, fields: seq<string>, h: Host)
    requires s.Dict? && t.Dict? && KindsKept(s, t, fields, h) && SectionsEqual(s, t, fields, h)
    ensures AllSame(s, t, fields, h)
  {
    forall f | f in fields ensures SameAt(s, t, f, h) {
      assert SectionEqual(s, t, f, h);
      EqualKinds(Canonical(At(s, f), h), Canonical(At(t, f), h));
    }
  }

  // ---------------------------------------------------------------- what `==` keeps of a rendering

  lemma {:induction false} LooseText(c: Canon)
    ensures Text(LooseCanon(c)) == Text(c)
  {
    if c.CTuple? && c.elems != [] { assert LooseAll(c.elems)[0] == LooseCanon(c.elems[0]); }
  }

  lemma {:induction false} LooseMap(cs: seq<Canon>)
    ensures LooseAll(cs) == Map(cs, LooseCanon)
  {
    if cs != [] { LooseMap(cs[1..]); }
  }

  lemma {:induction false} LooseSort(es: seq<Canon>)
    ensures LooseAll(Sort(es, EntryLe)) == Sort(LooseAll(es), EntryLe)
  {
    forall x, y | x in es && y in es ensures EntryLe(x, y) == EntryLe(LooseCanon(x), LooseCanon(y)) {
      LooseText(x);
      LooseText(y);
    }
    SortMap(es, LooseCanon, EntryLe, EntryLe);
    LooseMap(es);
    LooseMap(Sort(es, EntryLe));
  }

  lemma {:induction false} LooseEntry(text: string, c: Canon, d: Canon)
    requires Equal(c, d)
    ensures Equal(Entry(text, c), Entry(text, d))
  {
    LooseMap(Entry(text, c).elems);
    LooseMap(Entry(text, d).elems);
    assert LooseAll(Entry(text, c).elems) == LooseAll(Entry(text, d).elems);
  }

  lemma {:induction false} LooseId(es: seq<Canon>)
    ensures IdText(LooseAll(es)) == IdText(es)
  {
    if es != [] {
      LooseText(es[0]);
      LooseId(es[1..]);
      if Text(es[0]) == "id" && |es[0].elems| == 2 { assert LooseAll(es[0].elems)[1] == LooseCanon(es[0].elems[1]); }
    }
  }

  lemma {:induction false} LooseRecord(c: Canon)
    ensures RecordText(LooseCanon(c)) == RecordText(c)
  {
    if c.CTuple? { LooseId(c.elems); }
  }

  // ---------------------------------------------------------------- records and site ids that compare equal

  ghost predicate DifferentRecords(cs: seq<Canon>) {
    forall i, j | 0 <= i < j < |cs| :: RecordText(cs[i]) != RecordText(cs[j])
  }

  lemma {:induction false} RecordAligned(cs: seq<Canon>, ds: seq<Canon>, i: nat, j: nat)
    requires DifferentRecords(cs) && i < |cs| && j < |cs| && |cs| == |ds|
    requires ds[j] == cs[i] && LooseCanon(ds[j]) == LooseCanon(cs[j])
    ensures i == j
  {
    LooseRecord(ds[j]);
    LooseRecord(cs[j]);
  }

  lemma {:induction false} LooseAt(cs: seq<Canon>, ds: seq<Canon>, i: nat)
    requires LooseAll(cs) == LooseAll(ds) && i < |cs|
    ensures |cs| == |ds| && LooseCanon(cs[i]) == LooseCanon(ds[i])
  {
    LooseMap(cs);
    LooseMap(ds);
    assert |LooseAll(cs)| == |LooseAll(ds)|;
  }

  lemma {:induction false} WhereIn<T>(xs: seq<T>, ys: seq<T>, i: nat) returns (j: nat)
    requires multiset(xs) == multiset(ys) && i < |xs|
    ensures j < |ys| && ys[j] == xs[i]
  {
    assert xs[i] in multiset(ys);
    j :| j < |ys| && ys[j] == xs[i];
  }

  /** Records with different ids that compare equal one by one, and are the same records in some order, are in the same order. */
  lemma {:induction false} RecordsAligned(cs: seq<Canon>, ds: seq<Canon>)
    requires LooseAll(cs) == LooseAll(ds) && multiset(cs) == multiset(ds) && DifferentRecords(cs)
    ensures cs == ds
  {
    assert |LooseAll(cs)| == |LooseAll(ds)|;
    forall i | 0 <= i < |cs| ensures cs[i] == ds[i] {
      var j := WhereIn(cs, ds, i);
      LooseAt(cs, ds, j);
      RecordAligned(cs, ds, i, j);
    }
  }

  lemma {:induction false} RecordTexts(rs: seq<Py>, h: Host)
    requires Records(rs) && DistinctIds(rs)
    ensures DifferentRecords(CanonicalAll(rs, h))
  {
    var cs := CanonicalAll(rs, h);
    forall i, j | 0 <= i < j < |cs| ensures RecordText(cs[i]) != RecordText(cs[j]) {
      CanonicalAt(rs, h, i);
      CanonicalAt(rs, h, j);
      RecordTextIs(rs[i], h);
      RecordTextIs(rs[j], h);
    }
  }

  lemma {:induction false} LooseTexts(vs: seq<Py>, h: Host)
    requires Texts(vs)
    ensures LooseAll(CanonicalAll(vs, h)) == CanonicalAll(vs, h)
  {
    if vs != [] {
      RenderedText(vs[0], h);
      LooseTexts(vs[1..], h);
    }
  }

  lemma {:induction false} LooseEntryOf(text: string, c: Canon)
    ensures LooseCanon(Entry(text, c)) == Entry(text, LooseCanon(c))
  {
    LooseMap(Entry(text, c).elems);
    assert LooseAll(Entry(text, c).elems) == Entry(text, LooseCanon(c)).elems;
  }

  lemma {:induction false} LooseDict(ks: seq<Key>, cs: seq<Canon>)
    requires |ks| == |cs|
    ensures LooseAll(Entries(ks, cs)) == Entries(ks, LooseAll(cs))
  {
    if ks != [] {
      LooseEntryOf(ks[0].text, cs[0]);
      LooseDict(ks[1..], cs[1..]);
    }
  }

  lemma {:induction false} UnderAt(ks: seq<Key>, cs: seq<Canon>, i: nat)
    requires |ks| == |cs| && i < |ks| && DistinctTexts(ks)
    ensures Under(Entries(ks, cs), ks[i].text) != [] && Under(Entries(ks, cs), ks[i].text)[0] == Entry(ks[i].text, cs[i])
  {
    UnderCons(ks, cs, ks[i].text);
    if i > 0 { UnderAt(ks[1..], cs[1..], i - 1); }
  }

  lemma {:induction false} LooseUnder(u: Py, k: string, h: Host)
    requires WellKeyed(u) && Holds(u, k)
    ensures var es := Under(LooseCanon(Canonical(u, h)).elems, k); es != [] && es[0] == Entry(k, LooseCanon(Canonical(At(u, k), h)))
  {
    var i := KeyIndex(u, k);
    var cs := CanonicalAll(u.vals, h);
    LooseSort(Entries(u.keys, cs));
    LooseDict(u.keys, cs);
    SortUnder(Entries(u.keys, LooseAll(cs)), k);
    UnderAt(u.keys, LooseAll(cs), i);
    CanonicalAt(u.vals, h, i);
    LooseMap(cs);
  }

  /** Dicts that compare equal have values that compare equal. */
  lemma {:induction false} EqualAt(u: Py, w: Py, k: string, h: Host)
    requires WellKeyed(u) && WellKeyed(w) && Holds(u, k) && Holds(w, k) && Equal(Canonical(u, h), Canonical(w, h))
    ensures Equal(Canonical(At(u, k), h), Canonical(At(w, k), h))
  {
    LooseUnder(u, k, h);
    LooseUnder(w, k, h);
    EntryInjective(k, LooseCanon(Canonical(At(u, k), h)), k, LooseCanon(Canonical(At(w, k), h)));
  }

  lemma {:induction false} SiteIdsAligned(vs: seq<Py>, ws: seq<Py>, h: Host)
    requires Texts(vs) && Texts(ws) && Equal(Canonical(List(vs), h), Canonical(List(ws), h))
    ensures Canonical(List(vs), h) == Canonical(List(ws), h)
  {
    LooseTexts(vs, h);
    LooseTexts(ws, h);
  }

  lemma {:induction false} UniverseAligned(u: Py, w: Py, h: Host)
    requires WellKeyed(u) && At(u, "site_ids").List? && Texts(At(u, "site_ids").elems)
    requires WellKeyed(w) && At(w, "site_ids").List? && Texts(At(w, "site_ids").elems)
    requires Equal(Canonical(u, h), Canonical(w, h)) && SameApart(u, w, {"site_ids"}, h)
    ensures Canonical(u, h) == Canonical(w, h)
  {
    Present(u, "site_ids");
    Present(w, "site_ids");
    EqualAt(u, w, "site_ids", h);
    SiteIdsAligned(At(u, "site_ids").elems, At(w, "site_ids").elems, h);
    OneKey(u, w, "site_ids", h);
  }

  lemma {:induction false} OtherFieldSame(s: Py, t: Py, f: string, apart: set<string>, h: Host)
    requires WellKeyed(s) && WellKeyed(t) && Holds(s, f) && Holds(t, f) && SameApart(s, t, apart, h) && f !in apart
    ensures SameAt(s, t, f, h)
  {
    PeelKey(s, t, f, apart, apart + {f}, h);
  }

  lemma {:induction false} RecordsSame(rs: seq<Py>, ts: seq<Py>, h: Host)
    requires Records(rs) && DistinctIds(rs) && LooseAll(CanonicalAll(rs, h)) == LooseAll(CanonicalAll(ts, h))
    requires multiset(CanonicalAll(rs, h)) == multiset(CanonicalAll(ts, h))
    ensures CanonicalAll(rs, h) == CanonicalAll(ts, h)
  {
    RecordTexts(rs, h);
    RecordsAligned(CanonicalAll(rs, h), CanonicalAll(ts, h));
  }

  lemma {:induction false} ListsEqual(rs: seq<Py>, ts: seq<Py>, h: Host)
    ensures Equal(Canonical(List(rs), h), Canonical(List(ts), h)) <==> LooseAll(CanonicalAll(rs, h)) == LooseAll(CanonicalAll(ts, h))
  {
  }

  lemma {:induction false} PickEqual(s: Py, t: Py, fields: seq<string>, f: string, h: Host)
    requires s.Dict? && t.Dict? && SectionsEqual(s, t, fields, h) && f in fields
    ensures Equal(Canonical(At(s, f), h), Canonical(At(t, f), h))
  {
    assert SectionEqual(s, t, f, h);
  }

  lemma {:induction false} TwoSectionsSame(s: Py, t: Py, h: Host)
    requires Ordinary(s) && Ordinary(t) && DistinctIds(At(s, "per_site").elems)
    requires SectionsEqual(s, t, STATE_TOP_FIELDS, h) && SameUpToOrder(s, t, h)
    ensures SameAt(s, t, "per_site", h) && SameAt(s, t, "universe", h)
  {
    SortedFields();
    PickEqual(s, t, STATE_TOP_FIELDS, "per_site", h);
    PickEqual(s, t, STATE_TOP_FIELDS, "universe", h);
    ListsEqual(At(s, "per_site").elems, At(t, "per_site").elems, h);
    RecordsSame(At(s, "per_site").elems, At(t, "per_site").elems, h);
    ListsAgree(At(s, "per_site").elems, At(t, "per_site").elems, h);
    UniverseAligned(At(s, "universe"), At(t, "universe"), h);
  }

  lemma {:induction false} OtherSectionsSame(s: Py, t: Py, fields: seq<string>, apart: set<string>, h: Host)
    requires WellKeyed(s) && WellKeyed(t) && AllHold(s, fields) && AllHold(t, fields) && SameApart(s, t, apart, h)
    ensures forall f | f in fields && f !in apart :: SameAt(s, t, f, h)
  {
    forall f | f in fields && f !in apart ensures SameAt(s, t, f, h) { OtherFieldSame(s, t, f, apart, h); }
  }

  /** States that are the same up to order, and whose sections compare equal as they stand, have the same sections. */
  lemma {:induction false} SectionsAligned(s: Py, t: Py, h: Host)
    requires Ordinary(s) && Ordinary(t) && AllHold(s, STATE_TOP_FIELDS) && AllHold(t, STATE_TOP_FIELDS)
    requires DistinctIds(At(s, "per_site").elems) && SectionsEqual(s, t, STATE_TOP_FIELDS, h) && SameUpToOrder(s, t, h)
    ensures AllSame(s, t, STATE_TOP_FIELDS, h)
  {
    TwoSectionsSame(s, t, h);
    OtherSectionsSame(s, t, STATE_TOP_FIELDS, {"per_site", "universe"}, h);
  }

  /** Sections that compare equal belong to states that are the same exactly when they keep the kind of every number. */
  lemma {:induction false} SameExactly(s: Py, t: Py, h: Host)
    requires Ordinary(s) && Ordinary(t) && CheckFields(s.keys) == [] && CheckFields(t.keys) == []
    requires DistinctIds(At(s, "per_site").elems) && SectionsEqual(s, t, STATE_TOP_FIELDS, h)
    ensures SameUpToOrder(s, t, h) <==> KindsKept(s, t, STATE_TOP_FIELDS, h)
  {
    if SameUpToOrder(s, t, h) {
      FieldsNamed(s);
      FieldsNamed(t);
      SectionsAligned(s, t, h);
      forall f | f in STATE_TOP_FIELDS ensures SameKinds(Canonical(At(s, f), h), Canonical(At(t, f), h)) {
        assert SameAt(s, t, f, h);
        EqualKinds(Canonical(At(s, f), h), Canonical(At(t, f), h));
      }
    } else if KindsKept(s, t, STATE_TOP_FIELDS, h) {
      EqualIsSame(s, t, STATE_TOP_FIELDS, h);
      SectionsMakeState(s, t, h);
      assert false;
    }
  }

  lemma {:induction false} ValidFields(s: Py, h: Host, sha: Sha)
    requires ValidState(s, h, sha) && s.Dict?
    ensures CheckFields(s.keys) == []
  {
  }

  /** Every section is `==`, and one has a number of another kind than before. */
  ghost predicate Masked(b: Py, a: Py, h: Host)
    requires b.Dict? && a.Dict?
  {
    SectionsEqual(b, a, STATE_TOP_FIELDS, h) && !KindsKept(b, a, STATE_TOP_FIELDS, h)
  }

  /**
   Session finish is right about a baseline and a fresh state, clean exactly when they are the same but for
   the order of records and site ids, unless all sections are `==` and one of them has a number of another
   kind than before.
   */
  lemma {:induction false} LostExactly(b: Py, a: Py, h: Host, sha: Sha)
    requires ValidState(b, h, sha) && Thaw(b, h) == b && Ordinary(b)
    requires Raw(a) && Ordinary(Thaw(a, h)) && CheckFields(Thaw(a, h).keys) == []
    requires NoCollision(sha, Canonical(SortedState(b), h), Canonical(SortedState(Thaw(a, h)), h))
    ensures var a' := Thaw(a, h);
      (Compared(b, a, h, sha) == Fine([]) <==> SameUpToOrder(b, a', h)) <==>
      !Masked(b, a', h)
  {
    var a' := Thaw(a, h);
    ValidFields(b, h, sha);
    ValidDistinct(b, h, sha);
    ComparedExactly(b, a, h, sha);
    if SectionsEqual(b, a', STATE_TOP_FIELDS, h) { SameExactly(b, a', h); }
  }

  // ---------------------------------------------------------------- a session from start to finish

  lemma {:induction false} FinishExactly(b: Py, a: Py, h: Host, sha: Sha)
    requires ValidState(b, h, sha) && Thaw(b, h) == b && Ordinary(b)
    requires Raw(a) && Ordinary(Thaw(a, h)) && ValidState(a, h, sha)
    requires NoCollision(sha, Canonical(SortedState(b), h), Canonical(SortedState(Thaw(a, h)), h))
    ensures Compared(b, a, h, sha) == Fine([]) <==> SameUpToOrder(b, Thaw(a, h), h) || Masked(b, Thaw(a, h), h)
  {
    ValidFields(a, h, sha);
    assert Thaw(a, h).keys == a.keys;
    LostExactly(b, a, h, sha);
    ComparedExactly(b, a, h, sha);
  }

  /** The copies of two states are the same up to order, or differ in the kind of numbers alone. */
  ghost predicate SameOrMasked(s: Py, t: Py, h: Host)
    requires Ordinary(Thaw(s, h)) && Ordinary(Thaw(t, h))
  {
    SameUpToOrder(Thaw(s, h), Thaw(t, h), h) || Masked(Thaw(s, h), Thaw(t, h), h)
  }

  /**
   Establishment binds a baseline to `first`; anybody may then write anything into the cache; finishing with
   `last` is clean exactly when that is valid and the same as `first` up to order, or differs from it in the
   kind of numbers alone.
   */
  method RunSession(g: Governed, first: Py, contract: string, stamp: Stamp, writes: map<string, Py>, last: Py)
    returns (bound: bool, r: Out<Verdict>)
    requires Raw(first) && PlainIds(first) && Ordinary(Thaw(first, g.h)) && Raw(last) && Ordinary(Thaw(last, g.h))
    requires NoCollision(g.sha, Canonical(SortedState(Thaw(first, g.h)), g.h), Canonical(SortedState(Thaw(last, g.h)), g.h))
    modifies g
    ensures bound <==> Filed(first, contract, stamp, g.h, g.sha).Fine?
    ensures bound && r.Fine? ==> (r.value.clean <==> ValidState(last, g.h, g.sha) && SameOrMasked(first, last, g.h))
    ensures bound ==> (r.Crash? <==> ValidateState(last, g.h, g.sha).Crash?)
  {
    var b := g.Establish(Fine(first), contract, stamp);
    if b.Crash? { return false, Crash; }
    EstablishedBaseline(b.value, first, contract, g.h, g.sha);
    g.cache := writes;
    r := ReverifyState(Some(b.value.state), Fine(last), g.h, g.sha);
    bound := true;
    OrdinaryDigests(b.value.state, last, g.h, g.sha);
    if ValidState(last, g.h, g.sha) { FinishExactly(b.value.state, last, g.h, g.sha); }
  }

  /** Both digests can be taken, so the comparison gives an answer. */
  lemma {:induction false} OrdinaryDigests(b: Py, a: Py, h: Host, sha: Sha)
    requires Thaw(b, h) == b && Ordinary(b) && Raw(a) && Ordinary(Thaw(a, h))
    ensures Compared(b, a, h, sha).Fine?
  {
    ThawRaw(a, h);
    OrdinaryDigest(b, h, sha);
    OrdinaryDigest(Thaw(a, h), h, sha);
  }

  // ---------------------------------------------------------------- a difference that is lost

  /** Replacing a value by one that compares equal leaves the entries equal. */
  lemma {:induction false} LooseEntries(ks: seq<Key>, vs: seq<Py>, k: string, v: Py, h: Host)
    requires |ks| == |vs| && Has(ks, vs, k) && Equal(Canonical(v, h), Canonical(Lookup(ks, vs, k, NONE_VALUE), h))
    ensures LooseAll(Entries(ks, CanonicalAll(Replace(ks, vs, k, v), h))) == LooseAll(Entries(ks, CanonicalAll(vs, h)))
  {
    if ks[0] == StrKey(k) {
      LooseEntry(k, Canonical(v, h), Canonical(vs[0], h));
    } else {
      LooseEntries(ks[1..], vs[1..], k, v, h);
    }
  }

  lemma {:induction false} PutEqual(s: Py, k: string, v: Py, h: Host)
    requires WellKeyed(s) && Holds(s, k) && Equal(Canonical(v, h), Canonical(At(s, k), h))
    ensures Equal(Canonical(Put(s, k, v), h), Canonical(s, h))
  {
    LooseEntries(s.keys, s.vals, k, v, h);
    LooseSort(Entries(s.keys, CanonicalAll(s.vals, h)));
    LooseSort(Entries(s.keys, CanonicalAll(Replace(s.keys, s.vals, k, v), h)));
  }

  lemma {:induction false} ReplaceRaw(ks: seq<Key>, vs: seq<Py>, k: string, v: Py, h: Host)
    requires RawAll(vs) && Raw(v) && ThawAll(vs, h) == vs && Thaw(v, h) == v
    ensures RawAll(Replace(ks, vs, k, v)) && ThawAll(Replace(ks, vs, k, v), h) == Replace(ks, vs, k, v)
  {
    if ks != [] && vs != [] {
      assert ThawAll(vs, h)[0] == vs[0] && ThawAll(vs, h)[1..] == vs[1..];
      ReplaceRaw(ks[1..], vs[1..], k, v, h);
    }
  }

  lemma {:induction false} PutRaw(s: Py, k: string, v: Py, h: Host)
    requires s.Dict? && Raw(s) && Thaw(s, h) == s && Raw(v) && Thaw(v, h) == v
    ensures Raw(Put(s, k, v)) && Thaw(Put(s, k, v), h) == Put(s, k, v)
  {
    ReplaceRaw(s.keys, s.vals, k, v, h);
  }

  lemma {:induction false} LookupRaw(ks: seq<Key>, vs: seq<Py>, k: string, h: Host)
    requires RawAll(vs) && ThawAll(vs, h) == vs
    ensures Raw(Lookup(ks, vs, k, NONE_VALUE)) && Thaw(Lookup(ks, vs, k, NONE_VALUE), h) == Lookup(ks, vs, k, NONE_VALUE)
  {
    if ks != [] && vs != [] {
      assert ThawAll(vs, h)[0] == vs[0] && ThawAll(vs, h)[1..] == vs[1..];
      LookupRaw(ks[1..], vs[1..], k, h);
    }
  }

  lemma {:induction false} PutItem(s: Py, k: string, v: Py, l: string)
    requires WellKeyed(s) && Holds(s, k)
    ensures Get(Put(s, k, v), l) == if l == k then Fine(v) else Get(s, l)
    ensures Item(Put(s, k, v), l) == if l == k then Fine(v) else Item(s, l)
  {
    LookupReplace(s.keys, s.vals, k, v, l, NONE_VALUE);
  }

  const COUNT := "load_bearing_count"

  lemma {:induction false} SiteIdsKept(uni: Py, v: Py)
    requires WellKeyed(uni) && Holds(uni, COUNT)
    ensures SiteIds(Put(uni, COUNT, v)) == SiteIds(uni)
  {
    LookupReplace(uni.keys, uni.vals, COUNT, v, "site_ids", Tuple([]));
  }

  lemma {:induction false} UniverseKept(uni: Py, v: Py)
    requires WellKeyed(uni) && Holds(uni, COUNT)
    ensures CheckUniverse(Put(uni, COUNT, v)) == CheckUniverse(uni)
  {
    SiteIdsKept(uni, v);
    PutItem(uni, COUNT, v, "reconciliation");
    PutItem(uni, COUNT, v, "expected_positive");
    PutItem(uni, COUNT, v, "site_ids");
    PutItem(uni, COUNT, v, "site_count");
  }

  lemma {:induction false} IdentitiesKept(s: Py, uni: Py, h: Host, sha: Sha)
    requires WellKeyed(s) && Holds(s, "universe") && Identities(s, h, sha)
    ensures Identities(Put(s, "universe", uni), h, sha)
  {
    PutItem(s, "universe", uni, "authorization");
    PutItem(s, "universe", uni, "policy");
    PutItem(s, "universe", uni, "parser");
  }

  lemma {:induction false} SummaryKept(s: Py, uni: Py)
    requires WellKeyed(s) && Holds(s, "universe") && Summary(s)
    ensures Summary(Put(s, "universe", uni))
  {
    PutItem(s, "universe", uni, "per_site");
    PutItem(s, "universe", uni, "aggregate");
  }

  lemma {:induction false} SitesKept(per: Py, uni: Py, v: Py)
    requires WellKeyed(uni) && Holds(uni, COUNT)
    ensures CheckSites(per, Put(uni, COUNT, v)) == CheckSites(per, uni)
  {
    SiteIdsKept(uni, v);
  }

  lemma {:induction false} InventoryKept(s: Py, v: Py)
    requires WellKeyed(s) && Holds(s, "universe") && WellKeyed(At(s, "universe")) && Holds(At(s, "universe"), COUNT) && Inventory(s)
    ensures Inventory(Put(s, "universe", Put(At(s, "universe"), COUNT, v)))
  {
    PutItem(s, "universe", Put(At(s, "universe"), COUNT, v), "universe");
    PutItem(s, "universe", Put(At(s, "universe"), COUNT, v), "per_site");
    UniverseKept(At(s, "universe"), v);
    SitesKept(Item(s, "per_site").value, At(s, "universe"), v);
  }

  /** Validation does not look at the load-bearing count. */
  lemma {:induction false} CountUnchecked(s: Py, v: Py, h: Host, sha: Sha)
    requires ValidState(s, h, sha) && Ordinary(s) && Holds(At(s, "universe"), COUNT)
    ensures ValidState(Put(s, "universe", Put(At(s, "universe"), COUNT, v)), h, sha)
  {
    var uni := Put(At(s, "universe"), COUNT, v);
    ValidSections(s, h, sha);
    StatePresent(s);
    PutItem(s, "universe", uni, "schema_version");
    IdentitiesKept(s, uni, h, sha);
    SummaryKept(s, uni);
    InventoryKept(s, v);
    ValidSections(Put(s, "universe", uni), h, sha);
  }

  /** The state with the load-bearing count written as a float. */
  function Recounted(s: Py, n: int): Py
    requires Ordinary(s)
  {
    Put(s, "universe", Put(At(s, "universe"), COUNT, Atom(FloatAtom(n as real))))
  }

  lemma {:induction false} RecountedOrdinary(s: Py, n: int)
    requires Ordinary(s) && Holds(At(s, "universe"), COUNT)
    ensures Ordinary(Recounted(s, n)) && At(Recounted(s, n), "universe") == Put(At(s, "universe"), COUNT, Atom(FloatAtom(n as real)))
    ensures forall f | f != "universe" :: At(Recounted(s, n), f) == At(s, f)
  {
    var uni := At(s, "universe");
    var v := Atom(FloatAtom(n as real));
    StatePresent(s);
    PutAt(uni, COUNT, v, "site_ids");
    PutAt(s, "universe", Put(uni, COUNT, v), "universe");
    forall f | f != "universe" ensures At(Recounted(s, n), f) == At(s, f) { PutAt(s, "universe", Put(uni, COUNT, v), f); }
  }

  /** Its normal form. */
  function CountedState(s: Py, n: int): Py
    requires Ordinary(s) && Holds(At(s, "universe"), COUNT)
  {
    RecountedOrdinary(s, n);
    SortedState(Recounted(s, n))
  }

  lemma {:induction false} RecountedEqual(s: Py, n: int, h: Host)
    requires Ordinary(s) && Holds(At(s, "universe"), COUNT) && At(At(s, "universe"), COUNT) == Atom(IntAtom(n))
    ensures SectionsEqual(s, Recounted(s, n), STATE_TOP_FIELDS, h)
  {
    RecountedOrdinary(s, n);
    PutEqual(At(s, "universe"), COUNT, Atom(FloatAtom(n as real)), h);
    forall f | f in STATE_TOP_FIELDS ensures SectionEqual(s, Recounted(s, n), f, h) {
      if f == "universe" { assert SectionEqual(s, Recounted(s, n), "universe", h); }
    }
  }

  lemma {:induction false} RecountedDiffers(s: Py, n: int, h: Host)
    requires Ordinary(s) && Holds(At(s, "universe"), COUNT) && At(At(s, "universe"), COUNT) == Atom(IntAtom(n))
    ensures Ordinary(Recounted(s, n)) && !SameUpToOrder(s, Recounted(s, n), h)
  {
    RecountedOrdinary(s, n);
    var u, w := At(s, "universe"), At(Recounted(s, n), "universe");
    PutAt(u, COUNT, Atom(FloatAtom(n as real)), COUNT);
    Present(w, COUNT);
    PeelKey(u, w, COUNT, {"site_ids"}, {"site_ids", COUNT}, h);
  }

  /**
   A difference that is lost: whatever valid state the session started from, if its load-bearing count is
   an integer then finishing with the same number as a float is a different, valid state with another
   digest, and the finish is clean.
   */
  lemma {:induction false} MaskedChange(s: Py, n: int, h: Host, sha: Sha)
    requires ValidState(s, h, sha) && Raw(s) && Thaw(s, h) == s && Ordinary(s)
    requires Holds(At(s, "universe"), COUNT) && At(At(s, "universe"), COUNT) == Atom(IntAtom(n))
    requires NoCollision(sha, Canonical(SortedState(s), h), Canonical(CountedState(s, n), h))
    ensures ValidState(Recounted(s, n), h, sha) && StateDigest(Recounted(s, n), h, sha) != StateDigest(s, h, sha)
    ensures Compared(s, Recounted(s, n), h, sha) == Fine([])
  {
    var t, v := Recounted(s, n), Atom(FloatAtom(n as real));
    CountUnchecked(s, v, h, sha);
    RecountedEqual(s, n, h);
    RecountedDiffers(s, n, h);
    LookupRaw(s.keys, s.vals, "universe", h);
    PutRaw(At(s, "universe"), COUNT, v, h);
    PutRaw(s, "universe", Put(At(s, "universe"), COUNT, v), h);
    ComparedExactly(s, t, h, sha);
    OrdinaryDigest(s, h, sha);
    OrdinaryDigest(t, h, sha);
    ValidDistinct(s, h, sha);
    StatesAgree(s, t, h);
  }
}
