/**
 What two states have to share for their digests to agree: everything but the order of the per-site
 records and of the site ids.
 */
module StateOrder {
  import opened Frozen
  import opened Sorting
  import opened CanonicalDicts
  import opened DockerState

  // ---------------------------------------------------------------- records are sorted by something their rendering shows

  /** The text under "id" in the rendering of a record. */
  function IdText(es: seq<Canon>): string {
    if es == [] then ""
    else if Text(es[0]) == "id" then
      if |es[0].elems| == 2 && es[0].elems[1].CAtom? && es[0].elems[1].a.StrAtom? then es[0].elems[1].a.s else ""
    else IdText(es[1..])
  }

  function RecordText(c: Canon): string { if c.CTuple? then IdText(c.elems) else "" }

  predicate RenderedLe(c: Canon, d: Canon) { StringLe(RecordText(c), RecordText(d)) }

  lemma {:induction false} IdFound(es: seq<Canon>, s: string)
    requires Entry("id", CAtom(StrAtom(s))) in es
    requires forall e | e in es && Text(e) == "id" :: e == Entry("id", CAtom(StrAtom(s)))
    ensures IdText(es) == s
  {
    if Text(es[0]) != "id" { IdFound(es[1..], s); }
  }

  /** A dict whose keys have different texts and whose id is a string. */
  ghost predicate Record(r: Py) {
    r.Dict? && |r.keys| == |r.vals| && DistinctTexts(r.keys) && Get(r, "id").Fine? && IsStr(Get(r, "id").value)
  }

  function RecordId(r: Py): string
    requires Record(r)
  {
    Get(r, "id").value.a.s
  }

  /** Where the value that `Lookup` finds is. */
  lemma {:induction false} LookupIndex(ks: seq<Key>, vs: seq<Py>, k: string, default: Py) returns (i: nat)
    requires |ks| == |vs| && Has(ks, vs, k)
    ensures i < |ks| && ks[i] == StrKey(k) && vs[i] == Lookup(ks, vs, k, default)
  {
    if ks[0] == StrKey(k) { i := 0; } else {
      var j := LookupIndex(ks[1..], vs[1..], k, default);
      i := j + 1;
    }
  }

  lemma {:induction false} EntryUnique(ks: seq<Key>, cs: seq<Canon>, i: nat, e: Canon)
    requires |ks| == |cs| && i < |ks| && DistinctTexts(ks) && e in Entries(ks, cs) && Text(e) == ks[i].text
    ensures e == Entry(ks[i].text, cs[i])
  {
    EntriesAt(ks, cs);
    var j :| 0 <= j < |ks| && Entries(ks, cs)[j] == e;
    assert Text(e) == ks[j].text;
  }

  lemma {:induction false} SortedMember<T>(xs: seq<T>, le: Order<T>, x: T)
    ensures x in Sort(xs, le) <==> x in xs
  {
    assert x in multiset(Sort(xs, le)) <==> x in multiset(xs);
  }

  lemma {:induction false} RecordTextIs(r: Py, h: Host)
    requires Record(r)
    ensures RecordText(Canonical(r, h)) == RecordId(r)
  {
    LookupMissing(r.keys, r.vals, "id", NONE_VALUE);
    var i := LookupIndex(r.keys, r.vals, "id", NONE_VALUE);
    var cs := CanonicalAll(r.vals, h);
    EntryAt(r.keys, cs, i);
    CanonicalAt(r.vals, h, i);
    TextFound(r.keys, cs, i, RecordId(r));
  }

  lemma {:induction false} TextFound(ks: seq<Key>, cs: seq<Canon>, i: nat, s: string)
    requires |ks| == |cs| && i < |ks| && DistinctTexts(ks) && ks[i].text == "id" && cs[i] == CAtom(StrAtom(s))
    ensures IdText(Sort(Entries(ks, cs), EntryLe)) == s
  {
    var es := Entries(ks, cs);
    EntryAt(ks, cs, i);
    SortedMember(es, EntryLe, es[i]);
    forall e | e in Sort(es, EntryLe) && Text(e) == "id" ensures e == Entry("id", CAtom(StrAtom(s))) {
      SortedMember(es, EntryLe, e);
      EntryUnique(ks, cs, i, e);
    }
    IdFound(Sort(es, EntryLe), s);
  }

  lemma {:induction false} IdOfRecord(r: Py)
    requires Record(r)
    ensures IdOf(r) == Str(RecordId(r))
  {
  }

  lemma {:induction false} TextOrder(a: string, b: string)
    ensures KeyLe(Str(a), Str(b)) == StringLe(a, b)
  {
  }

  lemma {:induction false} RecordOrder(r: Py, t: Py, h: Host)
    requires Record(r) && Record(t)
    ensures RecordLe(r, t) == RenderedLe(Canonical(r, h), Canonical(t, h))
  {
    RecordTextIs(r, h);
    RecordTextIs(t, h);
    IdOfRecord(r);
    IdOfRecord(t);
    TextOrder(RecordId(r), RecordId(t));
  }

  ghost predicate Records(rs: seq<Py>) { forall r | r in rs :: Record(r) }

  ghost predicate DistinctIds(rs: seq<Py>)
    requires Records(rs)
  {
    forall i, j | 0 <= i < j < |rs| :: RecordId(rs[i]) != RecordId(rs[j])
  }

  lemma {:induction false} RecordsSortable(rs: seq<Py>)
    requires Records(rs)
    ensures SortRecords(rs) == Fine(Sort(rs, RecordLe))
  {
    forall r | r in rs ensures IsMap(r) && IsStr(IdOf(r)) { IdOfRecord(r); }
  }

  /** The id is text, or missing in Python's sense, which counts as the empty text. */
  ghost predicate TextId(r: Py) { IsMap(r) && (IsStr(Get(r, "id").value) || !Truth(Get(r, "id").value)) }

  ghost predicate NumberId(r: Py) { IsMap(r) && IsNumber(Get(r, "id").value) && Truth(Get(r, "id").value) }

  /** Records can be sorted exactly if they are mappings and, unless there is at most one, all their ids are text or all numbers. */
  lemma {:induction false} RecordsSortExactly(rs: seq<Py>)
    ensures SortRecords(rs).Fine? <==>
      && (forall r | r in rs :: IsMap(r))
      && (|rs| <= 1 || (forall r | r in rs :: TextId(r)) || forall r | r in rs :: NumberId(r))
  {
    assert forall r | IsMap(r) :: IsStr(IdOf(r)) <==> TextId(r);
    assert forall r | IsMap(r) :: IsNumber(IdOf(r)) <==> NumberId(r);
  }

  lemma {:induction false} SortedRecords(rs: seq<Py>, h: Host)
    requires Records(rs)
    ensures CanonicalAll(Sort(rs, RecordLe), h) == Sort(CanonicalAll(rs, h), RenderedLe)
  {
    forall r, t | r in rs && t in rs ensures RecordLe(r, t) == RenderedLe(Canonical(r, h), Canonical(t, h)) {
      RecordOrder(r, t, h);
    }
    SortMap(rs, v => Canonical(v, h), RecordLe, RenderedLe);
    CanonicalMap(rs, h);
    CanonicalMap(Sort(rs, RecordLe), h);
  }

  lemma {:induction false} RenderedLeOrder()
    ensures Preorder(RenderedLe)
  {
    StringLeOrder();
    forall x, y, z | RenderedLe(x, y) && RenderedLe(y, z) ensures RenderedLe(x, z) {
      StringLeTransitive(RecordText(x), RecordText(y), RecordText(z));
    }
  }

  /** Records whose renderings are level are one and the same. */
  lemma {:induction false} LevelRecords(rs: seq<Py>, h: Host, i: nat, j: nat)
    requires Records(rs) && DistinctIds(rs) && i < |rs| && j < |rs|
    requires RenderedLe(Canonical(rs[i], h), Canonical(rs[j], h)) && RenderedLe(Canonical(rs[j], h), Canonical(rs[i], h))
    ensures i == j
  {
    assert Record(rs[i]) && Record(rs[j]);
    RecordTextIs(rs[i], h);
    RecordTextIs(rs[j], h);
    StringLeStrict(RecordId(rs[i]), RecordId(rs[j]));
  }

  lemma {:induction false} RecordsStrict(rs: seq<Py>, h: Host)
    requires Records(rs) && DistinctIds(rs)
    ensures Strict(CanonicalAll(rs, h), RenderedLe)
  {
    var cs := CanonicalAll(rs, h);
    forall a, b | a in cs && b in cs && RenderedLe(a, b) && RenderedLe(b, a) ensures a == b {
      var i :| 0 <= i < |cs| && cs[i] == a;
      var j :| 0 <= j < |cs| && cs[j] == b;
      CanonicalAt(rs, h, i);
      CanonicalAt(rs, h, j);
      LevelRecords(rs, h, i, j);
    }
  }

  /** Sorted records compare equal exactly when the same records are there. */
  lemma {:induction false} RecordsAgree(rs: seq<Py>, ts: seq<Py>, h: Host)
    requires Records(rs) && Records(ts) && DistinctIds(rs)
    ensures CanonicalAll(Sort(rs, RecordLe), h) == CanonicalAll(Sort(ts, RecordLe), h) <==>
            multiset(CanonicalAll(rs, h)) == multiset(CanonicalAll(ts, h))
  {
    var cs, ds := CanonicalAll(rs, h), CanonicalAll(ts, h);
    SortedRecords(rs, h);
    SortedRecords(ts, h);
    if multiset(cs) == multiset(ds) {
      RenderedLeOrder();
      RecordsStrict(rs, h);
      SortPermutation(cs, ds, RenderedLe);
    } else {
      assert multiset(Sort(cs, RenderedLe)) != multiset(Sort(ds, RenderedLe));
    }
  }

  // ---------------------------------------------------------------- site ids

  predicate Texts(vs: seq<Py>) { forall v | v in vs :: IsStr(v) }

  predicate AtomLe(c: Canon, d: Canon) {
    StringLe(if c.CAtom? && c.a.StrAtom? then c.a.s else "", if d.CAtom? && d.a.StrAtom? then d.a.s else "")
  }

  lemma {:induction false} RenderedText(v: Py, h: Host)
    requires IsStr(v)
    ensures Canonical(v, h) == CAtom(StrAtom(v.a.s))
  {
  }

  lemma {:induction false} AtomLeOrder()
    ensures Preorder(AtomLe)
  {
    StringLeOrder();
  }

  lemma {:induction false} TextsStrict(vs: seq<Py>, h: Host)
    requires Texts(vs)
    ensures Strict(CanonicalAll(vs, h), AtomLe)
  {
    var cs := CanonicalAll(vs, h);
    CanonicalMap(vs, h);
    StringLeOrder();
    forall a, b | a in cs && b in cs && AtomLe(a, b) && AtomLe(b, a) ensures a == b {
      var i :| 0 <= i < |cs| && cs[i] == a;
      var j :| 0 <= j < |cs| && cs[j] == b;
      RenderedText(vs[i], h);
      RenderedText(vs[j], h);
    }
  }

  lemma {:induction false} SortedIds(vs: seq<Py>, h: Host)
    requires Texts(vs)
    ensures SortIds(vs) == Fine(Sort(vs, KeyLe))
    ensures CanonicalAll(Sort(vs, KeyLe), h) == Sort(CanonicalAll(vs, h), AtomLe)
  {
    SortMap(vs, v => Canonical(v, h), KeyLe, AtomLe);
    CanonicalMap(vs, h);
    CanonicalMap(Sort(vs, KeyLe), h);
  }

  lemma {:induction false} IdsAgree(vs: seq<Py>, ws: seq<Py>, h: Host)
    requires Texts(vs) && Texts(ws)
    ensures CanonicalAll(Sort(vs, KeyLe), h) == CanonicalAll(Sort(ws, KeyLe), h) <==>
            multiset(CanonicalAll(vs, h)) == multiset(CanonicalAll(ws, h))
  {
    var cs, ds := CanonicalAll(vs, h), CanonicalAll(ws, h);
    SortedIds(vs, h);
    SortedIds(ws, h);
    if multiset(cs) == multiset(ds) {
      AtomLeOrder();
      TextsStrict(vs, h);
      SortPermutation(cs, ds, AtomLe);
    } else {
      assert multiset(Sort(cs, AtomLe)) != multiset(Sort(ds, AtomLe));
    }
  }

  // ---------------------------------------------------------------- whole states

  lemma {:induction false} LookupReplace(ks: seq<Key>, vs: seq<Py>, k: string, v: Py, l: string, default: Py)
    ensures Has(ks, Replace(ks, vs, k, v), l) == Has(ks, vs, l)
    ensures Lookup(ks, Replace(ks, vs, k, v), l, default) == if l == k && Has(ks, vs, k) then v else Lookup(ks, vs, l, default)
  {
    if ks != [] && vs != [] { LookupReplace(ks[1..], vs[1..], k, v, l, default); }
  }

  lemma {:induction false} RestReplace(ks: seq<Key>, vs: seq<Py>, k: string, v: Py, apart: set<string>, h: Host)
    requires |ks| == |vs| && k in apart
    ensures Rest(ks, CanonicalAll(Replace(ks, vs, k, v), h), apart) == Rest(ks, CanonicalAll(vs, h), apart)
  {
    if ks != [] && ks[0] != StrKey(k) { RestReplace(ks[1..], vs[1..], k, v, apart, h); }
  }

  function At(s: Py, k: string): Py
    requires s.Dict?
  {
    Lookup(s.keys, s.vals, k, NONE_VALUE)
  }

  /** The rendering of a dict apart from some of its keys. */
  ghost function Apart(s: Py, apart: set<string>, h: Host): multiset<Named>
    requires s.Dict?
  {
    multiset(Rest(s.keys, CanonicalAll(s.vals, h), apart))
  }

  predicate Holds(s: Py, k: string) { s.Dict? && Has(s.keys, s.vals, k) }

  ghost predicate WellKeyed(s: Py) { s.Dict? && |s.keys| == |s.vals| && DistinctTexts(s.keys) }

  /** A plain copy of a state: lists of records and of ids, with strings for ids. */
  ghost predicate Ordinary(s: Py) {
    && WellKeyed(s)
    && At(s, "per_site").List? && Records(At(s, "per_site").elems)
    && WellKeyed(At(s, "universe"))
    && At(At(s, "universe"), "site_ids").List? && Texts(At(At(s, "universe"), "site_ids").elems)
  }

  /** Where a key with a value sits. */
  lemma {:induction false} KeyIndex(s: Py, k: string) returns (i: nat)
    requires WellKeyed(s) && Holds(s, k)
    ensures i < |s.keys| && s.keys[i] == StrKey(k) && s.vals[i] == At(s, k)
  {
    i := LookupIndex(s.keys, s.vals, k, NONE_VALUE);
  }

  ghost predicate SameAt(s: Py, t: Py, k: string, h: Host)
    requires s.Dict? && t.Dict?
  {
    Canonical(At(s, k), h) == Canonical(At(t, k), h)
  }

  ghost predicate SameApart(s: Py, t: Py, apart: set<string>, h: Host)
    requires s.Dict? && t.Dict?
  {
    Apart(s, apart, h) == Apart(t, apart, h)
  }

  lemma {:induction false} PeelKey(s: Py, t: Py, k: string, apart: set<string>, more: set<string>, h: Host)
    requires WellKeyed(s) && WellKeyed(t) && Holds(s, k) && Holds(t, k) && k !in apart && more == apart + {k}
    ensures SameApart(s, t, apart, h) <==> SameAt(s, t, k, h) && SameApart(s, t, more, h)
  {
    var i := KeyIndex(s, k);
    var j := KeyIndex(t, k);
    Peel(s.keys, CanonicalAll(s.vals, h), i, t.keys, CanonicalAll(t.vals, h), j, apart);
    CanonicalAt(s.vals, h, i);
    CanonicalAt(t.vals, h, j);
  }

  lemma {:induction false} SameWhole(s: Py, t: Py, h: Host)
    requires WellKeyed(s) && WellKeyed(t)
    ensures Canonical(s, h) == Canonical(t, h) <==> SameApart(s, t, {}, h)
  {
    DictsSame(s.keys, s.vals, t.keys, t.vals, h);
  }

  function Put(s: Py, k: string, v: Py): Py
    requires s.Dict?
  {
    Dict(s.keys, Replace(s.keys, s.vals, k, v))
  }

  lemma {:induction false} PutAt(s: Py, k: string, v: Py, l: string)
    requires WellKeyed(s) && Holds(s, k)
    ensures WellKeyed(Put(s, k, v)) && At(Put(s, k, v), l) == if l == k then v else At(s, l)
  {
    LookupReplace(s.keys, s.vals, k, v, l, NONE_VALUE);
  }

  lemma {:induction false} PutApart(s: Py, k: string, v: Py, apart: set<string>, h: Host)
    requires WellKeyed(s) && k in apart
    ensures Apart(Put(s, k, v), apart, h) == Apart(s, apart, h)
  {
    RestReplace(s.keys, s.vals, k, v, apart, h);
  }

  /** A key with a value other than None is there. */
  lemma {:induction false} Present(s: Py, k: string)
    requires s.Dict? && At(s, k) != NONE_VALUE
    ensures Holds(s, k)
  {
    LookupMissing(s.keys, s.vals, k, NONE_VALUE);
  }

  lemma {:induction false} LookupMissing(ks: seq<Key>, vs: seq<Py>, k: string, default: Py)
    ensures !Has(ks, vs, k) ==> Lookup(ks, vs, k, default) == default
  {
    if ks != [] && vs != [] { LookupMissing(ks[1..], vs[1..], k, default); }
  }

  function SortedUniverse(uni: Py): Py
    requires uni.Dict? && At(uni, "site_ids").List?
  {
    Put(uni, "site_ids", List(Sort(At(uni, "site_ids").elems, KeyLe)))
  }

  function SortedState(s: Py): Py
    requires s.Dict? && At(s, "per_site").List? && At(s, "universe").Dict? && At(At(s, "universe"), "site_ids").List?
  {
    Put(Put(s, "per_site", List(Sort(At(s, "per_site").elems, RecordLe))), "universe", SortedUniverse(At(s, "universe")))
  }

  lemma {:induction false} NormalForm(s: Py, h: Host)
    requires Ordinary(s) && Thaw(s, h) == s
    ensures Normalize(s, h) == Fine(SortedState(s))
  {
    RecordsSortable(At(s, "per_site").elems);
    Present(s, "per_site");
    PutAt(s, "per_site", List(Sort(At(s, "per_site").elems, RecordLe)), "universe");
    SortedIds(At(At(s, "universe"), "site_ids").elems, h);
  }

  /** A dict with the values of `s` at two keys replaced has the rest of `s`. */
  lemma {:induction false} SortedStateParts(s: Py, h: Host)
    requires Ordinary(s)
    ensures var x := SortedState(s);
      && WellKeyed(x) && At(x, "per_site") == List(Sort(At(s, "per_site").elems, RecordLe))
      && At(x, "universe") == SortedUniverse(At(s, "universe"))
      && Apart(x, {"per_site", "universe"}, h) == Apart(s, {"per_site", "universe"}, h)
  {
    var sorted, uni := List(Sort(At(s, "per_site").elems, RecordLe)), SortedUniverse(At(s, "universe"));
    var y := Put(s, "per_site", sorted);
    Present(s, "per_site");
    Present(s, "universe");
    PutAt(s, "per_site", sorted, "per_site");
    PutAt(s, "per_site", sorted, "universe");
    Present(y, "universe");
    PutAt(y, "universe", uni, "per_site");
    PutAt(y, "universe", uni, "universe");
    PutApart(s, "per_site", sorted, {"per_site", "universe"}, h);
    PutApart(y, "universe", uni, {"per_site", "universe"}, h);
  }

  lemma {:induction false} SortedUniverseParts(u: Py, h: Host)
    requires WellKeyed(u) && At(u, "site_ids").List?
    ensures var x := SortedUniverse(u);
      && WellKeyed(x) && At(x, "site_ids") == List(Sort(At(u, "site_ids").elems, KeyLe))
      && Apart(x, {"site_ids"}, h) == Apart(u, {"site_ids"}, h)
  {
    var sorted := List(Sort(At(u, "site_ids").elems, KeyLe));
    Present(u, "site_ids");
    PutAt(u, "site_ids", sorted, "site_ids");
    PutApart(u, "site_ids", sorted, {"site_ids"}, h);
  }

  lemma {:induction false} ListsAgree(xs: seq<Py>, ys: seq<Py>, h: Host)
    ensures Canonical(List(xs), h) == Canonical(List(ys), h) <==> CanonicalAll(xs, h) == CanonicalAll(ys, h)
  {
  }

  lemma {:induction false} OneKey(x: Py, y: Py, k: string, h: Host)
    requires WellKeyed(x) && WellKeyed(y) && Holds(x, k) && Holds(y, k)
    ensures Canonical(x, h) == Canonical(y, h) <==> SameAt(x, y, k, h) && SameApart(x, y, {k}, h)
  {
    SameWhole(x, y, h);
    PeelKey(x, y, k, {}, {k}, h);
  }

  lemma {:induction false} TwoKeys(x: Py, y: Py, k: string, l: string, h: Host)
    requires WellKeyed(x) && WellKeyed(y) && k != l && Holds(x, k) && Holds(y, k) && Holds(x, l) && Holds(y, l)
    ensures Canonical(x, h) == Canonical(y, h) <==> SameAt(x, y, k, h) && SameAt(x, y, l, h) && SameApart(x, y, {k, l}, h)
  {
    OneKey(x, y, k, h);
    PeelKey(x, y, l, {k}, {k, l}, h);
  }

  /** The universes are the same but for the order of the site ids. */
  ghost predicate SameUniverse(u: Py, w: Py, h: Host)
    requires u.Dict? && w.Dict? && At(u, "site_ids").List? && At(w, "site_ids").List?
  {
    && SameApart(u, w, {"site_ids"}, h)
    && multiset(CanonicalAll(At(u, "site_ids").elems, h)) == multiset(CanonicalAll(At(w, "site_ids").elems, h))
  }

  /** The states are the same but for the order of the records and of the site ids. */
  ghost predicate SameUpToOrder(s: Py, t: Py, h: Host)
    requires Ordinary(s) && Ordinary(t)
  {
    && SameApart(s, t, {"per_site", "universe"}, h)
    && multiset(CanonicalAll(At(s, "per_site").elems, h)) == multiset(CanonicalAll(At(t, "per_site").elems, h))
    && SameUniverse(At(s, "universe"), At(t, "universe"), h)
  }

  lemma {:induction false} UniversesAgree(u: Py, w: Py, h: Host)
    requires WellKeyed(u) && At(u, "site_ids").List? && Texts(At(u, "site_ids").elems)
    requires WellKeyed(w) && At(w, "site_ids").List? && Texts(At(w, "site_ids").elems)
    ensures Canonical(SortedUniverse(u), h) == Canonical(SortedUniverse(w), h) <==> SameUniverse(u, w, h)
  {
    var x, y := SortedUniverse(u), SortedUniverse(w);
    SortedUniverseParts(u, h);
    SortedUniverseParts(w, h);
    Present(x, "site_ids");
    Present(y, "site_ids");
    OneKey(x, y, "site_ids", h);
    ListsAgree(At(x, "site_ids").elems, At(y, "site_ids").elems, h);
    IdsAgree(At(u, "site_ids").elems, At(w, "site_ids").elems, h);
  }

  lemma {:induction false} StatePresent(s: Py)
    requires s.Dict? && At(s, "per_site").List? && At(s, "universe").Dict?
    ensures Holds(s, "per_site") && Holds(s, "universe")
  {
    Present(s, "per_site");
    Present(s, "universe");
  }

  /** Two normal forms compare equal exactly when the states are the same up to order. */
  lemma {:induction false} StatesAgree(s: Py, t: Py, h: Host)
    requires Ordinary(s) && Ordinary(t) && DistinctIds(At(s, "per_site").elems)
    ensures Canonical(SortedState(s), h) == Canonical(SortedState(t), h) <==> SameUpToOrder(s, t, h)
  {
    var x, y := SortedState(s), SortedState(t);
    SortedStateParts(s, h);
    SortedStateParts(t, h);
    StatePresent(x);
    StatePresent(y);
    TwoKeys(x, y, "per_site", "universe", h);
    ListsAgree(At(x, "per_site").elems, At(y, "per_site").elems, h);
    RecordsAgree(At(s, "per_site").elems, At(t, "per_site").elems, h);
    UniversesAgree(At(s, "universe"), At(t, "universe"), h);
  }
}
