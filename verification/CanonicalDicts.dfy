/** When two dicts have the same canonical form: the form keeps every entry and only forgets their order. */
module CanonicalDicts {
  import opened Frozen
  import opened Sorting

  lemma {:induction false} CanonicalMap(vs: seq<Py>, h: Host)
    ensures CanonicalAll(vs, h) == Map(vs, v => Canonical(v, h))
  {
    if vs != [] { CanonicalMap(vs[1..], h); }
  }

  lemma {:induction false} CanonicalAt(vs: seq<Py>, h: Host, i: nat)
    requires i < |vs|
    ensures CanonicalAll(vs, h)[i] == Canonical(vs[i], h)
  {
    CanonicalMap(vs, h);
  }

  lemma {:induction false} EntriesAt(ks: seq<Key>, cs: seq<Canon>)
    requires |ks| == |cs|
    ensures |Entries(ks, cs)| == |ks|
    ensures forall i | 0 <= i < |ks| :: Entries(ks, cs)[i] == Entry(ks[i].text, cs[i])
  {
    if ks != [] { EntriesAt(ks[1..], cs[1..]); }
  }

  lemma {:induction false} EntryAt(ks: seq<Key>, cs: seq<Canon>, i: nat)
    requires |ks| == |cs| && i < |ks|
    ensures |Entries(ks, cs)| == |ks| && Entries(ks, cs)[i] == Entry(ks[i].text, cs[i])
  {
    EntriesAt(ks, cs);
  }

  /** Keys whose texts are the same have values that are rendered the same. */
  ghost predicate NoClash(ks: seq<Key>, cs: seq<Canon>)
    requires |ks| == |cs|
  {
    forall i, j | 0 <= i < j < |ks| :: ks[i].text == ks[j].text ==> cs[i] == cs[j]
  }

  /** Only equal entries are level. */
  lemma {:induction false} EntriesStrict(ks: seq<Key>, cs: seq<Canon>)
    requires |ks| == |cs| && NoClash(ks, cs)
    ensures Strict(Entries(ks, cs), EntryLe)
  {
    EntriesAt(ks, cs);
    StringLeOrder();
    var es := Entries(ks, cs);
    forall a, b | a in es && b in es && EntryLe(a, b) && EntryLe(b, a) ensures a == b {
      var i :| 0 <= i < |es| && es[i] == a;
      var j :| 0 <= j < |es| && es[j] == b;
      assert ks[i].text == ks[j].text;
    }
  }

  /** Two dicts compare equal exactly when they have the same entries. */
  lemma {:induction false} DictsAgree(ks: seq<Key>, vs: seq<Py>, ls: seq<Key>, ws: seq<Py>, h: Host)
    requires |ks| == |vs| && |ls| == |ws| && NoClash(ks, CanonicalAll(vs, h))
    ensures Canonical(Dict(ks, vs), h) == Canonical(Dict(ls, ws), h) <==>
            multiset(Entries(ks, CanonicalAll(vs, h))) == multiset(Entries(ls, CanonicalAll(ws, h)))
  {
    var xs, ys := Entries(ks, CanonicalAll(vs, h)), Entries(ls, CanonicalAll(ws, h));
    if multiset(xs) == multiset(ys) {
      EntryLeOrder();
      EntriesStrict(ks, CanonicalAll(vs, h));
      SortPermutation(xs, ys, EntryLe);
    } else {
      assert multiset(Sort(xs, EntryLe)) != multiset(Sort(ys, EntryLe));
    }
  }

  // ---------------------------------------------------------------- iteration order

  /** The second dict has the items of the first in some order. */
  ghost predicate Rearranged(ks: seq<Key>, vs: seq<Py>, ls: seq<Key>, ws: seq<Py>)
    requires |ks| == |vs|
  {
    |ls| == |ws| && multiset(Pairs(ks, vs)) == multiset(Pairs(ls, ws))
  }

  /** Two derivations that differ only in the iteration order of a dict compare equal. */
  lemma {:induction false} DictOrderForgotten(ks: seq<Key>, vs: seq<Py>, ls: seq<Key>, ws: seq<Py>, h: Host)
    requires |ks| == |vs| && Rearranged(ks, vs, ls, ws) && NoClash(ks, CanonicalAll(vs, h))
    ensures Canonical(Dict(ks, vs), h) == Canonical(Dict(ls, ws), h)
  {
    EntriesMap(ks, vs, h);
    EntriesMap(ls, ws, h);
    MapBag(Pairs(ks, vs), Pairs(ls, ws), (p: (Key, Py)) => Entry(p.0.text, Canonical(p.1, h)));
    DictsAgree(ks, vs, ls, ws, h);
  }

  /** The entries with this text, in order. */
  function Under(es: seq<Canon>, text: string): seq<Canon> { Filter(es, e => Text(e) == text) }

  lemma {:induction false} SortUnder(es: seq<Canon>, text: string)
    ensures Under(Sort(es, EntryLe), text) == Under(es, text)
  {
    StringLeTotal(text, text);
    SortStable(es, EntryLe, e => Text(e) == text);
  }

  lemma {:induction false} EntryInjective(s: string, c: Canon, t: string, d: Canon)
    requires Entry(s, c) == Entry(t, d)
    ensures s == t && c == d
  {
    assert Entry(s, c).elems[0] == Entry(t, d).elems[0] && Entry(s, c).elems[1] == Entry(t, d).elems[1];
  }

  function HeadUnder(k: Key, c: Canon, text: string): seq<Canon> { if k.text == text then [Entry(k.text, c)] else [] }

  lemma {:induction false} UnderCons(ks: seq<Key>, cs: seq<Canon>, text: string)
    requires |ks| == |cs| && ks != []
    ensures Under(Entries(ks, cs), text) == HeadUnder(ks[0], cs[0], text) + Under(Entries(ks[1..], cs[1..]), text)
  {
    FilterCons(Entry(ks[0].text, cs[0]), Entries(ks[1..], cs[1..]), e => Text(e) == text);
  }

  ghost predicate SameUnder(ks: seq<Key>, cs: seq<Canon>, ds: seq<Canon>) {
    forall t :: Under(Entries(ks, cs), t) == Under(Entries(ks, ds), t)
  }

  lemma {:induction false} SameUnderHead(ks: seq<Key>, cs: seq<Canon>, ds: seq<Canon>)
    requires |ks| == |cs| == |ds| && ks != [] && SameUnder(ks, cs, ds)
    ensures cs[0] == ds[0] && SameUnder(ks[1..], cs[1..], ds[1..])
  {
    var t0 := ks[0].text;
    UnderCons(ks, cs, t0);
    UnderCons(ks, ds, t0);
    assert Under(Entries(ks, cs), t0)[0] == Under(Entries(ks, ds), t0)[0];
    EntryInjective(t0, cs[0], t0, ds[0]);
    forall t ensures Under(Entries(ks[1..], cs[1..]), t) == Under(Entries(ks[1..], ds[1..]), t) {
      UnderCons(ks, cs, t);
      UnderCons(ks, ds, t);
      var head := HeadUnder(ks[0], cs[0], t);
      assert Under(Entries(ks[1..], cs[1..]), t) == Under(Entries(ks, cs), t)[|head|..];
      assert Under(Entries(ks[1..], ds[1..]), t) == Under(Entries(ks, ds), t)[|head|..];
    }
  }

  lemma {:induction false} SameUnderSame(ks: seq<Key>, cs: seq<Canon>, ds: seq<Canon>)
    requires |ks| == |cs| == |ds| && SameUnder(ks, cs, ds)
    ensures cs == ds
  {
    if ks != [] {
      SameUnderHead(ks, cs, ds);
      SameUnderSame(ks[1..], cs[1..], ds[1..]);
      assert cs == [cs[0]] + cs[1..] && ds == [ds[0]] + ds[1..];
    }
  }

  lemma {:induction false} SameFormSameUnder(ks: seq<Key>, vs: seq<Py>, ls: seq<Key>, ws: seq<Py>, text: string, h: Host)
    requires Canonical(Dict(ks, vs), h) == Canonical(Dict(ls, ws), h)
    ensures Under(Entries(ks, CanonicalAll(vs, h)), text) == Under(Entries(ls, CanonicalAll(ws, h)), text)
  {
    SortUnder(Entries(ks, CanonicalAll(vs, h)), text);
    SortUnder(Entries(ls, CanonicalAll(ws, h)), text);
  }

  /** Dicts with the same keys in the same order compare equal only if each of their values does. */
  lemma {:induction false} SameDictSameValues(ks: seq<Key>, vs: seq<Py>, ws: seq<Py>, h: Host)
    requires |ks| == |vs| == |ws| && Canonical(Dict(ks, vs), h) == Canonical(Dict(ks, ws), h)
    ensures CanonicalAll(vs, h) == CanonicalAll(ws, h)
  {
    forall t ensures Under(Entries(ks, CanonicalAll(vs, h)), t) == Under(Entries(ks, CanonicalAll(ws, h)), t) {
      SameFormSameUnder(ks, vs, ks, ws, t, h);
    }
    SameUnderSame(ks, CanonicalAll(vs, h), CanonicalAll(ws, h));
  }

  /** Where the element at `j` came from when element `i` moved to the front. */
  function Came(i: nat, j: nat): nat { if j == 0 then i else if j <= i then j - 1 else j }

  /** The sequence with element `i` moved to the front. */
  function Fronted<T>(xs: seq<T>, i: nat): (r: seq<T>)
    requires i < |xs|
    ensures |r| == |xs| && multiset(r) == multiset(xs)
    ensures forall j | 0 <= j < |r| :: r[j] == xs[Came(i, j)]
  {
    assert xs == xs[..i] + [xs[i]] + xs[i + 1..];
    [xs[i]] + xs[..i] + xs[i + 1..]
  }

  lemma {:induction false} FrontedPairs(ks: seq<Key>, vs: seq<Py>, i: nat)
    requires |ks| == |vs| && i < |ks|
    ensures Rearranged(ks, vs, Fronted(ks, i), Fronted(vs, i))
  {
    var ps, qs := Pairs(Fronted(ks, i), Fronted(vs, i)), Fronted(Pairs(ks, vs), i);
    forall j | 0 <= j < |ks| ensures ps[j] == qs[j] { assert ps[j] == (ks[Came(i, j)], vs[Came(i, j)]); }
    assert ps == qs;
  }

  /** The first entry with the text of the first key is that key's. */
  lemma {:induction false} FirstUnder(ks: seq<Key>, cs: seq<Canon>)
    requires |ks| == |cs| && ks != []
    ensures Under(Entries(ks, cs), ks[0].text) != [] && Under(Entries(ks, cs), ks[0].text)[0] == Entry(ks[0].text, cs[0])
  {
    UnderCons(ks, cs, ks[0].text);
  }

  /** Dicts whose first keys have the same text and values that look different have different forms. */
  lemma {:induction false} FirstDiffer(ks: seq<Key>, vs: seq<Py>, ls: seq<Key>, ws: seq<Py>, h: Host)
    requires |ks| == |vs| && |ls| == |ws| && ks != [] && ls != [] && ks[0].text == ls[0].text
    requires Canonical(vs[0], h) != Canonical(ws[0], h)
    ensures Canonical(Dict(ks, vs), h) != Canonical(Dict(ls, ws), h)
  {
    FirstUnder(ks, CanonicalAll(vs, h));
    FirstUnder(ls, CanonicalAll(ws, h));
    EntriesDiffer(ks[0].text, Canonical(vs[0], h), Canonical(ws[0], h));
    if Canonical(Dict(ks, vs), h) == Canonical(Dict(ls, ws), h) { SameFormSameUnder(ks, vs, ls, ws, ks[0].text, h); }
  }

  lemma {:induction false} EntriesDiffer(s: string, c: Canon, d: Canon)
    requires c != d
    ensures Entry(s, c) != Entry(s, d)
  {
    if Entry(s, c) == Entry(s, d) { EntryInjective(s, c, s, d); }
  }

  /** The form forgets the iteration order of a dict exactly when keys with the same text have values that look the same. */
  lemma {:induction false} OrderForgottenExactly(ks: seq<Key>, vs: seq<Py>, h: Host)
    requires |ks| == |vs|
    ensures NoClash(ks, CanonicalAll(vs, h)) <==>
            forall ls, ws | Rearranged(ks, vs, ls, ws) :: Canonical(Dict(ls, ws), h) == Canonical(Dict(ks, vs), h)
  {
    if NoClash(ks, CanonicalAll(vs, h)) {
      forall ls, ws | Rearranged(ks, vs, ls, ws) ensures Canonical(Dict(ls, ws), h) == Canonical(Dict(ks, vs), h) {
        DictOrderForgotten(ks, vs, ls, ws, h);
      }
    } else {
      var i, j :| 0 <= i < j < |ks| && ks[i].text == ks[j].text && CanonicalAll(vs, h)[i] != CanonicalAll(vs, h)[j];
      CanonicalAt(vs, h, i);
      CanonicalAt(vs, h, j);
      FrontedPairs(ks, vs, i);
      FrontedPairs(ks, vs, j);
      FirstDiffer(Fronted(ks, i), Fronted(vs, i), Fronted(ks, j), Fronted(vs, j), h);
    }
  }

  lemma {:induction false} SwappedBag<T>(x: T, y: T)
    ensures multiset([x, y]) == multiset([y, x])
  {
  }

  lemma {:induction false} TwoOrders(k: Key, l: Key, v: Py, w: Py, h: Host)
    requires k.text == l.text && Canonical(v, h) != Canonical(w, h)
    ensures Rearranged([k, l], [v, w], [l, k], [w, v])
    ensures Canonical(Dict([k, l], [v, w]), h) != Canonical(Dict([l, k], [w, v]), h)
  {
    SwappedBag((k, v), (l, w));
    assert Pairs([k, l], [v, w]) == [(k, v), (l, w)] && Pairs([l, k], [w, v]) == [(l, w), (k, v)];
    FirstDiffer([k, l], [v, w], [l, k], [w, v], h);
  }

  /** `{1: "a", "1": "b"}` and `{"1": "b", 1: "a"}` are equal dicts with different forms. */
  lemma {:induction false} OrderShows(h: Host)
    ensures var one, text, a, b := OtherKey(0, "1"), StrKey("1"), Atom(StrAtom("a")), Atom(StrAtom("b"));
      && Rearranged([one, text], [a, b], [text, one], [b, a])
      && Canonical(Dict([one, text], [a, b]), h) != Canonical(Dict([text, one], [b, a]), h)
  {
    TwoOrders(OtherKey(0, "1"), StrKey("1"), Atom(StrAtom("a")), Atom(StrAtom("b")), h);
  }

  // ---------------------------------------------------------------- one entry apart from the others

  type Named = (string, Canon)

  /** The texts and rendered values of a dict, leaving out the keys among `apart`. */
  function Rest(ks: seq<Key>, cs: seq<Canon>, apart: set<string>): seq<Named> {
    if ks == [] || cs == [] then [] else Kept(ks[0].text, cs[0], apart) + Rest(ks[1..], cs[1..], apart)
  }

  function Kept(text: string, c: Canon, apart: set<string>): seq<Named> { if text in apart then [] else [(text, c)] }

  lemma {:induction false} BagOfSum<T>(xs: seq<T>, ys: seq<T>)
    ensures multiset(xs + ys) == multiset(xs) + multiset(ys)
  {
  }

  predicate HasText(ks: seq<Key>, k: string) { ks != [] && (ks[0].text == k || HasText(ks[1..], k)) }

  /** A left-out key is not there, and neither is a text no key has. */
  lemma {:induction false} RestAvoids(ks: seq<Key>, cs: seq<Canon>, apart: set<string>, k: string)
    requires k in apart || !HasText(ks, k)
    ensures forall e | e in multiset(Rest(ks, cs, apart)) :: e.0 != k
  {
    if ks != [] && cs != [] {
      RestAvoids(ks[1..], cs[1..], apart, k);
      BagOfSum(Kept(ks[0].text, cs[0], apart), Rest(ks[1..], cs[1..], apart));
    }
  }

  lemma {:induction false} RestAbsent(ks: seq<Key>, cs: seq<Canon>, apart: set<string>, k: string)
    requires !HasText(ks, k)
    ensures Rest(ks, cs, apart + {k}) == Rest(ks, cs, apart)
  {
    if ks != [] && cs != [] { RestAbsent(ks[1..], cs[1..], apart, k); }
  }

  lemma {:induction false} NoText(ks: seq<Key>, k: string)
    requires forall i | 0 <= i < |ks| :: ks[i].text != k
    ensures !HasText(ks, k)
  {
    if ks != [] { NoText(ks[1..], k); }
  }

  function Head(text: string, c: Canon, apart: set<string>): multiset<Named> { multiset(Kept(text, c, apart)) }

  lemma {:induction false} RestHead(ks: seq<Key>, cs: seq<Canon>, apart: set<string>)
    requires |ks| == |cs| && ks != []
    ensures multiset(Rest(ks, cs, apart)) == Head(ks[0].text, cs[0], apart) + multiset(Rest(ks[1..], cs[1..], apart))
  {
    BagOfSum(Kept(ks[0].text, cs[0], apart), Rest(ks[1..], cs[1..], apart));
  }

  lemma {:induction false} ShiftBag<T>(all: multiset<T>, all': multiset<T>, head: multiset<T>, tail: multiset<T>, tail': multiset<T>, x: multiset<T>)
    requires all == head + tail && all' == head + tail' && tail == tail' + x
    ensures all == all' + x
  {
  }

  lemma {:induction false} DistinctTail(ks: seq<Key>)
    requires DistinctTexts(ks) && ks != []
    ensures DistinctTexts(ks[1..]) && !HasText(ks[1..], ks[0].text)
  {
    NoText(ks[1..], ks[0].text);
  }

  lemma {:induction false} HeadOther(text: string, c: Canon, apart: set<string>, k: string)
    requires text != k
    ensures Head(text, c, apart + {k}) == Head(text, c, apart)
  {
  }

  lemma {:induction false} RestSplitFirst(ks: seq<Key>, cs: seq<Canon>, apart: set<string>, k: string)
    requires |ks| == |cs| && ks != [] && DistinctTexts(ks) && ks[0].text == k && k !in apart
    ensures multiset(Rest(ks, cs, apart)) == multiset(Rest(ks, cs, apart + {k})) + multiset{(k, cs[0])}
  {
    DistinctTail(ks);
    RestAbsent(ks[1..], cs[1..], apart, k);
    RestHead(ks, cs, apart);
    RestHead(ks, cs, apart + {k});
  }

  lemma {:induction false} RestSplit(ks: seq<Key>, cs: seq<Canon>, apart: set<string>, i: nat, k: string)
    requires |ks| == |cs| && i < |ks| && DistinctTexts(ks) && ks[i].text == k && k !in apart
    ensures multiset(Rest(ks, cs, apart)) == multiset(Rest(ks, cs, apart + {k})) + multiset{(k, cs[i])}
  {
    if i == 0 {
      RestSplitFirst(ks, cs, apart, k);
    } else {
      DistinctTail(ks);
      RestSplit(ks[1..], cs[1..], apart, i - 1, k);
      RestHead(ks, cs, apart);
      RestHead(ks, cs, apart + {k});
      HeadOther(ks[0].text, cs[0], apart, k);
      ShiftBag(multiset(Rest(ks, cs, apart)), multiset(Rest(ks, cs, apart + {k})), Head(ks[0].text, cs[0], apart),
               multiset(Rest(ks[1..], cs[1..], apart)), multiset(Rest(ks[1..], cs[1..], apart + {k})), multiset{(k, cs[i])});
    }
  }

  lemma {:induction false} PeelBags(xs: multiset<Named>, x: Named, ys: multiset<Named>, y: Named)
    requires x.0 == y.0 && (forall e | e in xs :: e.0 != x.0) && (forall e | e in ys :: e.0 != x.0)
    ensures xs + multiset{x} == ys + multiset{y} <==> x == y && xs == ys
  {
    if xs + multiset{x} == ys + multiset{y} {
      assert x in ys + multiset{y};
      assert xs == (xs + multiset{x}) - multiset{x};
      assert ys == (ys + multiset{y}) - multiset{y};
    }
  }

  /** Two dicts are the same apart from `apart` exactly when they agree on one more key and are the same apart from that too. */
  lemma {:induction false} Peel(ks: seq<Key>, cs: seq<Canon>, i: nat, ls: seq<Key>, ds: seq<Canon>, j: nat, apart: set<string>)
    requires |ks| == |cs| && i < |ks| && DistinctTexts(ks) && |ls| == |ds| && j < |ls| && DistinctTexts(ls)
    requires ks[i].text == ls[j].text && ks[i].text !in apart
    ensures multiset(Rest(ks, cs, apart)) == multiset(Rest(ls, ds, apart)) <==>
            cs[i] == ds[j] && multiset(Rest(ks, cs, apart + {ks[i].text})) == multiset(Rest(ls, ds, apart + {ks[i].text}))
  {
    var k := ks[i].text;
    RestSplit(ks, cs, apart, i, k);
    RestSplit(ls, ds, apart, j, k);
    RestAvoids(ks, cs, apart + {k}, k);
    RestAvoids(ls, ds, apart + {k}, k);
    PeelBags(multiset(Rest(ks, cs, apart + {k})), (k, cs[i]), multiset(Rest(ls, ds, apart + {k})), (k, ds[j]));
  }

  function Unnamed(e: Canon): Named { (Text(e), if e.CTuple? && |e.elems| == 2 then e.elems[1] else e) }

  lemma {:induction false} RestEntries(ks: seq<Key>, cs: seq<Canon>)
    requires |ks| == |cs|
    ensures Entries(ks, cs) == Map(Rest(ks, cs, {}), (n: Named) => Entry(n.0, n.1))
    ensures Rest(ks, cs, {}) == Map(Entries(ks, cs), Unnamed)
  {
    if ks != [] {
      RestEntries(ks[1..], cs[1..]);
      assert Unnamed(Entry(ks[0].text, cs[0])) == (ks[0].text, cs[0]);
    }
  }

  /** Two dicts compare equal exactly when they have the same named values. */
  lemma {:induction false} DictsSame(ks: seq<Key>, vs: seq<Py>, ls: seq<Key>, ws: seq<Py>, h: Host)
    requires |ks| == |vs| && |ls| == |ws| && NoClash(ks, CanonicalAll(vs, h))
    ensures Canonical(Dict(ks, vs), h) == Canonical(Dict(ls, ws), h) <==>
            multiset(Rest(ks, CanonicalAll(vs, h), {})) == multiset(Rest(ls, CanonicalAll(ws, h), {}))
  {
    var cs, ds := CanonicalAll(vs, h), CanonicalAll(ws, h);
    DictsAgree(ks, vs, ls, ws, h);
    RestEntries(ks, cs);
    RestEntries(ls, ds);
    if multiset(Rest(ks, cs, {})) == multiset(Rest(ls, ds, {})) {
      MapBag(Rest(ks, cs, {}), Rest(ls, ds, {}), (n: Named) => Entry(n.0, n.1));
    }
    if multiset(Entries(ks, cs)) == multiset(Entries(ls, ds)) {
      MapBag(Entries(ks, cs), Entries(ls, ds), Unnamed);
    }
  }

  // ---------------------------------------------------------------- lists, tuples and sets

  /** Lists and tuples have the same form exactly if they look the same place by place. */
  lemma {:induction false} SequencesSame(vs: seq<Py>, ws: seq<Py>, h: Host)
    ensures Canonical(List(vs), h) == Canonical(Tuple(vs), h)
    ensures Canonical(List(vs), h) == Canonical(List(ws), h) <==>
            |vs| == |ws| && forall i | 0 <= i < |vs| :: Canonical(vs[i], h) == Canonical(ws[i], h)
  {
    CanonicalMap(vs, h);
    CanonicalMap(ws, h);
    var xs, ys := CanonicalAll(vs, h), CanonicalAll(ws, h);
    assert xs == ys <==> |xs| == |ys| && forall i | 0 <= i < |xs| :: xs[i] == ys[i];
  }

  /** The text of a string, and of a value that is rendered by `repr`. */
  ghost predicate Shows(a: Atom, text: string) { a == StrAtom(text) || a == Other(text) }

  /** Two atoms have the same form exactly if they are the same, or texts that are. */
  lemma {:induction false} AtomsSame(a: Atom, b: Atom, h: Host)
    ensures Canonical(Atom(a), h) == Canonical(Atom(b), h) <==> a == b || exists text :: Shows(a, text) && Shows(b, text)
  {
    if a.Other? && b.StrAtom? && a.text == b.s { assert Shows(a, b.s) && Shows(b, b.s); }
    if a.StrAtom? && b.Other? && a.s == b.text { assert Shows(a, a.s) && Shows(b, a.s); }
  }

  /** Views and bytearrays have the same form exactly if their `repr` is, whatever they show. */
  lemma {:induction false} OthersSame(v: Py, w: Py, h: Host)
    requires (v.Proxy? || v.ByteArray?) && (w.Proxy? || w.ByteArray?)
    ensures Canonical(v, h) == Canonical(w, h) <==> h.display(v) == h.display(w)
  {
  }

  /** What the members of a set look like. */
  function Looks(vs: seq<Py>, h: Host): (r: seq<string>)
    ensures |r| == |vs| && forall i | 0 <= i < |vs| :: r[i] == h.show(Canonical(vs[i], h))
  {
    seq(|vs|, i requires 0 <= i < |vs| => h.show(Canonical(vs[i], h)))
  }

  lemma {:induction false} ShownLooks(vs: seq<Py>, h: Host)
    ensures Shown(CanonicalAll(vs, h), h) == Looks(vs, h)
  {
    if vs != [] {
      ShownLooks(vs[1..], h);
      assert Looks(vs, h) == [h.show(Canonical(vs[0], h))] + Looks(vs[1..], h);
    }
  }

  lemma {:induction false} StringsAt(ss: seq<string>, i: nat)
    requires i < |ss|
    ensures |Strings(ss)| == |ss| && Strings(ss)[i] == CAtom(StrAtom(ss[i]))
  {
    StringsLength(ss);
    if i > 0 { StringsAt(ss[1..], i - 1); }
  }

  lemma {:induction false} StringsLength(ss: seq<string>)
    ensures |Strings(ss)| == |ss|
  {
    if ss != [] { StringsLength(ss[1..]); }
  }

  lemma {:induction false} StringsSame(ss: seq<string>, ts: seq<string>)
    ensures Strings(ss) == Strings(ts) <==> ss == ts
  {
    StringsLength(ss);
    StringsLength(ts);
    if Strings(ss) == Strings(ts) {
      forall i | 0 <= i < |ss| ensures ss[i] == ts[i] {
        StringsAt(ss, i);
        StringsAt(ts, i);
      }
    }
  }

  lemma {:induction false} SortedSame(ss: seq<string>, ts: seq<string>)
    ensures Sort(ss, StringLe) == Sort(ts, StringLe) <==> multiset(ss) == multiset(ts)
  {
    StringLeOrder();
    if multiset(ss) == multiset(ts) {
      SortPermutation(ss, ts, StringLe);
    } else {
      assert multiset(Sort(ss, StringLe)) == multiset(ss) && multiset(Sort(ts, StringLe)) == multiset(ts);
    }
  }

  function SortedLooks(vs: seq<Py>, h: Host): Canon { CTuple(Strings(Sort(Looks(vs, h), StringLe))) }

  lemma {:induction false} SetForm(vs: seq<Py>, h: Host)
    ensures Canonical(Set(vs), h) == SortedLooks(vs, h)
  {
    ShownLooks(vs, h);
  }

  lemma {:induction false} FrozenSetForm(vs: seq<Py>, h: Host)
    ensures Canonical(FrozenSet(vs), h) == SortedLooks(vs, h)
  {
    ShownLooks(vs, h);
  }

  /** Sets have the same form exactly if their members look the same, in whatever order they are iterated. */
  lemma {:induction false} SetsSame(vs: seq<Py>, ws: seq<Py>, h: Host)
    ensures Canonical(Set(vs), h) == Canonical(FrozenSet(vs), h)
    ensures Canonical(Set(vs), h) == Canonical(Set(ws), h) <==> multiset(Looks(vs, h)) == multiset(Looks(ws, h))
  {
    SetForm(vs, h);
    FrozenSetForm(vs, h);
    SetForm(ws, h);
    var ss, ts := Looks(vs, h), Looks(ws, h);
    StringsSame(Sort(ss, StringLe), Sort(ts, StringLe));
    SortedSame(ss, ts);
  }
}
