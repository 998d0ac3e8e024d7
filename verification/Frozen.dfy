module Frozen {
  // `canonical`, `deep_freeze`, `is_frozen` and `_thaw`: the renderings of a nested value that the
  // caches are built on.

  import opened Sorting

  datatype Atom = NoneAtom | BoolAtom(b: bool) | IntAtom(n: int) | FloatAtom(r: real) | StrAtom(s: string) | Other(text: string)

  /** A dictionary key; `text` is `str(k)`, which different keys may share. */
  datatype Key = StrKey(text: string) | OtherKey(tag: nat, text: string)

  datatype Py =
    | Atom(a: Atom)
    | Dict(keys: seq<Key>, vals: seq<Py>)     // in insertion order, one value for each key
    | Proxy(keys: seq<Key>, vals: seq<Py>)    // a read-only view of a dict
    | List(elems: seq<Py>)
    | Tuple(elems: seq<Py>)
    | Set(elems: seq<Py>)
    | FrozenSet(elems: seq<Py>)
    | ByteArray(text: string)

  datatype Canon = CAtom(a: Atom) | CTuple(elems: seq<Canon>)

  /** `repr` of a canonical value and of an object, and `sorted` on the members of a set. */
  datatype Host = Host(show: Canon -> string, display: Py -> string, arrange: seq<Py> -> seq<Py>)

  function Text(c: Canon): string {
    if c.CTuple? && c.elems != [] && c.elems[0].CAtom? && c.elems[0].a.StrAtom? then c.elems[0].a.s else ""
  }

  /** Entries of a rendered dict are sorted by their key text. */
  predicate EntryLe(x: Canon, y: Canon) { StringLe(Text(x), Text(y)) }

  function Entry(text: string, c: Canon): Canon { CTuple([CAtom(StrAtom(text)), c]) }

  function Canonical(v: Py, h: Host): Canon
    decreases v, 0
  {
    match v
    case Atom(Other(text)) => CAtom(StrAtom(text))
    case Atom(a) => CAtom(a)
    case Dict(ks, vs) => CTuple(Sort(Entries(ks, CanonicalAll(vs, h)), EntryLe))
    case List(vs) => CTuple(CanonicalAll(vs, h))
    case Tuple(vs) => CTuple(CanonicalAll(vs, h))
    case Set(vs) => CTuple(Strings(Sort(Shown(CanonicalAll(vs, h), h), StringLe)))
    case FrozenSet(vs) => CTuple(Strings(Sort(Shown(CanonicalAll(vs, h), h), StringLe)))
    case Proxy(_, _) | ByteArray(_) => CAtom(StrAtom(h.display(v)))
  }

  function CanonicalAll(vs: seq<Py>, h: Host): (r: seq<Canon>)
    ensures |r| == |vs|
    decreases vs, 1
  {
    if vs == [] then [] else [Canonical(vs[0], h)] + CanonicalAll(vs[1..], h)
  }

  function Entries(ks: seq<Key>, cs: seq<Canon>): seq<Canon> {
    if ks == [] || cs == [] then [] else [Entry(ks[0].text, cs[0])] + Entries(ks[1..], cs[1..])
  }

  function Shown(cs: seq<Canon>, h: Host): seq<string> {
    if cs == [] then [] else [h.show(cs[0])] + Shown(cs[1..], h)
  }

  function Strings(ss: seq<string>): seq<Canon> {
    if ss == [] then [] else [CAtom(StrAtom(ss[0]))] + Strings(ss[1..])
  }

  // ---------------------------------------------------------------- freezing

  function DeepFreeze(v: Py): Py
    decreases v, 0
  {
    match v
    case Dict(ks, vs) => Proxy(ks, FreezeAll(vs))
    case List(vs) => Tuple(FreezeAll(vs))
    case Tuple(vs) => Tuple(FreezeAll(vs))
    case Set(vs) => FrozenSet(FreezeAll(vs))
    case _ => v
  }

  function FreezeAll(vs: seq<Py>): seq<Py>
    decreases vs, 1
  {
    if vs == [] then [] else [DeepFreeze(vs[0])] + FreezeAll(vs[1..])
  }

  predicate IsFrozen(v: Py)
    decreases v, 0
  {
    match v
    case Proxy(_, vs) => FrozenAll(vs)
    case Tuple(vs) => FrozenAll(vs)
    case FrozenSet(vs) => FrozenAll(vs)
    case List(_) | Dict(_, _) | Set(_) | ByteArray(_) => false
    case Atom(_) => true
  }

  predicate FrozenAll(vs: seq<Py>)
    decreases vs, 1
  {
    vs == [] || (IsFrozen(vs[0]) && FrozenAll(vs[1..]))
  }

  function Thaw(v: Py, h: Host): Py
    decreases v, 0
  {
    match v
    case Dict(ks, vs) => Dict(ks, ThawAll(vs, h))
    case Proxy(ks, vs) => Dict(ks, ThawAll(vs, h))
    case Tuple(vs) => List(ThawAll(vs, h))
    case List(vs) => List(ThawAll(vs, h))
    case FrozenSet(vs) => List(h.arrange(ThawAll(vs, h)))
    case _ => v
  }

  function ThawAll(vs: seq<Py>, h: Host): seq<Py>
    decreases vs, 1
  {
    if vs == [] then [] else [Thaw(vs[0], h)] + ThawAll(vs[1..], h)
  }

  // ---------------------------------------------------------------- what freezing does

  /** Nothing that freezing leaves alone is mutable: no bytearray, and no view or frozenset holding a mutable member. */
  predicate Freezable(v: Py)
    decreases v, 0
  {
    match v
    case Dict(_, vs) => FreezableAll(vs)
    case List(vs) => FreezableAll(vs)
    case Tuple(vs) => FreezableAll(vs)
    case Set(vs) => FreezableAll(vs)
    case _ => IsFrozen(v)
  }

  predicate FreezableAll(vs: seq<Py>)
    decreases vs, 1
  {
    vs == [] || (Freezable(vs[0]) && FreezableAll(vs[1..]))
  }

  /** `deep_freeze` makes a value frozen at every depth exactly when it is freezable. */
  lemma {:induction false} FreezeFrozen(v: Py)
    ensures IsFrozen(DeepFreeze(v)) <==> Freezable(v)
    decreases v, 0
  {
    match v {
      case Dict(_, vs) => FreezeAllFrozen(vs);
      case List(vs) => FreezeAllFrozen(vs);
      case Tuple(vs) => FreezeAllFrozen(vs);
      case Set(vs) => FreezeAllFrozen(vs);
      case _ =>
    }
  }

  lemma {:induction false} FreezeAllFrozen(vs: seq<Py>)
    ensures FrozenAll(FreezeAll(vs)) <==> FreezableAll(vs)
    decreases vs, 1
  {
    if vs != [] {
      FreezeFrozen(vs[0]);
      FreezeAllFrozen(vs[1..]);
    }
  }

  /** Freezing twice is freezing once. */
  lemma {:induction false} FreezeIdempotent(v: Py)
    ensures DeepFreeze(DeepFreeze(v)) == DeepFreeze(v)
    decreases v, 0
  {
    match v {
      case List(vs) => FreezeAllIdempotent(vs);
      case Tuple(vs) => FreezeAllIdempotent(vs);
      case _ =>
    }
  }

  lemma {:induction false} FreezeAllIdempotent(vs: seq<Py>)
    ensures FreezeAll(FreezeAll(vs)) == FreezeAll(vs)
    decreases vs, 1
  {
    if vs != [] {
      FreezeIdempotent(vs[0]);
      FreezeAllIdempotent(vs[1..]);
    }
  }

  /** Values built from atoms, dicts, views, lists and tuples: no sets and no bytearrays. */
  predicate Nested(v: Py)
    decreases v, 0
  {
    match v
    case Dict(ks, vs) => |ks| == |vs| && NestedAll(vs)
    case Proxy(ks, vs) => |ks| == |vs| && NestedAll(vs)
    case List(vs) => NestedAll(vs)
    case Tuple(vs) => NestedAll(vs)
    case Atom(_) => true
    case _ => false
  }

  predicate NestedAll(vs: seq<Py>)
    decreases vs, 1
  {
    vs == [] || (Nested(vs[0]) && NestedAll(vs[1..]))
  }

  /** Thawing undoes freezing, up to the difference between lists and tuples. */
  lemma {:induction false} ThawFreeze(v: Py, h: Host)
    requires Nested(v)
    ensures Thaw(DeepFreeze(v), h) == Thaw(v, h)
    decreases v, 0
  {
    match v {
      case Dict(_, vs) => ThawFreezeAll(vs, h);
      case List(vs) => ThawFreezeAll(vs, h);
      case Tuple(vs) => ThawFreezeAll(vs, h);
      case _ =>
    }
  }

  lemma {:induction false} ThawFreezeAll(vs: seq<Py>, h: Host)
    requires NestedAll(vs)
    ensures ThawAll(FreezeAll(vs), h) == ThawAll(vs, h)
    decreases vs, 1
  {
    if vs != [] {
      ThawFreeze(vs[0], h);
      ThawFreezeAll(vs[1..], h);
    }
  }

  /** The values a derivation produces: no views either. */
  predicate Raw(v: Py)
    decreases v, 0
  {
    match v
    case Dict(ks, vs) => |ks| == |vs| && RawAll(vs)
    case List(vs) => RawAll(vs)
    case Tuple(vs) => RawAll(vs)
    case Atom(_) => true
    case _ => false
  }

  predicate RawAll(vs: seq<Py>)
    decreases vs, 1
  {
    vs == [] || (Raw(vs[0]) && RawAll(vs[1..]))
  }

  lemma {:induction false} RawNested(v: Py)
    requires Raw(v)
    ensures Nested(v) && Freezable(v)
    decreases v, 0
  {
    match v {
      case Dict(_, vs) => RawNestedAll(vs);
      case List(vs) => RawNestedAll(vs);
      case Tuple(vs) => RawNestedAll(vs);
      case _ =>
    }
  }

  lemma {:induction false} RawNestedAll(vs: seq<Py>)
    requires RawAll(vs)
    ensures NestedAll(vs) && FreezableAll(vs)
    decreases vs, 1
  {
    if vs != [] {
      RawNested(vs[0]);
      RawNestedAll(vs[1..]);
    }
  }

  lemma {:induction false} ThawCanonical(v: Py, h: Host)
    requires Raw(v)
    ensures Canonical(Thaw(v, h), h) == Canonical(v, h)
    decreases v, 0
  {
    match v {
      case Dict(_, vs) => ThawCanonicalAll(vs, h);
      case List(vs) => ThawCanonicalAll(vs, h);
      case Tuple(vs) => ThawCanonicalAll(vs, h);
      case _ =>
    }
  }

  lemma {:induction false} ThawCanonicalAll(vs: seq<Py>, h: Host)
    requires RawAll(vs)
    ensures CanonicalAll(ThawAll(vs, h), h) == CanonicalAll(vs, h)
    decreases vs, 1
  {
    if vs != [] {
      ThawCanonical(vs[0], h);
      ThawCanonicalAll(vs[1..], h);
    }
  }

  /** The round trip: freezing a derived value and thawing it again loses nothing the comparison sees. */
  lemma {:induction false} FreezeRoundTrip(v: Py, h: Host)
    requires Raw(v)
    ensures IsFrozen(DeepFreeze(v))
    ensures Canonical(Thaw(DeepFreeze(v), h), h) == Canonical(v, h)
  {
    RawNested(v);
    FreezeFrozen(v);
    ThawFreeze(v, h);
    ThawCanonical(v, h);
  }

  /** Nothing in it is frozen: no views, tuples or frozensets, except inside sets. */
  predicate Unfrozen(v: Py)
    decreases v, 0
  {
    match v
    case Dict(_, vs) => UnfrozenAll(vs)
    case List(vs) => UnfrozenAll(vs)
    case Atom(_) | Set(_) | ByteArray(_) => true
    case Proxy(_, _) | Tuple(_) | FrozenSet(_) => false
  }

  predicate UnfrozenAll(vs: seq<Py>)
    decreases vs, 1
  {
    vs == [] || (Unfrozen(vs[0]) && UnfrozenAll(vs[1..]))
  }

  lemma {:induction false} UnfrozenEach(vs: seq<Py>)
    ensures UnfrozenAll(vs) <==> forall v | v in vs :: Unfrozen(v)
  {
    if vs != [] {
      UnfrozenEach(vs[1..]);
      assert vs == [vs[0]] + vs[1..] && vs[0] in vs;
      assert forall v | v in vs :: v == vs[0] || v in vs[1..];
    }
  }

  /** What `sorted` returns has the members it was given. */
  ghost predicate Arranges(h: Host) { forall vs, v :: v in h.arrange(vs) ==> v in vs }

  /** A thawed value has nothing frozen left in it. */
  lemma {:induction false} ThawUnfrozen(v: Py, h: Host)
    requires Arranges(h)
    ensures Unfrozen(Thaw(v, h))
    decreases v, 0
  {
    match v {
      case Dict(_, vs) => ThawUnfrozenAll(vs, h);
      case Proxy(_, vs) => ThawUnfrozenAll(vs, h);
      case List(vs) => ThawUnfrozenAll(vs, h);
      case Tuple(vs) => ThawUnfrozenAll(vs, h);
      case FrozenSet(vs) =>
        ThawUnfrozenAll(vs, h);
        UnfrozenEach(ThawAll(vs, h));
        UnfrozenEach(h.arrange(ThawAll(vs, h)));
      case _ =>
    }
  }

  lemma {:induction false} ThawUnfrozenAll(vs: seq<Py>, h: Host)
    requires Arranges(h)
    ensures UnfrozenAll(ThawAll(vs, h))
    decreases vs, 1
  {
    if vs != [] {
      ThawUnfrozen(vs[0], h);
      ThawUnfrozenAll(vs[1..], h);
    }
  }

  // ---------------------------------------------------------------- what canonicalising does

  lemma {:induction false} EntryLeOrder()
    ensures Preorder(EntryLe)
  {
    StringLeOrder();
    forall x, y, z | EntryLe(x, y) && EntryLe(y, z) ensures EntryLe(x, z) {
      StringLeTransitive(Text(x), Text(y), Text(z));
    }
  }

  /** No two keys of the dict have the same text. */
  ghost predicate DistinctTexts(ks: seq<Key>) {
    forall i, j | 0 <= i < j < |ks| :: ks[i].text != ks[j].text
  }

  function Pairs(ks: seq<Key>, vs: seq<Py>): (r: seq<(Key, Py)>)
    requires |ks| == |vs|
    ensures |r| == |ks| && forall i | 0 <= i < |r| :: r[i] == (ks[i], vs[i])
  {
    if ks == [] then [] else [(ks[0], vs[0])] + Pairs(ks[1..], vs[1..])
  }

  lemma {:induction false} EntriesMap(ks: seq<Key>, vs: seq<Py>, h: Host)
    requires |ks| == |vs|
    ensures Entries(ks, CanonicalAll(vs, h)) == Map(Pairs(ks, vs), (p: (Key, Py)) => Entry(p.0.text, Canonical(p.1, h)))
  {
    if ks != [] {
      EntriesMap(ks[1..], vs[1..], h);
      assert Pairs(ks, vs)[1..] == Pairs(ks[1..], vs[1..]);
    }
  }
}
