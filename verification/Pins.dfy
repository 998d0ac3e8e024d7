module Pins {
  // Identity pinning: why checking `id()` is as good as comparing the cached values in depth.
  //
  // Objects live in a heap indexed by identity, and identities are never reused. The rest of the
  // program holds some of them (`held`) and may allocate objects, change any mutable object it holds,
  // and follow references it can see; a mapping proxy shows the values of its dict but not the dict.

  import opened Common
  import Frozen

  type Id = nat

  datatype Cell =
    | AtomCell(a: Frozen.Atom)        // a value that cannot change
    | TupleCell(elems: seq<Id>)
    | FrozenSetCell(elems: seq<Id>)
    | ProxyCell(target: Id)
    | DictCell(entries: map<Frozen.Key, Id>)
    | ListCell(elems: seq<Id>)
    | SetCell(elems: seq<Id>)
    | ByteArrayCell(text: string)
    | ObjectCell(text: string, parts: seq<Id>)    // any other object that can change: a deque, an array, an instance of a class

  datatype State = State(heap: map<Id, Cell>, held: set<Id>)

  predicate Mutable(c: Cell) { c.DictCell? || c.ListCell? || c.SetCell? || c.ByteArrayCell? || c.ObjectCell? }

  predicate SameKind(c: Cell, d: Cell) {
    (c.DictCell? && d.DictCell?) || (c.ListCell? && d.ListCell?) || (c.SetCell? && d.SetCell?) ||
    (c.ByteArrayCell? && d.ByteArrayCell?) || (c.ObjectCell? && d.ObjectCell?)
  }

  /** The references stored in an object. */
  function Refs(c: Cell): set<Id> {
    match c
    case TupleCell(es) => set e | e in es
    case FrozenSetCell(es) => set e | e in es
    case ListCell(es) => set e | e in es
    case SetCell(es) => set e | e in es
    case ObjectCell(_, es) => set e | e in es
    case ProxyCell(t) => {t}
    case DictCell(m) => m.Values
    case AtomCell(_) | ByteArrayCell(_) => {}
  }

  /** The references a holder of the object can follow. */
  function Visible(c: Cell, heap: map<Id, Cell>): set<Id> {
    if c.ProxyCell? then
      if c.target in heap && heap[c.target].DictCell? then heap[c.target].entries.Values else {}
    else Refs(c)
  }

  datatype Action = Allocate(id: Id, cell: Cell) | Change(id: Id, cell: Cell) | Follow(from: Id, to: Id)

  ghost predicate Step(s: State, act: Action, t: State) {
    match act
    case Allocate(id, cell) => id !in s.heap && Refs(cell) <= s.held && t == State(s.heap[id := cell], s.held + {id})
    case Change(id, cell) =>
      && id in s.held && id in s.heap && Mutable(s.heap[id]) && SameKind(s.heap[id], cell) && Refs(cell) <= s.held
      && t == State(s.heap[id := cell], s.held)
    case Follow(from, to) =>
      && from in s.held && from in s.heap && to in Visible(s.heap[from], s.heap)
      && t == State(s.heap, s.held + {to})
  }

  /** Everything that may happen between two states. */
  ghost predicate Reaches(s: State, acts: seq<Action>, t: State)
    decreases acts
  {
    if acts == [] then s == t else exists m :: Step(s, acts[0], m) && Reaches(m, acts[1..], t)
  }

  // ---------------------------------------------------------------- deep content

  datatype Tree =
    | Unknown
    | Leaf(a: Frozen.Atom)
    | Sequence(kind: nat, items: seq<Tree>)
    | Mapping(entries: map<Frozen.Key, Tree>)
    | Bytes(text: string)
    | Object(text: string, items: seq<Tree>)

  /** The content of an object down to a given depth. */
  function Content(heap: map<Id, Cell>, id: Id, depth: nat): Tree
    decreases depth, 0
  {
    if depth == 0 || id !in heap then Unknown
    else
      match heap[id]
      case AtomCell(a) => Leaf(a)
      case TupleCell(es) => Sequence(0, Contents(heap, es, depth - 1))
      case FrozenSetCell(es) => Sequence(1, Contents(heap, es, depth - 1))
      case ListCell(es) => Sequence(2, Contents(heap, es, depth - 1))
      case SetCell(es) => Sequence(3, Contents(heap, es, depth - 1))
      case ByteArrayCell(text) => Bytes(text)
      case ObjectCell(text, es) => Object(text, Contents(heap, es, depth - 1))
      case DictCell(m) => Mapping(map k | k in m :: Content(heap, m[k], depth - 1))
      case ProxyCell(t) =>
        if t in heap && heap[t].DictCell?
        then Mapping(map k | k in heap[t].entries :: Content(heap, heap[t].entries[k], depth - 1)) else Unknown
  }

  function Contents(heap: map<Id, Cell>, ids: seq<Id>, depth: nat): seq<Tree>
    decreases depth, |ids| + 1
  {
    if ids == [] then [] else [Content(heap, ids[0], depth)] + Contents(heap, ids[1..], depth)
  }

  /** Nobody can reach the dict except through a proxy. */
  ghost predicate Hidden(s: State, d: Id) {
    d in s.heap && d !in s.held && forall i | i in s.heap :: s.heap[i].ProxyCell? || d !in Refs(s.heap[i])
  }

  /** Down to the given depth, the object is immutable and its proxies view hidden dicts. */
  ghost predicate Immutable(s: State, id: Id, depth: nat)
    decreases depth
  {
    depth == 0 ||
    (id in s.heap &&
     match s.heap[id]
     case AtomCell(_) => true
     case TupleCell(es) => forall e | e in es :: Immutable(s, e, depth - 1)
     case FrozenSetCell(es) => forall e | e in es :: Immutable(s, e, depth - 1)
     case ProxyCell(t) =>
       Hidden(s, t) && s.heap[t].DictCell? && forall k | k in s.heap[t].entries :: Immutable(s, s.heap[t].entries[k], depth - 1)
     case _ => false)
  }

  lemma {:induction false} HiddenStays(s: State, act: Action, t: State, d: Id)
    requires Step(s, act, t) && Hidden(s, d)
    ensures Hidden(t, d) && t.heap[d] == s.heap[d]
  {
  }

  lemma {:induction false} ImmutableStays(s: State, act: Action, t: State, id: Id, depth: nat)
    requires Step(s, act, t) && Immutable(s, id, depth)
    ensures Immutable(t, id, depth) && Content(t.heap, id, depth) == Content(s.heap, id, depth)
    decreases depth, 0
  {
    if depth > 0 {
      assert t.heap[id] == s.heap[id];
      match s.heap[id] {
        case TupleCell(es) => ImmutableAll(s, act, t, es, depth - 1);
        case FrozenSetCell(es) => ImmutableAll(s, act, t, es, depth - 1);
        case ProxyCell(d) =>
          HiddenStays(s, act, t, d);
          var m := s.heap[d].entries;
          forall k | k in m
            ensures Immutable(t, m[k], depth - 1) && Content(t.heap, m[k], depth - 1) == Content(s.heap, m[k], depth - 1)
          { ImmutableStays(s, act, t, m[k], depth - 1); }
        case _ =>
      }
    }
  }

  lemma {:induction false} ImmutableAll(s: State, act: Action, t: State, ids: seq<Id>, depth: nat)
    requires Step(s, act, t) && forall e | e in ids :: Immutable(s, e, depth)
    ensures (forall e | e in ids :: Immutable(t, e, depth)) && Contents(t.heap, ids, depth) == Contents(s.heap, ids, depth)
    decreases depth, |ids| + 1
  {
    if ids != [] {
      ImmutableStays(s, act, t, ids[0], depth);
      ImmutableAll(s, act, t, ids[1..], depth);
    }
  }

  /** Whatever the program does, a deeply frozen object stays one and keeps its content at every depth. */
  lemma {:induction false} FrozenForever(s: State, acts: seq<Action>, t: State, id: Id, depth: nat)
    requires Reaches(s, acts, t) && Immutable(s, id, depth)
    ensures Immutable(t, id, depth) && Content(t.heap, id, depth) == Content(s.heap, id, depth)
    decreases acts
  {
    if acts != [] {
      var m :| Step(s, acts[0], m) && Reaches(m, acts[1..], t);
      ImmutableStays(s, acts[0], m, id, depth);
      FrozenForever(m, acts[1..], t, id, depth);
    }
  }

  // ---------------------------------------------------------------- what deep_freeze builds

  /** Allocates the object for a frozen value; every proxy gets a dict of its own. */
  function Build(heap: map<Id, Cell>, next: Id, v: Frozen.Py): (r: (map<Id, Cell>, Id, Id))
    ensures next <= r.1 < r.2
    decreases v, 1
  {
    match v
    case Tuple(vs) =>
      var (h, n, ids) := BuildAll(heap, next, vs);
      (h[n := TupleCell(ids)], n, n + 1)
    case FrozenSet(vs) =>
      var (h, n, ids) := BuildAll(heap, next, vs);
      (h[n := FrozenSetCell(ids)], n, n + 1)
    case Proxy(ks, vs) =>
      var (h, n, ids) := BuildAll(heap, next, vs);
      (h[n := DictCell(Zip(ks, ids))][n + 1 := ProxyCell(n)], n + 1, n + 2)
    case Atom(a) => (heap[next := AtomCell(a)], next, next + 1)
    case _ => (heap[next := AtomCell(Frozen.NoneAtom)], next, next + 1)
  }

  function BuildAll(heap: map<Id, Cell>, next: Id, vs: seq<Frozen.Py>): (r: (map<Id, Cell>, Id, seq<Id>))
    ensures next <= r.1 && |r.2| == |vs|
    decreases vs, 0
  {
    if vs == [] then (heap, next, [])
    else
      var (h, id, n) := Build(heap, next, vs[0]);
      var (h', n', ids) := BuildAll(h, n, vs[1..]);
      (h', n', [id] + ids)
  }

  function Zip(ks: seq<Frozen.Key>, ids: seq<Id>): map<Frozen.Key, Id> {
    if ks == [] || ids == [] then map[] else Zip(ks[1..], ids[1..])[ks[0] := ids[0]]
  }

  /** The tree a frozen value stands for. */
  function TreeOf(v: Frozen.Py, depth: nat): Tree
    decreases depth, 0
  {
    if depth == 0 then Unknown
    else
      match v
      case Atom(a) => Leaf(a)
      case Tuple(vs) => Sequence(0, TreesOf(vs, depth - 1))
      case FrozenSet(vs) => Sequence(1, TreesOf(vs, depth - 1))
      case Proxy(ks, vs) => Mapping(ZipTrees(ks, TreesOf(vs, depth - 1)))
      case _ => Leaf(Frozen.NoneAtom)
  }

  function TreesOf(vs: seq<Frozen.Py>, depth: nat): seq<Tree>
    decreases depth, |vs| + 1
  {
    if vs == [] then [] else [TreeOf(vs[0], depth)] + TreesOf(vs[1..], depth)
  }

  function ZipTrees(ks: seq<Frozen.Key>, ts: seq<Tree>): map<Frozen.Key, Tree> {
    if ks == [] || ts == [] then map[] else ZipTrees(ks[1..], ts[1..])[ks[0] := ts[0]]
  }

  /** Only new objects were added, and none of them, except a proxy, refers to a dict. */
  ghost predicate Grows(h: map<Id, Cell>, h': map<Id, Cell>) {
    && (forall i | i in h :: i in h' && h'[i] == h[i])
    && forall i | i in h' && i !in h && !h'[i].ProxyCell? ::
         forall r | r in Refs(h'[i]) :: r in h' && !h'[r].DictCell?
  }

  ghost predicate Below(h: map<Id, Cell>, next: Id) {
    forall i | i in h :: i < next && forall r | r in Refs(h[i]) :: r < next
  }

  lemma {:induction false} ImmutableGrows(s: State, t: State, id: Id, depth: nat)
    requires Immutable(s, id, depth) && Grows(s.heap, t.heap)
    requires forall i | i in t.held && i !in s.held :: i in t.heap && !t.heap[i].DictCell?
    ensures Immutable(t, id, depth) && Content(t.heap, id, depth) == Content(s.heap, id, depth)
    decreases depth, 0
  {
    if depth > 0 {
      match s.heap[id] {
        case TupleCell(es) => ImmutableAllGrow(s, t, es, depth - 1);
        case FrozenSetCell(es) => ImmutableAllGrow(s, t, es, depth - 1);
        case ProxyCell(d) =>
          assert Hidden(t, d);
          var m := s.heap[d].entries;
          forall k | k in m
            ensures Immutable(t, m[k], depth - 1) && Content(t.heap, m[k], depth - 1) == Content(s.heap, m[k], depth - 1)
          { ImmutableGrows(s, t, m[k], depth - 1); }
        case _ =>
      }
    }
  }

  lemma {:induction false} ImmutableAllGrow(s: State, t: State, ids: seq<Id>, depth: nat)
    requires (forall e | e in ids :: Immutable(s, e, depth)) && Grows(s.heap, t.heap)
    requires forall i | i in t.held && i !in s.held :: i in t.heap && !t.heap[i].DictCell?
    ensures (forall e | e in ids :: Immutable(t, e, depth)) && Contents(t.heap, ids, depth) == Contents(s.heap, ids, depth)
    decreases depth, |ids| + 1
  {
    if ids != [] {
      ImmutableGrows(s, t, ids[0], depth);
      ImmutableAllGrow(s, t, ids[1..], depth);
    }
  }

  /** What `deep_freeze` returns: atoms, tuples, frozensets and views, each view with one value for each key. */
  predicate Shape(v: Frozen.Py)
    decreases v, 0
  {
    match v
    case Atom(a) => !a.Other?
    case Tuple(vs) => Shapes(vs)
    case FrozenSet(vs) => Shapes(vs)
    case Proxy(ks, vs) => |ks| == |vs| && Shapes(vs)
    case _ => false
  }

  predicate Shapes(vs: seq<Frozen.Py>)
    decreases vs, 1
  {
    vs == [] || (Shape(vs[0]) && Shapes(vs[1..]))
  }

  /** What `deep_freeze` leaves alone without harm: atoms, tuples and frozensets, but no views and no other objects. */
  predicate Solid(v: Frozen.Py)
    decreases v, 0
  {
    match v
    case Atom(a) => !a.Other?
    case Tuple(vs) => Solids(vs)
    case FrozenSet(vs) => Solids(vs)
    case _ => false
  }

  predicate Solids(vs: seq<Frozen.Py>)
    decreases vs, 1
  {
    vs == [] || (Solid(vs[0]) && Solids(vs[1..]))
  }

  /**
   Values made of None, Booleans, numbers, strings, dicts, lists, tuples, sets and frozensets: nothing that
   `deep_freeze` neither copies nor knows to be immutable, so no views, no bytearrays and no objects of other kinds.
   */
  predicate Derived(v: Frozen.Py)
    decreases v, 0
  {
    match v
    case Atom(a) => !a.Other?
    case Dict(ks, vs) => |ks| == |vs| && DerivedAll(vs)
    case List(vs) => DerivedAll(vs)
    case Tuple(vs) => DerivedAll(vs)
    case Set(vs) => DerivedAll(vs)
    case FrozenSet(vs) => Solids(vs)
    case _ => false
  }

  predicate DerivedAll(vs: seq<Frozen.Py>)
    decreases vs, 1
  {
    vs == [] || (Derived(vs[0]) && DerivedAll(vs[1..]))
  }

  lemma {:induction false} SolidShape(v: Frozen.Py)
    requires Solid(v)
    ensures Shape(v)
    decreases v, 0
  {
    match v {
      case Tuple(vs) => SolidShapes(vs);
      case FrozenSet(vs) => SolidShapes(vs);
      case _ =>
    }
  }

  lemma {:induction false} SolidShapes(vs: seq<Frozen.Py>)
    requires Solids(vs)
    ensures Shapes(vs)
    decreases vs, 1
  {
    if vs != [] {
      SolidShape(vs[0]);
      SolidShapes(vs[1..]);
    }
  }

  lemma {:induction false} FreezeShape(v: Frozen.Py)
    requires Derived(v)
    ensures Shape(Frozen.DeepFreeze(v))
    decreases v, 0
  {
    match v {
      case Dict(ks, vs) => FreezeShapes(vs);
      case List(vs) => FreezeShapes(vs);
      case Tuple(vs) => FreezeShapes(vs);
      case Set(vs) => FreezeShapes(vs);
      case FrozenSet(vs) => SolidShapes(vs);
      case _ =>
    }
  }

  lemma {:induction false} FreezeShapes(vs: seq<Frozen.Py>)
    requires DerivedAll(vs)
    ensures Shapes(Frozen.FreezeAll(vs)) && |Frozen.FreezeAll(vs)| == |vs|
    decreases vs, 1
  {
    if vs != [] {
      FreezeShape(vs[0]);
      FreezeShapes(vs[1..]);
    }
  }

  /** The object is immutable down to `depth` and has the content of the value. */
  ghost predicate Holds(s: State, id: Id, v: Frozen.Py, depth: nat) {
    Immutable(s, id, depth) && Content(s.heap, id, depth) == TreeOf(v, depth)
  }

  ghost predicate HoldsAll(s: State, ids: seq<Id>, vs: seq<Frozen.Py>, depth: nat) {
    (forall id | id in ids :: Immutable(s, id, depth)) && Contents(s.heap, ids, depth) == TreesOf(vs, depth)
  }

  ghost predicate Built(heap: map<Id, Cell>, held: set<Id>, next: Id, v: Frozen.Py) {
    var (h, id, n) := Build(heap, next, v);
    && Grows(heap, h) && Below(h, n) && id in h && !h[id].DictCell?
    && forall depth: nat :: Holds(State(h, held), id, v, depth)
  }

  ghost predicate BuiltAll(heap: map<Id, Cell>, held: set<Id>, next: Id, vs: seq<Frozen.Py>) {
    var (h, n, ids) := BuildAll(heap, next, vs);
    && Grows(heap, h) && Below(h, n) && (forall id | id in ids :: id in h && !h[id].DictCell?)
    && forall depth: nat :: HoldsAll(State(h, held), ids, vs, depth)
  }

  lemma {:induction false} ZipContents(h: map<Id, Cell>, ks: seq<Frozen.Key>, ids: seq<Id>, depth: nat)
    ensures (map k | k in Zip(ks, ids) :: Content(h, Zip(ks, ids)[k], depth)) == ZipTrees(ks, Contents(h, ids, depth))
    ensures forall k | k in Zip(ks, ids) :: Zip(ks, ids)[k] in ids
    decreases |ids|
  {
    if ks != [] && ids != [] {
      ZipContents(h, ks[1..], ids[1..], depth);
    }
  }

  lemma {:induction false} BuildFrozen(heap: map<Id, Cell>, held: set<Id>, next: Id, v: Frozen.Py)
    requires Below(heap, next) && (forall i | i in held :: i < next) && Shape(v)
    ensures Built(heap, held, next, v)
    decreases v, 1
  {
    if v.Atom? {
      AtomBuilt(heap, held, next, v);
    } else if v.Proxy? {
      BuildAllFrozen(heap, held, next, v.vals);
      var (h, n, ids) := BuildAll(heap, next, v.vals);
      var g := h[n := DictCell(Zip(v.keys, ids))];
      var h' := g[n + 1 := ProxyCell(n)];
      ProxyBuilt(heap, h, g, h', held, n, n + 1, ids, v.keys, v.vals);
      assert Build(heap, next, v) == (h', n + 1, n + 2);
    } else {
      BuildAllFrozen(heap, held, next, v.elems);
      SequenceBuilt(heap, held, next, v);
    }
  }

  lemma {:induction false} AtomBuilt(heap: map<Id, Cell>, held: set<Id>, next: Id, v: Frozen.Py)
    requires Below(heap, next) && v.Atom?
    ensures Built(heap, held, next, v)
  {
  }

  lemma {:induction false} SequenceBuilt(heap: map<Id, Cell>, held: set<Id>, next: Id, v: Frozen.Py)
    requires v.Tuple? || v.FrozenSet?
    requires BuiltAll(heap, held, next, v.elems)
    ensures Built(heap, held, next, v)
  {
    var (h, n, ids) := BuildAll(heap, next, v.elems);
    var c := if v.Tuple? then TupleCell(ids) else FrozenSetCell(ids);
    CellBuilt(heap, h, h[n := c], held, n, ids, c, v);
    assert Build(heap, next, v) == (h[n := c], n, n + 1);
  }

  lemma {:induction false} CellBuilt(heap: map<Id, Cell>, h: map<Id, Cell>, h': map<Id, Cell>, held: set<Id>, n: Id, ids: seq<Id>,
                  c: Cell, v: Frozen.Py)
    requires (v.Tuple? && c == TupleCell(ids)) || (v.FrozenSet? && c == FrozenSetCell(ids))
    requires h' == h[n := c]
    requires Grows(heap, h) && Below(h, n)
    requires forall id | id in ids :: id in h && !h[id].DictCell?
    requires forall depth: nat :: HoldsAll(State(h, held), ids, v.elems, depth)
    ensures Grows(heap, h') && Below(h', n + 1)
    ensures forall depth: nat :: Holds(State(h', held), n, v, depth)
  {
    assert Grows(h, h');
    forall depth: nat ensures Holds(State(h', held), n, v, depth) {
      if depth > 0 {
        assert HoldsAll(State(h, held), ids, v.elems, depth - 1);
        ImmutableAllGrow(State(h, held), State(h', held), ids, depth - 1);
      }
    }
  }

  /** The dict behind a new view is referred to by the view alone. */
  lemma {:induction false} ProxyBuilt(heap: map<Id, Cell>, h: map<Id, Cell>, g: map<Id, Cell>, h': map<Id, Cell>, held: set<Id>,
                   n: Id, id: Id, ids: seq<Id>, ks: seq<Frozen.Key>, vs: seq<Frozen.Py>)
    requires |ks| == |vs| && (forall i | i in held :: i < n) && id == n + 1
    requires g == h[n := DictCell(Zip(ks, ids))] && h' == g[id := ProxyCell(n)]
    requires Grows(heap, h) && Below(h, n)
    requires forall i | i in ids :: i in h && !h[i].DictCell?
    requires forall depth: nat :: HoldsAll(State(h, held), ids, vs, depth)
    ensures Grows(heap, h') && Below(h', id + 1)
    ensures forall depth: nat :: Holds(State(h', held), id, Frozen.Proxy(ks, vs), depth)
  {
    ViewGrows(heap, h, g, h', n, id, ids, ks);
    forall depth: nat ensures Holds(State(h', held), id, Frozen.Proxy(ks, vs), depth) {
      if depth > 0 {
        assert HoldsAll(State(h, held), ids, vs, depth - 1);
        ImmutableAllGrow(State(h, held), State(h', held), ids, depth - 1);
        ViewHolds(State(h', held), n, id, ids, ks, vs, depth);
      }
    }
  }

  lemma {:induction false} ViewHolds(t: State, n: Id, id: Id, ids: seq<Id>, ks: seq<Frozen.Key>, vs: seq<Frozen.Py>, depth: nat)
    requires depth > 0 && HoldsAll(t, ids, vs, depth - 1)
    requires Hidden(t, n) && t.heap[n] == DictCell(Zip(ks, ids)) && id in t.heap && t.heap[id] == ProxyCell(n)
    ensures Holds(t, id, Frozen.Proxy(ks, vs), depth)
  {
    ZipContents(t.heap, ks, ids, depth - 1);
  }

  lemma {:induction false} ViewGrows(heap: map<Id, Cell>, h: map<Id, Cell>, g: map<Id, Cell>, h': map<Id, Cell>, n: Id, id: Id,
                  ids: seq<Id>, ks: seq<Frozen.Key>)
    requires id == n + 1 && g == h[n := DictCell(Zip(ks, ids))] && h' == g[id := ProxyCell(n)]
    requires Grows(heap, h) && Below(h, n)
    requires forall i | i in ids :: i in h && !h[i].DictCell?
    ensures Grows(h, h') && Grows(heap, h') && Below(h', id + 1)
    ensures forall i | i in h' && !h'[i].ProxyCell? :: n !in Refs(h'[i])
  {
    ZipContents(h, ks, ids, 0);
    forall r | r in Refs(h'[n]) ensures r in ids {
      var k :| k in Zip(ks, ids) && Zip(ks, ids)[k] == r;
    }
  }

  lemma {:induction false} BuildAllFrozen(heap: map<Id, Cell>, held: set<Id>, next: Id, vs: seq<Frozen.Py>)
    requires Below(heap, next) && (forall i | i in held :: i < next) && Shapes(vs)
    ensures BuiltAll(heap, held, next, vs)
    decreases vs, 0
  {
    if vs != [] {
      BuildFrozen(heap, held, next, vs[0]);
      var (h, id, n) := Build(heap, next, vs[0]);
      BuildAllFrozen(h, held, n, vs[1..]);
      var (h', n', ids) := BuildAll(h, n, vs[1..]);
      forall depth: nat ensures HoldsAll(State(h', held), [id] + ids, vs, depth) {
        assert Holds(State(h, held), id, vs[0], depth) && HoldsAll(State(h', held), ids, vs[1..], depth);
        ImmutableGrows(State(h, held), State(h', held), id, depth);
      }
    }
  }

  /** The program's state once `deep_freeze(v)` has been handed out. */
  function AfterFreeze(s: State, next: Id, v: Frozen.Py): State {
    var (h, id, _) := Build(s.heap, next, Frozen.DeepFreeze(v));
    State(h, s.held + {id})
  }

  function FrozenId(s: State, next: Id, v: Frozen.Py): Id { Build(s.heap, next, Frozen.DeepFreeze(v)).1 }

  /** `deep_freeze` of a derived value returns an object that is immutable at every depth, even once it is handed out. */
  lemma {:induction false} FreezeBuilds(s: State, next: Id, v: Frozen.Py)
    requires Below(s.heap, next) && (forall i | i in s.held :: i < next) && Derived(v)
    ensures forall depth: nat :: Holds(AfterFreeze(s, next, v), FrozenId(s, next, v), Frozen.DeepFreeze(v), depth)
  {
    var f, id, t := Frozen.DeepFreeze(v), FrozenId(s, next, v), AfterFreeze(s, next, v);
    FreezeShape(v);
    BuildFrozen(s.heap, s.held, next, f);
    var before := State(t.heap, s.held);
    assert Build(s.heap, next, f).0 == t.heap && Build(s.heap, next, f).1 == id;
    forall depth: nat ensures Holds(t, id, f, depth) {
      assert Holds(before, id, f, depth);
      ImmutableGrows(before, t, id, depth);
    }
  }

  // ---------------------------------------------------------------- pins

  datatype Pin = Pin(container: Id, values: map<Frozen.Key, Id>)

  datatype Refusal = Replaced | Removed(k: Frozen.Key) | Swapped(k: Frozen.Key)

  /** The pin is still good: the same container, still holding the same object under every pinned key. */
  ghost predicate Intact(p: Pin, container: Id, heap: map<Id, Cell>) {
    && container == p.container && container in heap && heap[container].DictCell?
    && forall k | k in p.values :: k in heap[container].entries && heap[container].entries[k] == p.values[k]
  }

  class Registry {
    var pins: map<string, Pin>

    constructor ()
      ensures pins == map[]
    {
      pins := map[];
    }

    method PinContainer(name: string, container: Id, heap: map<Id, Cell>)
      requires container in heap && heap[container].DictCell?
      modifies this
      ensures pins == old(pins)[name := Pin(container, heap[container].entries)]
      ensures Intact(pins[name], container, heap)
    {
      pins := pins[name := Pin(container, heap[container].entries)];
    }

    /** A label nobody pinned is not checked. */
    method AssertPinned(name: string, container: Id, heap: map<Id, Cell>) returns (r: Result<(), Refusal>)
      requires container in heap && heap[container].DictCell?
      ensures r.Ok? <==> name !in pins || Intact(pins[name], container, heap)
      ensures r == Err(Replaced) <==> name in pins && container != pins[name].container
      ensures r.Err? && !r.error.Replaced? ==> r.error.k in pins[name].values
      ensures r.Err? && r.error.Removed? ==> r.error.k !in heap[container].entries
      ensures r.Err? && r.error.Swapped? ==>
                r.error.k in heap[container].entries && heap[container].entries[r.error.k] != pins[name].values[r.error.k]
    {
      if name !in pins { return Ok(()); }
      var Pin(mapping, values) := pins[name];
      if container != mapping { return Err(Replaced); }
      var entries := heap[container].entries;
      var todo := values.Keys;
      while todo != {}
        invariant todo <= values.Keys
        invariant forall k | k in values && k !in todo :: k in entries && entries[k] == values[k]
      {
        var k :| k in todo;
        if k !in entries { return Err(Removed(k)); }
        if entries[k] != values[k] { return Err(Swapped(k)); }
        todo := todo - {k};
      }
      r := Ok(());
    }
  }

  /**
   A pin that is still good after any run of the program guarantees what a deep comparison would:
   every key pinned over frozen values still holds the same content, at every depth. Keys added
   since then are not restricted.
   */
  lemma {:induction false} IntactMeansSameContent(s: State, acts: seq<Action>, t: State, container: Id, key: Frozen.Key,
                                                  depth: nat)
    requires container in s.heap && s.heap[container].DictCell? && key in s.heap[container].entries
    requires Immutable(s, s.heap[container].entries[key], depth)
    requires Reaches(s, acts, t) && Intact(Pin(container, s.heap[container].entries), container, t.heap)
    ensures Content(t.heap, t.heap[container].entries[key], depth) == Content(s.heap, s.heap[container].entries[key], depth)
  {
    FrozenForever(s, acts, t, s.heap[container].entries[key], depth);
  }

  /** Adding a key does not trip the pin; replacing or removing a pinned value does. */
  lemma {:induction false} PinSensitivity(s: State, container: Id, key: Frozen.Key, id: Id)
    requires container in s.heap && s.heap[container].DictCell?
    ensures var p := Pin(container, s.heap[container].entries);
            var changed := s.heap[container := DictCell(s.heap[container].entries[key := id])];
            var removed := s.heap[container := DictCell(s.heap[container].entries - {key})];
            && (Intact(p, container, changed) <==> key !in s.heap[container].entries || s.heap[container].entries[key] == id)
            && (Intact(p, container, removed) <==> key !in s.heap[container].entries)
  {
  }

  /**
   From `deep_freeze` to a check that passes: a derived value is frozen, anything happens, a cache that has
   the frozen object under some key is pinned, anything happens again, and if the check passes then the
   cache has the content of the derived value under that key, at every depth.
   */
  method PinAndCheck(r: Registry, name: string, container: Id, key: Frozen.Key,
                     ghost s: State, ghost next: Id, ghost v: Frozen.Py,
                     ghost early: seq<Action>, pinned: State, ghost late: seq<Action>, now: State)
    returns (ok: Result<(), Refusal>)
    requires Below(s.heap, next) && (forall i | i in s.held :: i < next) && Derived(v)
    requires Reaches(AfterFreeze(s, next, v), early, pinned) && Reaches(pinned, late, now)
    requires container in pinned.heap && pinned.heap[container].DictCell? && key in pinned.heap[container].entries
    requires pinned.heap[container].entries[key] == FrozenId(s, next, v)
    requires container in now.heap && now.heap[container].DictCell?
    modifies r
    ensures ok.Ok? <==> Intact(Pin(container, pinned.heap[container].entries), container, now.heap)
    ensures ok.Ok? ==> key in now.heap[container].entries
    ensures ok.Ok? ==> HasContent(now, now.heap[container].entries[key], Frozen.DeepFreeze(v))
  {
    r.PinContainer(name, container, pinned.heap);
    ok := r.AssertPinned(name, container, now.heap);
    if ok.Ok? { ContentKept(s, next, v, early, pinned, late, now); }
  }

  /** At every depth, the object has the content of the value. */
  ghost predicate HasContent(s: State, id: Id, v: Frozen.Py) {
    forall depth: nat :: Content(s.heap, id, depth) == TreeOf(v, depth)
  }

  /** A frozen value keeps its content through both runs. */
  lemma {:induction false} ContentKept(s: State, next: Id, v: Frozen.Py, early: seq<Action>, pinned: State,
                                       late: seq<Action>, now: State)
    requires Below(s.heap, next) && (forall i | i in s.held :: i < next) && Derived(v)
    requires Reaches(AfterFreeze(s, next, v), early, pinned) && Reaches(pinned, late, now)
    ensures HasContent(pinned, FrozenId(s, next, v), Frozen.DeepFreeze(v))
    ensures HasContent(now, FrozenId(s, next, v), Frozen.DeepFreeze(v))
  {
    var id := FrozenId(s, next, v);
    FreezeBuilds(s, next, v);
    forall depth: nat
      ensures Content(pinned.heap, id, depth) == TreeOf(Frozen.DeepFreeze(v), depth) == Content(now.heap, id, depth)
    {
      assert Holds(AfterFreeze(s, next, v), id, Frozen.DeepFreeze(v), depth);
      FrozenForever(AfterFreeze(s, next, v), early, pinned, id, depth);
      FrozenForever(pinned, late, now, id, depth);
    }
  }
}
