module Views {
  // When `is_frozen` is right. The deep content of an object is constant exactly when nothing that can change
  // and that the content shows can be reached from what the program holds. What `is_frozen` accepts shows two
  // kinds of such things: dicts behind views, and objects of kinds it does not know.

  import opened Pins

  /** `is_frozen`, down to a depth: a proxy is judged by the values of the dict it views, an unknown object is accepted. */
  ghost predicate IsFrozenAt(heap: map<Id, Cell>, id: Id, depth: nat)
    decreases depth
  {
    depth == 0 ||
    (id in heap &&
     match heap[id]
     case AtomCell(_) => true
     case ObjectCell(_, _) => true
     case TupleCell(es) => forall e | e in es :: IsFrozenAt(heap, e, depth - 1)
     case FrozenSetCell(es) => forall e | e in es :: IsFrozenAt(heap, e, depth - 1)
     case ProxyCell(t) =>
       t in heap && heap[t].DictCell? && forall k | k in heap[t].entries :: IsFrozenAt(heap, heap[t].entries[k], depth - 1)
     case _ => false)
  }

  /** The elements of an object whose content is a sequence, the dict it is or views, and the values of that. */
  function Elements(c: Cell): seq<Id> {
    match c
    case TupleCell(es) => es
    case FrozenSetCell(es) => es
    case ListCell(es) => es
    case SetCell(es) => es
    case ObjectCell(_, es) => es
    case _ => []
  }

  function Entries(heap: map<Id, Cell>, id: Id): map<Frozen.Key, Id>
    requires id in heap
  {
    match heap[id]
    case DictCell(m) => m
    case ProxyCell(t) => if t in heap && heap[t].DictCell? then heap[t].entries else map[]
    case _ => map[]
  }

  /** What the object consists of one level down. */
  function Children(heap: map<Id, Cell>, id: Id): set<Id>
    requires id in heap
  {
    (set e | e in Elements(heap[id])) + Entries(heap, id).Values
  }

  /** Everything the content shows down to the depth exists, and proxies view dicts. */
  ghost predicate Complete(heap: map<Id, Cell>, id: Id, depth: nat)
    decreases depth
  {
    depth == 0 ||
    (&& id in heap && (heap[id].ProxyCell? ==> heap[id].target in heap && heap[heap[id].target].DictCell?)
     && forall e | e in Children(heap, id) :: Complete(heap, e, depth - 1))
  }

  /** `d` can change, and the content shows it within the depth. */
  ghost predicate Shows(heap: map<Id, Cell>, id: Id, depth: nat, d: Id)
    decreases depth
  {
    depth > 0 && id in heap && d in heap && Mutable(heap[d]) &&
    (id == d || heap[id] == ProxyCell(d) || exists e | e in Children(heap, id) :: Shows(heap, e, depth - 1, d))
  }

  // ---------------------------------------------------------------- what can come to be held

  /** From something that is held, each object on the path can be followed to the next. */
  ghost predicate Chain(s: State, path: seq<Id>) {
    && path != [] && path[0] in s.held
    && forall i | 0 <= i < |path| - 1 :: path[i] in s.heap && path[i + 1] in Visible(s.heap[path[i]], s.heap)
  }

  ghost predicate CanReach(s: State, d: Id) { exists path :: Chain(s, path) && path[|path| - 1] == d }

  ghost predicate CanBeHeld(s: State, d: Id) { exists acts, t :: Reaches(s, acts, t) && d in t.held }

  lemma {:induction false} HeldReached(s: State, d: Id)
    requires d in s.held
    ensures CanReach(s, d)
  {
    assert Chain(s, [d]);
  }

  lemma {:induction false} ReachOn(s: State, d: Id, e: Id)
    requires CanReach(s, d) && d in s.heap && e in Visible(s.heap[d], s.heap)
    ensures CanReach(s, e)
  {
    var path :| Chain(s, path) && path[|path| - 1] == d;
    assert Chain(s, path + [e]);
  }

  /** The program may come by the object: it can reach it now, or has yet to allocate it. */
  ghost predicate Open(s: State, i: Id) { i !in s.heap || CanReach(s, i) }

  ghost predicate AllOpen(s: State, ids: set<Id>) { forall i | i in ids :: Open(s, i) }

  /** What an open object can refer to after some steps: open objects, or the same closed dict as before through a view. */
  ghost predicate OpenCell(s: State, i: Id, c: Cell) {
    if c.ProxyCell? then Open(s, c.target) || (i in s.heap && s.heap[i] == c) else AllOpen(s, Refs(c))
  }

  /** What every run keeps: only open objects are held, and everything else is as it was. */
  ghost predicate Kept(s: State, t: State) {
    && AllOpen(s, t.held)
    && (forall i | i in s.heap :: i in t.heap && (t.heap[i] == s.heap[i] || (Mutable(s.heap[i]) && CanReach(s, i))))
    && (forall i | i in t.heap && Open(s, i) :: OpenCell(s, i, t.heap[i]))
  }

  lemma {:induction false} OpenVisible(s: State, i: Id)
    requires CanReach(s, i) && i in s.heap
    ensures AllOpen(s, Visible(s.heap[i], s.heap))
  {
    forall e | e in Visible(s.heap[i], s.heap) ensures Open(s, e) { ReachOn(s, i, e); }
  }

  lemma {:induction false} KeptAtFirst(s: State)
    ensures Kept(s, s)
  {
    forall i | i in s.held ensures Open(s, i) { HeldReached(s, i); }
    forall i | i in s.heap && Open(s, i) ensures OpenCell(s, i, s.heap[i]) { OpenVisible(s, i); }
  }

  /** Following a reference of an open object gives an open object. */
  lemma {:induction false} FollowOpen(s: State, t: State, from: Id, to: Id)
    requires Kept(s, t) && Open(s, from) && from in t.heap && to in Visible(t.heap[from], t.heap)
    ensures Open(s, to)
  {
    var c := t.heap[from];
    assert OpenCell(s, from, c);
    if c.ProxyCell? {
      if Open(s, c.target) {
        assert OpenCell(s, c.target, t.heap[c.target]);
      } else {
        assert t.heap[c.target] == s.heap[c.target];
        OpenVisible(s, from);
      }
    }
  }

  lemma {:induction false} KeptByStep(s: State, t: State, act: Action, u: State)
    requires Kept(s, t) && Step(t, act, u)
    ensures Kept(s, u)
  {
    match act {
      case Allocate(id, cell) =>
        assert id !in s.heap && Open(s, id);
        assert OpenCell(s, id, cell);
      case Change(id, cell) => assert OpenCell(s, id, cell);
      case Follow(from, to) => FollowOpen(s, t, from, to);
    }
  }

  lemma {:induction false} KeptByRun(s: State, t: State, acts: seq<Action>, u: State)
    requires Kept(s, t) && Reaches(t, acts, u)
    ensures Kept(s, u)
    decreases |acts|
  {
    if acts != [] {
      var m :| Step(t, acts[0], m) && Reaches(m, acts[1..], u);
      KeptByStep(s, t, acts[0], m);
      KeptByRun(s, m, acts[1..], u);
    }
  }

  lemma {:induction false} RunOn(s: State, acts: seq<Action>, t: State, act: Action, u: State)
    requires Reaches(s, acts, t) && Step(t, act, u)
    ensures Reaches(s, acts + [act], u)
    decreases |acts|
  {
    if acts == [] {
      assert ([] + [act])[1..] == [] && (acts + [act])[0] == act && (acts + [act])[1..] == [];
      assert Reaches(u, [], u);
    } else {
      var m :| Step(s, acts[0], m) && Reaches(m, acts[1..], t);
      RunOn(m, acts[1..], t, act, u);
      assert (acts + [act])[1..] == acts[1..] + [act] && (acts + [act])[0] == acts[0];
    }
  }

  lemma {:induction false} ChainPrefix(s: State, path: seq<Id>)
    requires Chain(s, path) && |path| > 1
    ensures Chain(s, path[..|path| - 1])
  {
    var front := path[..|path| - 1];
    forall i | 0 <= i < |front| - 1 ensures front[i] in s.heap && front[i + 1] in Visible(s.heap[front[i]], s.heap) {
      assert path[i] in s.heap && path[i + 1] in Visible(s.heap[path[i]], s.heap);
    }
  }

  /** A chain can be followed to its end, without changing anything. */
  lemma {:induction false} FollowChain(s: State, path: seq<Id>) returns (acts: seq<Action>, t: State)
    requires Chain(s, path)
    ensures Reaches(s, acts, t) && t.heap == s.heap && path[|path| - 1] in t.held
    decreases |path|
  {
    if |path| == 1 {
      acts, t := [], s;
    } else {
      var front, from, to := path[..|path| - 1], path[|path| - 2], path[|path| - 1];
      ChainPrefix(s, path);
      acts, t := FollowChain(s, front);
      assert path[|path| - 2 + 1] in Visible(s.heap[from], s.heap);
      var u := State(t.heap, t.held + {to});
      RunOn(s, acts, t, Follow(from, to), u);
      acts, t := acts + [Follow(from, to)], u;
    }
  }

  /** An object comes to be held in some run exactly when references lead to it from something held now. */
  lemma {:induction false} HeldExactly(s: State, d: Id)
    requires d in s.heap
    ensures CanBeHeld(s, d) <==> CanReach(s, d)
  {
    if CanReach(s, d) {
      var path :| Chain(s, path) && path[|path| - 1] == d;
      var acts, t := FollowChain(s, path);
      assert Reaches(s, acts, t) && d in t.held;
    }
    if CanBeHeld(s, d) {
      var acts, t :| Reaches(s, acts, t) && d in t.held;
      KeptAtFirst(s);
      KeptByRun(s, s, acts, t);
      assert Open(s, d);
    }
  }

  // ---------------------------------------------------------------- closed content

  /** Nothing that can change and that the content shows can be reached. */
  ghost predicate Closed(s: State, id: Id, depth: nat) { forall d | Shows(s.heap, id, depth, d) :: !CanReach(s, d) }

  lemma {:induction false} ClosedBelow(s: State, id: Id, depth: nat, e: Id)
    requires depth > 0 && Complete(s.heap, id, depth) && Closed(s, id, depth) && e in Children(s.heap, id)
    ensures Complete(s.heap, e, depth - 1) && Closed(s, e, depth - 1)
  {
    forall d | Shows(s.heap, e, depth - 1, d) ensures !CanReach(s, d) { assert Shows(s.heap, id, depth, d); }
  }

  /** The object and, if it is a view, the dict behind it are as they were. */
  lemma {:induction false} CellKept(s: State, t: State, id: Id, depth: nat)
    requires depth > 0 && Kept(s, t) && Complete(s.heap, id, depth) && Closed(s, id, depth)
    ensures id in t.heap && t.heap[id] == s.heap[id] && Entries(t.heap, id) == Entries(s.heap, id)
    ensures s.heap[id].ProxyCell? ==> s.heap[id].target in t.heap && t.heap[s.heap[id].target] == s.heap[s.heap[id].target]
  {
    if Mutable(s.heap[id]) { assert Shows(s.heap, id, depth, id); }
    if s.heap[id].ProxyCell? { assert Shows(s.heap, id, depth, s.heap[id].target); }
  }

  lemma {:induction false} ClosedSame(s: State, t: State, id: Id, depth: nat)
    requires Kept(s, t) && Complete(s.heap, id, depth) && Closed(s, id, depth)
    ensures Content(t.heap, id, depth) == Content(s.heap, id, depth)
    decreases depth, 1
  {
    if depth > 0 {
      if s.heap[id].DictCell? || s.heap[id].ProxyCell? {
        ClosedSameMapping(s, t, id, depth);
      } else {
        ClosedSameSequence(s, t, id, depth);
      }
    }
  }

  lemma {:induction false} ClosedSameSequence(s: State, t: State, id: Id, depth: nat)
    requires depth > 0 && Kept(s, t) && Complete(s.heap, id, depth) && Closed(s, id, depth)
    requires !s.heap[id].DictCell? && !s.heap[id].ProxyCell?
    ensures Content(t.heap, id, depth) == Content(s.heap, id, depth)
    decreases depth, 0
  {
    CellKept(s, t, id, depth);
    forall e | e in Elements(s.heap[id]) ensures Complete(s.heap, e, depth - 1) && Closed(s, e, depth - 1) {
      ClosedBelow(s, id, depth, e);
    }
    ClosedSameAll(s, t, Elements(s.heap[id]), depth - 1);
  }

  lemma {:induction false} SameMapping(h: map<Id, Cell>, g: map<Id, Cell>, id: Id, depth: nat)
    requires depth > 0 && id in h && id in g && h[id] == g[id] && (h[id].DictCell? || h[id].ProxyCell?)
    requires h[id].ProxyCell? ==> h[id].target in h && h[id].target in g && h[h[id].target] == g[h[id].target]
    requires var m := Entries(h, id); forall k | k in m :: Content(g, m[k], depth - 1) == Content(h, m[k], depth - 1)
    ensures Content(g, id, depth) == Content(h, id, depth)
  {
    var m := Entries(h, id);
    if Content(h, id, depth).Mapping? {
      assert (map k | k in m :: Content(g, m[k], depth - 1)) == (map k | k in m :: Content(h, m[k], depth - 1));
    }
  }

  lemma {:induction false} ClosedSameMapping(s: State, t: State, id: Id, depth: nat)
    requires depth > 0 && Kept(s, t) && Complete(s.heap, id, depth) && Closed(s, id, depth)
    requires s.heap[id].DictCell? || s.heap[id].ProxyCell?
    ensures Content(t.heap, id, depth) == Content(s.heap, id, depth)
    decreases depth, 0
  {
    CellKept(s, t, id, depth);
    var m := Entries(s.heap, id);
    forall k | k in m ensures Content(t.heap, m[k], depth - 1) == Content(s.heap, m[k], depth - 1) {
      ClosedBelow(s, id, depth, m[k]);
      ClosedSame(s, t, m[k], depth - 1);
    }
    SameMapping(s.heap, t.heap, id, depth);
  }

  lemma {:induction false} ClosedSameAll(s: State, t: State, ids: seq<Id>, depth: nat)
    requires Kept(s, t) && forall e | e in ids :: Complete(s.heap, e, depth) && Closed(s, e, depth)
    ensures Contents(t.heap, ids, depth) == Contents(s.heap, ids, depth)
    decreases depth, |ids| + 2
  {
    if ids != [] {
      ClosedSame(s, t, ids[0], depth);
      ClosedSameAll(s, t, ids[1..], depth);
    }
  }

  // ---------------------------------------------------------------- open content

  lemma {:induction false} ContentsAt(heap: map<Id, Cell>, ids: seq<Id>, depth: nat, i: nat)
    requires i < |ids|
    ensures |Contents(heap, ids, depth)| == |ids| && Contents(heap, ids, depth)[i] == Content(heap, ids[i], depth)
    decreases |ids|
  {
    if i > 0 {
      ContentsAt(heap, ids[1..], depth, i - 1);
    } else if |ids| > 1 {
      ContentsAt(heap, ids[1..], depth, 0);
    }
  }

  lemma {:induction false} ContentsLength(heap: map<Id, Cell>, ids: seq<Id>, depth: nat)
    ensures |Contents(heap, ids, depth)| == |ids|
    decreases |ids|
  {
    if ids != [] { ContentsLength(heap, ids[1..], depth); }
  }

  lemma {:induction false} ElementShows(h: map<Id, Cell>, g: map<Id, Cell>, ids: seq<Id>, depth: nat, e: Id)
    requires e in ids && Content(h, e, depth) != Content(g, e, depth)
    ensures Contents(h, ids, depth) != Contents(g, ids, depth)
  {
    var i :| 0 <= i < |ids| && ids[i] == e;
    ContentsAt(h, ids, depth, i);
    ContentsAt(g, ids, depth, i);
  }

  /** Another cell of the same kind that can be told apart by itself, and that refers to `d` alone. */
  function Other(c: Cell, d: Id): Cell
    requires Mutable(c)
  {
    match c
    case DictCell(m) => DictCell(if m == map[] then map[Frozen.StrKey("") := d] else map[])
    case ListCell(es) => ListCell(if es == [] then [d] else [])
    case SetCell(es) => SetCell(if es == [] then [d] else [])
    case ByteArrayCell(text) => ByteArrayCell(text + " ")
    case ObjectCell(text, _) => ObjectCell(text + " ", [])
  }

  lemma {:induction false} OtherKeys(m: map<Frozen.Key, Id>, d: Id)
    ensures Other(DictCell(m), d).entries.Keys != m.Keys
  {
    if m == map[] {
      var r := map[Frozen.StrKey("") := d];
      assert Other(DictCell(m), d) == DictCell(r) && Frozen.StrKey("") in r.Keys;
    } else {
      var k :| k in m;
      assert k in m.Keys;
    }
  }

  lemma {:induction false} LongerText(text: string)
    ensures text + " " != text
  {
    assert |text + " "| == |text| + 1;
  }

  lemma {:induction false} OtherStep(t: State, d: Id)
    requires d in t.held && d in t.heap && Mutable(t.heap[d])
    ensures Step(t, Change(d, Other(t.heap[d], d)), State(t.heap[d := Other(t.heap[d], d)], t.held))
  {
  }

  /** A changed object differs by itself, whatever has become of its parts. */
  lemma {:induction false} ChangedDiffers(h: map<Id, Cell>, d: Id, depth: nat)
    requires depth > 0 && d in h && Mutable(h[d])
    ensures Content(h[d := Other(h[d], d)], d, depth) != Content(h, d, depth)
  {
    var g := h[d := Other(h[d], d)];
    match h[d] {
      case DictCell(m) =>
        OtherKeys(m, d);
        assert Content(h, d, depth).entries.Keys == m.Keys;
        assert Content(g, d, depth).entries.Keys == g[d].entries.Keys;
      case ListCell(es) =>
        ContentsLength(h, es, depth - 1);
        ContentsLength(g, g[d].elems, depth - 1);
      case SetCell(es) =>
        ContentsLength(h, es, depth - 1);
        ContentsLength(g, g[d].elems, depth - 1);
      case ByteArrayCell(text) => LongerText(text);
      case ObjectCell(text, _) => LongerText(text);
    }
  }

  /** A view of a changed dict differs. */
  lemma {:induction false} ViewDiffers(h: map<Id, Cell>, id: Id, d: Id, depth: nat)
    requires depth > 0 && id in h && d in h && h[id] == ProxyCell(d) && h[d].DictCell?
    ensures Content(h[d := Other(h[d], d)], id, depth) != Content(h, id, depth)
  {
    var g := h[d := Other(h[d], d)];
    OtherKeys(h[d].entries, d);
    assert Content(h, id, depth).entries.Keys == h[d].entries.Keys;
    assert Content(g, id, depth).entries.Keys == g[d].entries.Keys;
  }

  lemma {:induction false} PartShows(h: map<Id, Cell>, g: map<Id, Cell>, id: Id, depth: nat, e: Id)
    requires depth > 0 && id in h && id in g && g[id] == h[id] && Entries(g, id) == Entries(h, id) && e in Children(h, id)
    requires h[id].ProxyCell? ==> h[id].target in h && h[h[id].target].DictCell? && h[id].target in g && g[h[id].target].DictCell?
    requires Content(g, e, depth - 1) != Content(h, e, depth - 1)
    ensures Content(g, id, depth) != Content(h, id, depth)
  {
    if e in Elements(h[id]) {
      ElementShows(g, h, Elements(h[id]), depth - 1, e);
    } else {
      var m := Entries(h, id);
      var k :| k in m && m[k] == e;
      assert Content(g, id, depth).entries[k] == Content(g, e, depth - 1);
      assert Content(h, id, depth).entries[k] == Content(h, e, depth - 1);
    }
  }

  /** Changing something that the content shows changes the content. */
  lemma {:induction false} ChangeShows(h: map<Id, Cell>, id: Id, depth: nat, d: Id)
    requires Complete(h, id, depth) && Shows(h, id, depth, d)
    ensures Content(h[d := Other(h[d], d)], id, depth) != Content(h, id, depth)
    decreases depth
  {
    if id == d {
      ChangedDiffers(h, d, depth);
    } else if h[id] == ProxyCell(d) {
      ViewDiffers(h, id, d, depth);
    } else {
      var e :| e in Children(h, id) && Shows(h, e, depth - 1, d);
      ChangeShows(h, e, depth - 1, d);
      PartShows(h, h[d := Other(h[d], d)], id, depth, e);
    }
  }

  /** Once somebody can reach such a thing, some run changes the content. */
  lemma {:induction false} OpenChanges(s: State, id: Id, depth: nat, d: Id) returns (acts: seq<Action>, t: State)
    requires Complete(s.heap, id, depth) && Shows(s.heap, id, depth, d) && CanReach(s, d)
    ensures Reaches(s, acts, t) && Content(t.heap, id, depth) != Content(s.heap, id, depth)
    ensures forall i | i in s.heap && i != d :: i in t.heap && t.heap[i] == s.heap[i]
  {
    var path :| Chain(s, path) && path[|path| - 1] == d;
    var u;
    acts, u := FollowChain(s, path);
    var act := Change(d, Other(s.heap[d], d));
    t := State(u.heap[d := Other(s.heap[d], d)], u.held);
    OtherStep(u, d);
    RunOn(s, acts, u, act, t);
    acts := acts + [act];
    ChangeShows(s.heap, id, depth, d);
  }

  /** No run changes the content of the object. */
  ghost predicate Constant(s: State, id: Id, depth: nat) {
    forall acts, t | Reaches(s, acts, t) :: Content(t.heap, id, depth) == Content(s.heap, id, depth)
  }

  /** The content of an object is constant exactly when nothing it shows that can change can be reached. */
  lemma {:induction false} ConstantExactly(s: State, id: Id, depth: nat)
    requires Complete(s.heap, id, depth)
    ensures Constant(s, id, depth) <==> Closed(s, id, depth)
  {
    if Closed(s, id, depth) {
      forall acts, t | Reaches(s, acts, t) ensures Content(t.heap, id, depth) == Content(s.heap, id, depth) {
        KeptAtFirst(s);
        KeptByRun(s, s, acts, t);
        ClosedSame(s, t, id, depth);
      }
    } else {
      var d :| Shows(s.heap, id, depth, d) && CanReach(s, d);
      var acts, t := OpenChanges(s, id, depth, d);
      assert Reaches(s, acts, t);
    }
  }

  // ---------------------------------------------------------------- what is_frozen overlooks

  /** Within the depth, and not inside an object of another kind, some proxy views the dict. */
  ghost predicate Viewed(heap: map<Id, Cell>, id: Id, depth: nat, d: Id)
    decreases depth
  {
    depth > 0 && id in heap && d in heap && heap[d].DictCell? && !heap[id].ObjectCell? &&
    (heap[id] == ProxyCell(d) || exists e | e in Children(heap, id) :: Viewed(heap, e, depth - 1, d))
  }

  /** Within the depth there is an object of another kind, and `d` is that object or something the object shows. */
  ghost predicate Unknown(heap: map<Id, Cell>, id: Id, depth: nat, d: Id)
    decreases depth
  {
    depth > 0 && id in heap &&
    if heap[id].ObjectCell? then Shows(heap, id, depth, d)
    else exists e | e in Children(heap, id) :: Unknown(heap, e, depth - 1, d)
  }

  /** In what `is_frozen` accepts, dicts behind views, and objects of other kinds with what they show, are all that can change. */
  lemma {:induction false} Overlooked(heap: map<Id, Cell>, id: Id, depth: nat, d: Id)
    requires IsFrozenAt(heap, id, depth)
    ensures Shows(heap, id, depth, d) <==> Viewed(heap, id, depth, d) || Unknown(heap, id, depth, d)
    decreases depth
  {
    if depth > 0 && !heap[id].ObjectCell? {
      forall e | e in Children(heap, id)
        ensures Shows(heap, e, depth - 1, d) <==> Viewed(heap, e, depth - 1, d) || Unknown(heap, e, depth - 1, d)
      {
        Overlooked(heap, e, depth - 1, d);
      }
      UnknownShows(heap, id, depth, d);
    }
  }

  lemma {:induction false} UnknownShows(heap: map<Id, Cell>, id: Id, depth: nat, d: Id)
    ensures Unknown(heap, id, depth, d) ==> d in heap && Mutable(heap[d])
    decreases depth
  {
    if Unknown(heap, id, depth, d) && !heap[id].ObjectCell? {
      var e :| e in Children(heap, id) && Unknown(heap, e, depth - 1, d);
      UnknownShows(heap, e, depth - 1, d);
    }
  }

  /**
   `is_frozen` is right about a value it accepts, which is to say that no run changes its content, exactly
   when following references from what the program holds leads neither to a dict that the value views nor to
   an object of another kind in it, or to what such an object shows.
   */
  lemma {:induction false} FrozenExactly(s: State, id: Id, depth: nat)
    requires IsFrozenAt(s.heap, id, depth) && Complete(s.heap, id, depth)
    ensures Constant(s, id, depth) <==>
            forall d | Viewed(s.heap, id, depth, d) || Unknown(s.heap, id, depth, d) :: !CanReach(s, d)
  {
    ConstantExactly(s, id, depth);
    forall d ensures Shows(s.heap, id, depth, d) <==> Viewed(s.heap, id, depth, d) || Unknown(s.heap, id, depth, d) {
      Overlooked(s.heap, id, depth, d);
    }
  }

  /** And then a pin over a cache that holds the object does not notice. */
  lemma {:induction false} PinMisses(s: State, container: Id, key: Frozen.Key, depth: nat, d: Id)
    returns (acts: seq<Action>, t: State)
    requires container in s.heap && s.heap[container].DictCell? && key in s.heap[container].entries && container != d
    requires var id := s.heap[container].entries[key]; Complete(s.heap, id, depth) && Shows(s.heap, id, depth, d)
    requires CanReach(s, d)
    ensures Reaches(s, acts, t) && Intact(Pin(container, s.heap[container].entries), container, t.heap)
    ensures Content(t.heap, t.heap[container].entries[key], depth) != Content(s.heap, s.heap[container].entries[key], depth)
  {
    acts, t := OpenChanges(s, s.heap[container].entries[key], depth, d);
  }

  /** The dict 1 is held, and the view 2 of it sits in the container 3: accepted at every depth, pinned, and changed. */
  lemma {:induction false} ViewIsNotAFreeze(k: Frozen.Key)
    ensures var s := State(map[0 := AtomCell(Frozen.NoneAtom), 1 := DictCell(map[k := 0]), 2 := ProxyCell(1),
                               3 := DictCell(map[k := 2])], {1, 3});
      && (forall depth: nat :: IsFrozenAt(s.heap, 2, depth))
      && exists acts, t :: Reaches(s, acts, t) && Intact(Pin(3, s.heap[3].entries), 3, t.heap) &&
                           Content(t.heap, 2, 2) != Content(s.heap, 2, 2)
  {
    var s := State(map[0 := AtomCell(Frozen.NoneAtom), 1 := DictCell(map[k := 0]), 2 := ProxyCell(1),
                       3 := DictCell(map[k := 2])], {1, 3});
    HeldReached(s, 1);
    var acts, t := PinMisses(s, 3, k, 2, 1);
    assert t.heap[3].entries[k] == 2;
  }

  /** A cache 3 with a frozen dict of one value, `deque([1])`, under a key. */
  function DequeState(k: Frozen.Key): State {
    State(map[0 := ObjectCell("deque([1])", []), 1 := DictCell(map[k := 0]), 2 := ProxyCell(1), 3 := DictCell(map[k := 2])], {3})
  }

  /** `deep_freeze` of the dict copies the dict and leaves the deque alone. */
  lemma {:induction false} DequeLeftAlone(k: Frozen.Key)
    ensures var deque := Frozen.Atom(Frozen.Other("deque([1])"));
      Frozen.DeepFreeze(Frozen.Dict([k], [deque])) == Frozen.Proxy([k], [deque])
  {
    var deque := Frozen.Atom(Frozen.Other("deque([1])"));
    assert Frozen.FreezeAll([deque]) == [deque];
  }

  lemma {:induction false} DequeAccepted(k: Frozen.Key)
    ensures forall depth: nat :: IsFrozenAt(DequeState(k).heap, 2, depth)
    ensures Hidden(DequeState(k), 1)
  {
  }

  /** Nobody holds the dict behind the view, `is_frozen` accepts the view at every depth, and a pin misses the change. */
  lemma {:induction false} DequeIsNotFrozen(k: Frozen.Key) returns (acts: seq<Action>, t: State)
    ensures Hidden(DequeState(k), 1) && forall depth: nat :: IsFrozenAt(DequeState(k).heap, 2, depth)
    ensures var s := DequeState(k);
      && Reaches(s, acts, t) && Intact(Pin(3, s.heap[3].entries), 3, t.heap)
      && Content(t.heap, t.heap[3].entries[k], 2) != Content(s.heap, s.heap[3].entries[k], 2)
  {
    var s := DequeState(k);
    DequeAccepted(k);
    DequeInView(s, k);
    acts, t := PinMisses(s, 3, k, 2, 0);
  }

  lemma {:induction false} DequeInView(s: State, k: Frozen.Key)
    requires s == DequeState(k)
    ensures Complete(s.heap, 2, 2) && Shows(s.heap, 2, 2, 0) && CanReach(s, 0)
  {
    HeldReached(s, 3);
    assert s.heap[3].entries[k] == 2;
    ReachOn(s, 3, 2);
    assert s.heap[1].entries[k] == 0;
    ReachOn(s, 2, 0);
    assert 0 in Children(s.heap, 2) && Shows(s.heap, 0, 1, 0);
  }

  // ---------------------------------------------------------------- what deep_freeze leaves behind

  lemma {:induction false} HiddenUnseen(s: State, d: Id, p: Id)
    requires Hidden(s, d) && p in s.heap
    ensures d !in Visible(s.heap[p], s.heap)
  {
  }

  lemma {:induction false} LastStep(s: State, path: seq<Id>)
    requires Chain(s, path) && |path| > 1
    ensures path[|path| - 2] in s.heap && path[|path| - 1] in Visible(s.heap[path[|path| - 2]], s.heap)
  {
    assert path[|path| - 2 + 1] in Visible(s.heap[path[|path| - 2]], s.heap);
  }

  lemma {:induction false} HiddenUnreached(s: State, d: Id)
    requires Hidden(s, d)
    ensures !CanReach(s, d)
  {
    forall path | Chain(s, path) ensures path[|path| - 1] != d {
      if |path| > 1 {
        LastStep(s, path);
        HiddenUnseen(s, d, path[|path| - 2]);
      }
    }
  }

  /** An object as `deep_freeze` makes it is accepted, and nothing it shows that can change can be reached. */
  lemma {:induction false} ImmutableClosed(s: State, id: Id, depth: nat)
    requires Immutable(s, id, depth)
    ensures IsFrozenAt(s.heap, id, depth) && Complete(s.heap, id, depth) && Closed(s, id, depth)
    decreases depth
  {
    if depth > 0 {
      forall e | e in Children(s.heap, id)
        ensures IsFrozenAt(s.heap, e, depth - 1) && Complete(s.heap, e, depth - 1) && Closed(s, e, depth - 1)
      {
        ImmutableChild(s, id, depth, e);
        ImmutableClosed(s, e, depth - 1);
      }
      AcceptsParts(s.heap, id, depth);
      if s.heap[id].ProxyCell? { HiddenUnreached(s, s.heap[id].target); }
    }
  }

  lemma {:induction false} ImmutableChild(s: State, id: Id, depth: nat, e: Id)
    requires depth > 0 && Immutable(s, id, depth) && e in Children(s.heap, id)
    ensures Immutable(s, e, depth - 1)
  {
  }

  lemma {:induction false} AcceptsParts(heap: map<Id, Cell>, id: Id, depth: nat)
    requires depth > 0 && id in heap && forall e | e in Children(heap, id) :: IsFrozenAt(heap, e, depth - 1)
    requires heap[id].AtomCell? || heap[id].TupleCell? || heap[id].FrozenSetCell? ||
             (heap[id].ProxyCell? && heap[id].target in heap && heap[heap[id].target].DictCell?)
    ensures IsFrozenAt(heap, id, depth)
  {
    match heap[id] {
      case TupleCell(es) => assert forall e | e in es :: e in Children(heap, id);
      case FrozenSetCell(es) => assert forall e | e in es :: e in Children(heap, id);
      case ProxyCell(t) => assert forall k | k in heap[t].entries :: heap[t].entries[k] in Children(heap, id);
      case AtomCell(_) =>
    }
  }
}
