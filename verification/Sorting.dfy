/** Python's `sorted`: a stable insertion sort over a total preorder, and what it guarantees. */
module Sorting {

  type Order<!T> = (T, T) -> bool

  ghost predicate Total<T(!new)>(le: Order<T>) { forall a, b :: le(a, b) || le(b, a) }

  ghost predicate Transitive<T(!new)>(le: Order<T>) { forall a, b, c :: le(a, b) && le(b, c) ==> le(a, c) }

  ghost predicate Preorder<T(!new)>(le: Order<T>) { Total(le) && Transitive(le) }

  ghost predicate Ordered<T>(xs: seq<T>, le: Order<T>) {
    forall i, j | 0 <= i < j < |xs| :: le(xs[i], xs[j])
  }

  /** Places `x` before the first element it does not come after. */
  function Insert<T>(x: T, xs: seq<T>, le: Order<T>): (r: seq<T>)
    ensures multiset(r) == multiset([x]) + multiset(xs)
  {
    if xs == [] then [x]
    else if le(x, xs[0]) then
      assert [x] + xs == [x] + xs;
      [x] + xs
    else
      assert xs == [xs[0]] + xs[1..];
      [xs[0]] + Insert(x, xs[1..], le)
  }

  function Sort<T>(xs: seq<T>, le: Order<T>): (r: seq<T>)
    ensures multiset(r) == multiset(xs)
  {
    if xs == [] then []
    else
      assert xs == [xs[0]] + xs[1..];
      Insert(xs[0], Sort(xs[1..], le), le)
  }

  lemma {:induction false} InsertOrdered<T(!new)>(x: T, xs: seq<T>, le: Order<T>)
    requires Preorder(le) && Ordered(xs, le)
    ensures Ordered(Insert(x, xs, le), le)
  {
    if xs != [] && !le(x, xs[0]) {
      var rest := Insert(x, xs[1..], le);
      InsertOrdered(x, xs[1..], le);
      forall j | 0 <= j < |rest| ensures le(xs[0], rest[j]) {
        assert rest[j] in multiset(rest);
        assert rest[j] == x || rest[j] in xs[1..];
      }
    }
  }

  lemma {:induction false} SortOrdered<T(!new)>(xs: seq<T>, le: Order<T>)
    requires Preorder(le)
    ensures Ordered(Sort(xs, le), le)
  {
    if xs != [] {
      SortOrdered(xs[1..], le);
      InsertOrdered(xs[0], Sort(xs[1..], le), le);
    }
  }

  /** Only equal elements of `xs` are level with each other. */
  ghost predicate Strict<T(!new)>(xs: seq<T>, le: Order<T>) {
    forall a, b | a in xs && b in xs && le(a, b) && le(b, a) :: a == b
  }

  lemma {:induction false} HeadsAgree<T(!new)>(xs: seq<T>, ys: seq<T>, le: Order<T>)
    requires Ordered(xs, le) && Ordered(ys, le) && multiset(xs) == multiset(ys) && Strict(xs, le) && Total(le)
    requires xs != [] && ys != []
    ensures xs[0] == ys[0]
  {
    assert xs[0] in multiset(ys) && ys[0] in multiset(xs);
    var i :| 0 <= i < |ys| && ys[i] == xs[0];
    var j :| 0 <= j < |xs| && xs[j] == ys[0];
    assert le(xs[0], xs[j]) && le(ys[0], ys[i]);
  }

  lemma {:induction false} OrderedTail<T(!new)>(xs: seq<T>, le: Order<T>)
    requires Ordered(xs, le) && xs != []
    ensures Ordered(xs[1..], le)
  {
  }

  lemma {:induction false} StrictTail<T(!new)>(xs: seq<T>, le: Order<T>)
    requires Strict(xs, le) && xs != []
    ensures Strict(xs[1..], le)
  {
    assert forall x | x in xs[1..] :: x in xs;
  }

  lemma {:induction false} TailBags<T(!new)>(xs: seq<T>, ys: seq<T>)
    requires xs != [] && ys != [] && xs[0] == ys[0] && multiset(xs) == multiset(ys)
    ensures multiset(xs[1..]) == multiset(ys[1..])
  {
    assert xs == [xs[0]] + xs[1..] && ys == [xs[0]] + ys[1..];
    assert multiset(xs[1..]) == multiset(xs) - multiset([xs[0]]) == multiset(ys[1..]);
  }

  lemma {:induction false} OrderedUnique<T(!new)>(xs: seq<T>, ys: seq<T>, le: Order<T>)
    requires Ordered(xs, le) && Ordered(ys, le) && multiset(xs) == multiset(ys) && Strict(xs, le) && Total(le)
    ensures xs == ys
  {
    assert |xs| == |multiset(xs)| == |multiset(ys)| == |ys|;
    if xs != [] {
      HeadsAgree(xs, ys, le);
      OrderedTail(xs, le);
      OrderedTail(ys, le);
      StrictTail(xs, le);
      TailBags(xs, ys);
      OrderedUnique(xs[1..], ys[1..], le);
      assert xs == [xs[0]] + xs[1..] && ys == [xs[0]] + ys[1..];
    }
  }

  /** Sorting forgets the order its input came in, as long as only equal elements are level. */
  lemma {:induction false} SortPermutation<T(!new)>(xs: seq<T>, ys: seq<T>, le: Order<T>)
    requires Preorder(le) && multiset(xs) == multiset(ys) && Strict(xs, le)
    ensures Sort(xs, le) == Sort(ys, le)
  {
    SortOrdered(xs, le);
    SortOrdered(ys, le);
    forall a | a in Sort(xs, le) ensures a in xs { assert a in multiset(xs); }
    OrderedUnique(Sort(xs, le), Sort(ys, le), le);
  }

  function Map<A, B>(xs: seq<A>, f: A -> B): (r: seq<B>)
    ensures |r| == |xs| && forall i | 0 <= i < |r| :: r[i] == f(xs[i])
  {
    if xs == [] then [] else [f(xs[0])] + Map(xs[1..], f)
  }

  lemma {:induction false} MapSplit<A, B>(xs: seq<A>, ys: seq<A>, f: A -> B)
    ensures Map(xs + ys, f) == Map(xs, f) + Map(ys, f)
  {
  }

  /** Where the head of `xs` sits in a rearrangement of `xs`. */
  lemma {:induction false} HeadIn<A>(xs: seq<A>, ys: seq<A>) returns (front: seq<A>, back: seq<A>)
    requires multiset(xs) == multiset(ys) && xs != []
    ensures ys == front + [xs[0]] + back && multiset(xs[1..]) == multiset(front + back)
  {
    assert xs[0] in multiset(ys);
    var i :| 0 <= i < |ys| && ys[i] == xs[0];
    front, back := ys[..i], ys[i + 1..];
    assert ys == front + [ys[i]] + back;
    BagOfTail(xs, front, back);
  }

  lemma {:induction false} BagOfTail<A>(xs: seq<A>, front: seq<A>, back: seq<A>)
    requires xs != [] && multiset(xs) == multiset(front + [xs[0]] + back)
    ensures multiset(xs[1..]) == multiset(front + back)
  {
    assert xs == [xs[0]] + xs[1..];
    var one, tail := multiset([xs[0]]), multiset(xs[1..]);
    assert multiset(xs) == one + tail;
    assert multiset(front + [xs[0]] + back) == multiset(front) + one + multiset(back);
    assert one + tail == one + multiset(front + back);
    assert tail == (one + tail) - one;
  }

  /** Mapping a rearrangement gives a rearrangement of the map. */
  lemma {:induction false} MapBag<A, B>(xs: seq<A>, ys: seq<A>, f: A -> B)
    requires multiset(xs) == multiset(ys)
    ensures multiset(Map(xs, f)) == multiset(Map(ys, f))
    decreases |xs|
  {
    if xs == [] {
      assert |ys| == |multiset(ys)| == 0;
    } else {
      var front, back := HeadIn(xs, ys);
      MapBag(xs[1..], front + back, f);
      MapSplit(front + [xs[0]], back, f);
      MapSplit(front, [xs[0]], f);
      MapSplit(front, back, f);
      assert Map(xs, f) == [f(xs[0])] + Map(xs[1..], f);
      assert Map([xs[0]], f) == [f(xs[0])];
    }
  }

  lemma {:induction false} InsertMap<A, B>(x: A, xs: seq<A>, f: A -> B, le: Order<A>, le': Order<B>)
    requires forall y | y in xs :: le(x, y) == le'(f(x), f(y))
    ensures Map(Insert(x, xs, le), f) == Insert(f(x), Map(xs, f), le')
  {
    if xs != [] && !le(x, xs[0]) { InsertMap(x, xs[1..], f, le, le'); }
  }

  /** Sorting by a key and then mapping is mapping and then sorting, if the map keeps the key. */
  lemma {:induction false} SortMap<A, B>(xs: seq<A>, f: A -> B, le: Order<A>, le': Order<B>)
    requires forall x, y | x in xs && y in xs :: le(x, y) == le'(f(x), f(y))
    ensures Map(Sort(xs, le), f) == Sort(Map(xs, f), le')
  {
    if xs != [] {
      SortMap(xs[1..], f, le, le');
      forall y | y in Sort(xs[1..], le) ensures y in xs { assert y in multiset(Sort(xs[1..], le)); }
      InsertMap(xs[0], Sort(xs[1..], le), f, le, le');
    }
  }

  function Filter<T>(xs: seq<T>, p: T -> bool): seq<T> {
    if xs == [] then [] else If(xs[0], p) + Filter(xs[1..], p)
  }

  function If<T>(x: T, p: T -> bool): seq<T> { if p(x) then [x] else [] }

  lemma {:induction false} FilterCons<T>(x: T, xs: seq<T>, p: T -> bool)
    ensures Filter([x] + xs, p) == If(x, p) + Filter(xs, p)
  {
    assert ([x] + xs)[1..] == xs;
  }

  lemma {:induction false} EitherFirst<T>(a: seq<T>, b: seq<T>, c: seq<T>)
    requires a == [] || b == []
    ensures a + (b + c) == b + (a + c)
  {
  }

  lemma {:induction false} InsertStable<T>(x: T, xs: seq<T>, le: Order<T>, p: T -> bool)
    requires forall y | y in xs && p(x) && p(y) :: le(x, y)
    ensures Filter(Insert(x, xs, le), p) == If(x, p) + Filter(xs, p)
  {
    if xs == [] || le(x, xs[0]) {
      FilterCons(x, xs, p);
      assert Insert(x, xs, le) == [x] + xs;
    } else {
      InsertStable(x, xs[1..], le, p);
      FilterCons(xs[0], Insert(x, xs[1..], le), p);
      EitherFirst(If(x, p), If(xs[0], p), Filter(xs[1..], p));
    }
  }

  /** Sorting keeps elements that are level with each other in order. */
  lemma {:induction false} SortStable<T>(xs: seq<T>, le: Order<T>, p: T -> bool)
    requires forall x, y | x in xs && y in xs && p(x) && p(y) :: le(x, y)
    ensures Filter(Sort(xs, le), p) == Filter(xs, p)
  {
    if xs != [] {
      SortStable(xs[1..], le, p);
      forall y | y in Sort(xs[1..], le) ensures y in xs { assert y in multiset(Sort(xs[1..], le)); }
      InsertStable(xs[0], Sort(xs[1..], le), le, p);
    }
  }

  /** Comparison of strings by code point, as Python compares them. */
  predicate StringLe(a: string, b: string) {
    a == "" || (b != "" && (a[0] < b[0] || (a[0] == b[0] && StringLe(a[1..], b[1..]))))
  }

  lemma {:induction false} StringLeTotal(a: string, b: string)
    ensures StringLe(a, b) || StringLe(b, a)
  {
    if a != "" && b != "" && a[0] == b[0] { StringLeTotal(a[1..], b[1..]); }
  }

  lemma {:induction false} StringLeTransitive(a: string, b: string, c: string)
    requires StringLe(a, b) && StringLe(b, c)
    ensures StringLe(a, c)
  {
    if a != "" && a[0] == b[0] && b[0] == c[0] { StringLeTransitive(a[1..], b[1..], c[1..]); }
  }

  lemma {:induction false} StringLeStrict(a: string, b: string)
    requires StringLe(a, b) && StringLe(b, a)
    ensures a == b
  {
    if a != "" {
      StringLeStrict(a[1..], b[1..]);
      assert a == [a[0]] + a[1..] && b == [b[0]] + b[1..];
    }
  }

  lemma {:induction false} StringLeOrder()
    ensures Preorder(StringLe)
    ensures forall a, b | StringLe(a, b) && StringLe(b, a) :: a == b
  {
    forall a, b ensures StringLe(a, b) || StringLe(b, a) { StringLeTotal(a, b); }
    forall a, b, c | StringLe(a, b) && StringLe(b, c) ensures StringLe(a, c) { StringLeTransitive(a, b, c); }
    forall a, b | StringLe(a, b) && StringLe(b, a) ensures a == b { StringLeStrict(a, b); }
  }
}
