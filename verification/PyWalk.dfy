module PyWalk {
  // What a traversal of a whole syntax tree finds, described by the parts of its nodes, and that the
  // collections made by recursion are complete: the names called, and the assertions, in a function.

  import opened PyExpr
  import opened PyStmt

  // ---------------------------------------------------------------- expressions

  /** The expressions directly inside an expression. */
  function Parts(e: Expr): (ps: seq<Expr>)
    ensures forall p | p in ps :: p < e
  {
    match e
    case Constant(_) => []
    case Tuple(es) => es
    case List(es) => es
    case Set(es) => es
    case Dict(ks, vs) => ks + vs
    case Lambda(x) => [x]
    case Call(_, args, _) => args
    case AttrCall(_, _, args) => args
    case Compare(l, _, r) => [l, r]
    case BoolOp(_, es) => es
    case Not(x) => [x]
    case Neg(x) => [x]
    case Pos(x) => [x]
    case Opaque(_, es) => es
  }

  /** `x` is a node of the tree of `e`. */
  ghost predicate Node(x: Expr, e: Expr)
    decreases e
  {
    x == e || exists p | p in Parts(e) :: Node(x, p)
  }

  /** A call through the bare name `f` occurs in the expression. */
  ghost predicate CallsName(e: Expr, f: string) { exists args, keywords :: Node(Call(f, args, keywords), e) }

  lemma {:induction false} CalledAllIs(es: seq<Expr>, f: string)
    ensures f in CalledAll(es) <==> exists x | x in es :: f in Called(x)
  {
    if es != [] {
      CalledAllIs(es[1..], f);
      assert es == [es[0]] + es[1..];
      assert forall x | x in es[1..] :: x in es;
      if f in Called(es[0]) { assert es[0] in es; }
    }
  }

  /** The names called from the node itself and from its parts. */
  lemma {:induction false} CalledParts(e: Expr, f: string)
    ensures f in Called(e) <==> (e.Call? && e.func == f) || exists p | p in Parts(e) :: f in Called(p)
  {
    match e {
      case Tuple(es) => CalledAllIs(es, f);
      case List(es) => CalledAllIs(es, f);
      case Set(es) => CalledAllIs(es, f);
      case Dict(ks, vs) =>
        CalledAllIs(ks, f);
        CalledAllIs(vs, f);
      case Lambda(x) => assert x in Parts(e);
      case Call(_, args, _) => CalledAllIs(args, f);
      case AttrCall(_, _, args) => CalledAllIs(args, f);
      case Compare(l, _, r) => assert l in Parts(e) && r in Parts(e);
      case BoolOp(_, es) => CalledAllIs(es, f);
      case Not(x) => assert x in Parts(e);
      case Neg(x) => assert x in Parts(e);
      case Pos(x) => assert x in Parts(e);
      case Opaque(_, es) => CalledAllIs(es, f);
      case Constant(_) =>
    }
  }

  lemma {:induction false} NodeUp(x: Expr, e: Expr, p: Expr)
    requires p in Parts(e) && Node(x, p)
    ensures Node(x, e)
  {
  }

  lemma {:induction false} NodeDown(x: Expr, e: Expr) returns (p: Expr)
    requires Node(x, e) && x != e
    ensures p in Parts(e) && Node(x, p)
  {
    p :| p in Parts(e) && Node(x, p);
  }

  lemma {:induction false} CallsUp(e: Expr, p: Expr, f: string)
    requires p in Parts(e) && CallsName(p, f)
    ensures CallsName(e, f)
  {
    var args, keywords :| Node(Call(f, args, keywords), p);
    NodeUp(Call(f, args, keywords), e, p);
  }

  lemma {:induction false} CallsDown(e: Expr, f: string) returns (p: Expr)
    requires CallsName(e, f) && !(e.Call? && e.func == f)
    ensures p in Parts(e) && CallsName(p, f)
  {
    var args, keywords :| Node(Call(f, args, keywords), e);
    p := NodeDown(Call(f, args, keywords), e);
  }

  lemma {:induction false} CallsHere(e: Expr)
    requires e.Call?
    ensures CallsName(e, e.func)
  {
    assert Node(Call(e.func, e.args, e.keywords), e);
  }

  /** The names collected from an expression are those of all the calls in it. */
  lemma {:induction false} CalledExactly(e: Expr, f: string)
    ensures f in Called(e) <==> CallsName(e, f)
    decreases e
  {
    CalledParts(e, f);
    forall p | p in Parts(e) ensures f in Called(p) <==> CallsName(p, f) { CalledExactly(p, f); }
    if e.Call? && e.func == f {
      CallsHere(e);
    } else if f in Called(e) {
      var p :| p in Parts(e) && f in Called(p);
      CallsUp(e, p, f);
    } else if CallsName(e, f) {
      var p := CallsDown(e, f);
    }
  }

  /** A call that always happens is one of them. */
  lemma {:induction false} SureCalled(e: Expr)
    ensures Sure(e) <= Called(e)
    decreases e, 1
  {
    match e {
      case Tuple(es) => SureAllCalled(es);
      case List(es) => SureAllCalled(es);
      case Set(es) => SureAllCalled(es);
      case Dict(ks, vs) =>
        SureAllCalled(ks);
        SureAllCalled(vs);
      case Call(_, args, _) => SureAllCalled(args);
      case AttrCall(_, _, args) => SureAllCalled(args);
      case Compare(l, _, r) =>
        SureCalled(l);
        SureCalled(r);
      case BoolOp(_, es) => if es != [] { SureCalled(es[0]); }
      case Not(x) => SureCalled(x);
      case Neg(x) => SureCalled(x);
      case Pos(x) => SureCalled(x);
      case _ =>
    }
  }

  lemma {:induction false} SureAllCalled(es: seq<Expr>)
    ensures SureAll(es) <= CalledAll(es)
    decreases es, 0
  {
    if es != [] {
      SureCalled(es[0]);
      SureAllCalled(es[1..]);
    }
  }

  // ---------------------------------------------------------------- statements

  /** The expressions directly inside a statement. */
  function Heads(s: Stmt): seq<Expr> {
    match s
    case Assert(_, test, _, _) => [test]
    case If(test, _, _) => [test]
    case For(iter, _, _) => [iter]
    case While(test, _, _) => [test]
    case With(context, _) => [context]
    case Return(e) => [e]
    case Raise(e) => [e]
    case ExprStmt(e) => [e]
    case Try(_, _, _, _) | FunctionDef(_, _) | Break | Continue | Pass => []
  }

  /** `x` is a statement of the block, at any depth. */
  ghost predicate Inside(x: Stmt, b: seq<Stmt>)
    decreases b, 1
  {
    exists s | s in b :: x == s || Under(x, s)
  }

  ghost predicate Under(x: Stmt, s: Stmt)
    decreases s, 0
  {
    match s
    case If(_, body, orelse) => Inside(x, body) || Inside(x, orelse)
    case For(_, body, orelse) => Inside(x, body) || Inside(x, orelse)
    case While(_, body, orelse) => Inside(x, body) || Inside(x, orelse)
    case Try(body, handlers, orelse, final) =>
      Inside(x, body) || (exists h | h in handlers :: Inside(x, h.body)) || Inside(x, orelse) || Inside(x, final)
    case With(_, body) => Inside(x, body)
    case FunctionDef(_, body) => Inside(x, body)
    case _ => false
  }

  /** A call through the bare name `f` occurs in some statement of the block. */
  ghost predicate CallsIn(b: seq<Stmt>, f: string) { exists x, e :: Inside(x, b) && e in Heads(x) && CallsName(e, f) }

  ghost predicate CallsUnder(s: Stmt, f: string) { exists x, e :: (x == s || Under(x, s)) && e in Heads(x) && CallsName(e, f) }

  lemma {:induction false} InsideSplit(x: Stmt, b: seq<Stmt>)
    requires b != []
    ensures Inside(x, b) <==> x == b[0] || Under(x, b[0]) || Inside(x, b[1..])
  {
    assert b == [b[0]] + b[1..] && b[0] in b;
    assert forall s | s in b[1..] :: s in b;
  }

  lemma {:induction false} CallsInSplit(b: seq<Stmt>, f: string)
    requires b != []
    ensures CallsIn(b, f) <==> CallsUnder(b[0], f) || CallsIn(b[1..], f)
  {
    forall x ensures Inside(x, b) <==> x == b[0] || Under(x, b[0]) || Inside(x, b[1..]) { InsideSplit(x, b); }
  }

  /** The names collected from a function are those of all the calls in it. */
  lemma {:induction false} InvokedExactly(b: seq<Stmt>, f: string)
    ensures f in Invoked(b) <==> CallsIn(b, f)
    decreases b, 2
  {
    if b != [] {
      InvokedByExactly(b[0], f);
      InvokedExactly(b[1..], f);
      CallsInSplit(b, f);
    }
  }

  ghost predicate CallsInHeads(s: Stmt, f: string) { exists e | e in Heads(s) :: CallsName(e, f) }

  ghost predicate CallsInHandlers(hs: seq<Handler>, f: string) { exists h | h in hs :: CallsIn(h.body, f) }

  /** The calls of a statement are those of its own expressions and of its blocks. */
  lemma {:induction false} CallsUnderParts(s: Stmt, f: string)
    ensures CallsUnder(s, f) <==> CallsInHeads(s, f) || CallsBelow(s, f)
  {
    if CallsInHeads(s, f) { assert CallsUnder(s, f); }
    if CallsBelow(s, f) {
      var x, e :| Under(x, s) && e in Heads(x) && CallsName(e, f);
      assert CallsUnder(s, f);
    }
  }

  ghost predicate CallsBelow(s: Stmt, f: string) { exists x, e :: Under(x, s) && e in Heads(x) && CallsName(e, f) }

  lemma {:induction false} CallsBelowIs(s: Stmt, f: string)
    ensures CallsBelow(s, f) <==>
      match s
      case If(_, body, orelse) => CallsIn(body, f) || CallsIn(orelse, f)
      case For(_, body, orelse) => CallsIn(body, f) || CallsIn(orelse, f)
      case While(_, body, orelse) => CallsIn(body, f) || CallsIn(orelse, f)
      case Try(body, handlers, orelse, final) =>
        CallsIn(body, f) || CallsInHandlers(handlers, f) || CallsIn(orelse, f) || CallsIn(final, f)
      case With(_, body) => CallsIn(body, f)
      case FunctionDef(_, body) => CallsIn(body, f)
      case _ => false
  {
  }

  lemma {:induction false} InvokedByExactly(s: Stmt, f: string)
    ensures f in InvokedBy(s) <==> CallsUnder(s, f)
    decreases s, 1
  {
    CallsUnderParts(s, f);
    CallsBelowIs(s, f);
    forall e | e in Heads(s) { CalledExactly(e, f); }
    match s {
      case If(test, body, orelse) =>
        InvokedExactly(body, f);
        InvokedExactly(orelse, f);
        assert test in Heads(s);
      case For(iter, body, orelse) =>
        InvokedExactly(body, f);
        InvokedExactly(orelse, f);
        assert iter in Heads(s);
      case While(test, body, orelse) =>
        InvokedExactly(body, f);
        InvokedExactly(orelse, f);
        assert test in Heads(s);
      case Try(body, handlers, orelse, final) =>
        InvokedExactly(body, f);
        InvokedEachExactly(handlers, f);
        InvokedExactly(orelse, f);
        InvokedExactly(final, f);
      case With(context, body) =>
        InvokedExactly(body, f);
        assert context in Heads(s);
      case FunctionDef(_, body) => InvokedExactly(body, f);
      case Assert(_, test, _, _) => assert test in Heads(s);
      case Return(e) => assert e in Heads(s);
      case Raise(e) => assert e in Heads(s);
      case ExprStmt(e) => assert e in Heads(s);
      case _ =>
    }
  }

  lemma {:induction false} InvokedEachExactly(hs: seq<Handler>, f: string)
    ensures f in InvokedEach(hs) <==> CallsInHandlers(hs, f)
    decreases hs, 1
  {
    if hs != [] {
      InvokedExactly(hs[0].body, f);
      InvokedEachExactly(hs[1..], f);
      assert forall h | h in hs :: h == hs[0] || h in hs[1..];
    }
  }
}
