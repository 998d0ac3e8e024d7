module PyStmt {
  // Statements of a test function and their meaning.
  //
  // A run of a function is driven by a `Run`, a finite tree that supplies whatever the statements do
  // not determine: the environment each expression is evaluated in, the nested functions an evaluation
  // calls, the handler that catches an exception, and whether a context manager swallows one. A run
  // that ends in `Halt`, or in a tree of the wrong shape, has been cut off there, so the runs of a
  // diverging function are covered by their finite prefixes. The rules follow the Python Language
  // Reference, sections 7.3, 7.6 and 7.8 to 7.10 (assert, return, raise, break, continue) and 8.1 to
  // 8.5 and 8.7 (if, while, for, try, with, function definitions).

  import opened PyExpr

  datatype Handler = Handler(body: seq<Stmt>)                // one `except` clause

  datatype Stmt =
    | Assert(id: nat, test: Expr, classes: set<string>, tokens: set<string>)
    | If(test: Expr, body: seq<Stmt>, orelse: seq<Stmt>)
    | For(iter: Expr, body: seq<Stmt>, orelse: seq<Stmt>)
    | While(test: Expr, body: seq<Stmt>, orelse: seq<Stmt>)
    | Try(body: seq<Stmt>, handlers: seq<Handler>, orelse: seq<Stmt>, finalbody: seq<Stmt>)
    | With(context: Expr, body: seq<Stmt>)
    | FunctionDef(name: string, body: seq<Stmt>)
    | Return(value: Expr)
    | Raise(value: Expr)
    | Break
    | Continue
    | ExprStmt(value: Expr)                 // an expression, or any other simple statement
    | Pass

  /** `pytest.skip(...)`, `pytest.xfail(...)` and `pytest.exit(...)` end the test by raising. */
  predicate IsSkip(s: Stmt) {
    s.ExprStmt? && s.value.AttrCall? && s.value.base == "pytest" && s.value.attr in ["skip", "xfail", "exit"]
  }

  predicate IsTerminator(s: Stmt) { s.Return? || s.Raise? || s.Continue? || s.Break? }

  // ---------------------------------------------------------------- names called

  function Called(e: Expr): set<string> {
    match e
    case Constant(_) => {}
    case Tuple(es) => CalledAll(es)
    case List(es) => CalledAll(es)
    case Set(es) => CalledAll(es)
    case Dict(ks, vs) => CalledAll(ks) + CalledAll(vs)
    case Lambda(x) => Called(x)
    case Call(f, args, _) => {f} + CalledAll(args)
    case AttrCall(_, _, args) => CalledAll(args)
    case Compare(l, _, r) => Called(l) + Called(r)
    case BoolOp(_, es) => CalledAll(es)
    case Not(x) => Called(x)
    case Neg(x) => Called(x)
    case Pos(x) => Called(x)
    case Opaque(_, es) => CalledAll(es)
  }

  function CalledAll(es: seq<Expr>): set<string> {
    if es == [] then {} else Called(es[0]) + CalledAll(es[1..])
  }

  /** The names called whenever evaluating the expression gives a value: not those in a lambda or after an `and` or `or`. */
  function Sure(e: Expr): set<string> {
    match e
    case Constant(_) | Lambda(_) | Opaque(_, _) => {}
    case Tuple(es) => SureAll(es)
    case List(es) => SureAll(es)
    case Set(es) => SureAll(es)
    case Dict(ks, vs) => SureAll(ks) + SureAll(vs)
    case Call(f, args, _) => {f} + SureAll(args)
    case AttrCall(_, _, args) => SureAll(args)
    case Compare(l, _, r) => Sure(l) + Sure(r)
    case BoolOp(_, es) => if es == [] then {} else Sure(es[0])
    case Not(x) => Sure(x)
    case Neg(x) => Sure(x)
    case Pos(x) => Sure(x)
  }

  function SureAll(es: seq<Expr>): set<string> {
    if es == [] then {} else Sure(es[0]) + SureAll(es[1..])
  }

  /** The names called anywhere in a body, nested bodies included. */
  function Invoked(b: seq<Stmt>): set<string> {
    if b == [] then {} else InvokedBy(b[0]) + Invoked(b[1..])
  }

  function InvokedBy(s: Stmt): set<string> {
    match s
    case Assert(_, test, _, _) => Called(test)
    case If(test, body, orelse) => Called(test) + Invoked(body) + Invoked(orelse)
    case For(iter, body, orelse) => Called(iter) + Invoked(body) + Invoked(orelse)
    case While(test, body, orelse) => Called(test) + Invoked(body) + Invoked(orelse)
    case Try(body, handlers, orelse, final) =>
      Invoked(body) + InvokedEach(handlers) + Invoked(orelse) + Invoked(final)
    case With(context, body) => Called(context) + Invoked(body)
    case FunctionDef(_, body) => Invoked(body)
    case Return(e) => Called(e)
    case Raise(e) => Called(e)
    case ExprStmt(e) => Called(e)
    case Break | Continue | Pass => {}
  }

  function InvokedEach(hs: seq<Handler>): set<string> {
    if hs == [] then {} else Invoked(hs[0].body) + InvokedEach(hs[1..])
  }

  // ---------------------------------------------------------------- runs

  datatype Fn = Fn(name: string, body: seq<Stmt>)

  datatype Outcome = Normal | Returned | Raised | Broke | Continued | Cut

  datatype Run =
    | Halt                                                    // cut off here
    | Done                                                    // nothing more to do
    | Step(first: Run, rest: Run)                             // one part, then the rest
    | Evaluate(calls: Run, env: Env, rest: Run)               // an expression, then the rest
    | Invoke(callee: Fn, inner: Run, more: Run)               // a nested call, then further ones
    | Handle(attempt: Run, handler: nat, follow: Run, cleanup: Run)
    | Leave(inner: Run, swallows: bool, fails: bool)          // a `with` body and its exit

  /**
   What executing something did: how it ended, which assertions were evaluated, which nested
   functions have been defined, and whether every statement in it completed
   normally.
   */
  datatype Effect = Effect(out: Outcome, seen: set<nat>, defined: set<Fn>, quiet: bool)

  ghost function CutOff(fns: set<Fn>): Effect { Effect(Cut, {}, fns, false) }

  ghost function After(a: Effect, b: Effect): Effect {
    Effect(b.out, a.seen + b.seen, b.defined, a.quiet && b.quiet)
  }

  /** An effect that must end the enclosing statement with `out`. */
  ghost function Abrupt(a: Effect, out: Outcome): Effect { Effect(out, a.seen, a.defined, false) }

  ghost function Block(b: seq<Stmt>, r: Run, fns: set<Fn>, names: set<string>): (result: Effect)
    ensures result.quiet ==> result.out == Normal
    decreases r, 1
  {
    match r
    case Done => if b == [] then Effect(Normal, {}, fns, true) else CutOff(fns)
    case Step(h, t) =>
      if b == [] then CutOff(fns)
      else
        var x := Exec(b[0], h, fns, names);
        if x.out != Normal then x else After(x, Block(b[1..], t, x.defined, names))
    case _ => CutOff(fns)
  }

  /** Nested functions called while an expression is evaluated, by any name; only defined ones can be. */
  ghost function Calls(r: Run, fns: set<Fn>, names: set<string>): (result: Effect)
    ensures result.quiet ==> result.out == Normal
    decreases r, 0
  {
    match r
    case Done => Effect(Normal, {}, fns, true)
    case Invoke(f, inner, more) =>
      if f !in fns || f.name !in names then CutOff(fns)
      else
        var x := Block(f.body, inner, fns, names);
        if x.out == Normal || x.out == Returned
        then After(x.(quiet := true), Calls(more, x.defined, names))
        else if x.out == Raised then Abrupt(x, Raised) else Abrupt(x, Cut)
    case _ => CutOff(fns)
  }

  /** A function of this name is among those called. */
  predicate Invokes(r: Run, name: string) { r.Invoke? && (r.callee.name == name || Invokes(r.more, name)) }

  /** The nested functions whose call the evaluation cannot do without have been called. */
  ghost predicate Answered(e: Expr, r: Run, fns: set<Fn>) {
    forall f | f in fns && f.name in Sure(e) :: Invokes(r, f.name)
  }

  /** The effect of evaluating `e`, and its value when that ends normally. */
  datatype Evaluated = Evaluated(eff: Effect, v: Value)

  ghost function Evaluation(e: Expr, r: Run, fns: set<Fn>, names: set<string>): (result: Evaluated)
    requires r.Evaluate?
    ensures result.eff.quiet ==> result.eff.out == Normal
    decreases r, 0
  {
    var c := Calls(r.calls, fns, names);
    if c.out != Normal then Evaluated(c, VConst(NoneValue))
    else
      match Eval(e, r.env, 0)
      case Raises => Evaluated(Abrupt(c, Raised), VConst(NoneValue))
      case Val(v, _) => if Answered(e, r.calls, fns) then Evaluated(c, v) else Evaluated(Abrupt(c, Cut), v)
  }

  ghost function Exec(s: Stmt, r: Run, fns: set<Fn>, names: set<string>): (result: Effect)
    ensures result.quiet ==> result.out == Normal
    decreases r, 2
  {
    match s
    case Assert(id, test, _, _) =>
      if !r.Evaluate? then CutOff(fns)
      else
        var x := Evaluation(test, r, fns, names);
        var eff := x.eff.(seen := x.eff.seen + {id});
        if x.eff.out == Normal && !Truthy(x.v) then Abrupt(eff, Raised) else eff
    case If(test, body, orelse) =>
      if !r.Evaluate? then CutOff(fns)
      else
        var x := Evaluation(test, r, fns, names);
        if x.eff.out != Normal then x.eff
        else After(x.eff, Block(if Truthy(x.v) then body else orelse, r.rest, x.eff.defined, names))
    case While(test, body, orelse) =>
      if !r.Evaluate? then CutOff(fns)
      else
        var x := Evaluation(test, r, fns, names);
        if x.eff.out != Normal then x.eff
        else if !Truthy(x.v) then After(x.eff, Block(orelse, r.rest, x.eff.defined, names))
        else if !r.rest.Step? then After(x.eff, CutOff(x.eff.defined))
        else
          var y := After(x.eff, Block(body, r.rest.first, x.eff.defined, names));
          if y.out == Normal || y.out == Continued then After(y, Exec(s, r.rest.rest, y.defined, names))
          else if y.out == Broke then Abrupt(y, Normal) else y
    case For(iter, body, orelse) =>
      if !r.Evaluate? then CutOff(fns)
      else
        var x := Evaluation(iter, r, fns, names);
        if x.eff.out != Normal then x.eff
        else
          (match Iterations(iter, x.v, r.env)
           case None => Abrupt(x.eff, Raised)
           case Some((n, fails)) => After(x.eff, Loop(body, orelse, n, fails, r.rest, x.eff.defined, names)))
    case Try(body, handlers, orelse, final) =>
      if !r.Handle? then CutOff(fns)
      else
        var x := Block(body, r.attempt, fns, names);
        var y := if x.out == Raised && r.handler < |handlers|
                 then After(x, Block(handlers[r.handler].body, r.follow, x.defined, names))
                 else if x.out == Normal then After(x, Block(orelse, r.follow, x.defined, names))
                 else x;
        if y.out == Cut then y
        else
          var z := After(y, Block(final, r.cleanup, y.defined, names));
          if z.out == Normal then z.(out := y.out) else z
    case With(context, body) =>
      if !r.Evaluate? || !r.rest.Leave? then CutOff(fns)
      else
        var x := Evaluation(context, r, fns, names);
        if x.eff.out != Normal then x.eff
        else
          var y := After(x.eff, Block(body, r.rest.inner, x.eff.defined, names));
          if y.out == Cut then y
          else if r.rest.fails then Abrupt(y, Raised)
          else if y.out == Raised && r.rest.swallows then Abrupt(y, Normal) else y
    case FunctionDef(name, body) => Effect(Normal, {}, fns + {Fn(name, body)}, true)
    case Return(e) => Leaving(e, r, Returned, fns, names)
    case Raise(e) => Leaving(e, r, Raised, fns, names)
    case Break => Effect(Broke, {}, fns, false)
    case Continue => Effect(Continued, {}, fns, false)
    case ExprStmt(e) => if IsSkip(s) then Leaving(e, r, Raised, fns, names)
                        else if !r.Evaluate? then CutOff(fns) else Evaluation(e, r, fns, names).eff
    case Pass => Effect(Normal, {}, fns, true)
  }

  /** A statement that evaluates `e` and then leaves with `out`. */
  ghost function Leaving(e: Expr, r: Run, out: Outcome, fns: set<Fn>, names: set<string>): (result: Effect)
    ensures result.quiet ==> result.out == Normal
    decreases r, 1
  {
    if !r.Evaluate? then CutOff(fns)
    else
      var x := Evaluation(e, r, fns, names).eff;
      if x.out != Normal then x else Abrupt(x, out)
  }

  /** The remaining `n` rounds of a `for` loop, whose iterable raises after them if `fails`. */
  ghost function Loop(body: seq<Stmt>, orelse: seq<Stmt>, n: nat, fails: bool, r: Run, fns: set<Fn>,
                      names: set<string>): (result: Effect)
    ensures result.quiet ==> result.out == Normal
    decreases r, 2
  {
    if n == 0 then
      if fails then Effect(Raised, {}, fns, false) else Block(orelse, r, fns, names)
    else if !r.Step? then CutOff(fns)
    else
      var x := Block(body, r.first, fns, names);
      if x.out == Normal || x.out == Continued
      then After(x, Loop(body, orelse, n - 1, fails, r.rest, x.defined, names))
      else if x.out == Broke then Abrupt(x, Normal) else x
  }

  /** What a run of a function with this body does. */
  ghost function RunOf(body: seq<Stmt>, r: Run): Effect {
    Block(body, r, {}, Invoked(body))
  }
}
