/**
 When the assertions of a nested function are evaluated. The walk takes a function to be called as soon as
 its name occurs in a call; the exact condition is that no way through the code avoids the call.
 */
module NestedRuns {
  import opened Common
  import opened PyExpr
  import opened PyStmt
  import opened Triviality
  import opened Reachability
  import opened ReachabilitySound
  import opened PassingRuns
  import opened MissingRuns

  // ---------------------------------------------------------------- ways around a call

  /** There is a way through the block on which nothing ends early and `f` is not called for certain. */
  predicate FreeB(b: seq<Stmt>, f: string)
    decreases b, 1
  {
    b == [] || (Free(b[0], f) && FreeB(b[1..], f))
  }

  predicate Free(s: Stmt, f: string)
    decreases s, 0
  {
    match s
    case Assert(_, test, _, _) => f !in Sure(test)
    case If(test, body, orelse) =>
      f !in Sure(test) &&
      ((ConstTruth(test) != Some(false) && FreeB(body, f)) || (ConstTruth(test) != Some(true) && FreeB(orelse, f)))
    case While(test, _, orelse) => f !in Sure(test) && ConstTruth(test) != Some(true) && FreeB(orelse, f)
    case For(iter, body, orelse) =>
      f !in Sure(iter) && FreeB(orelse, f) && (ConstTruth(iter) == Some(true) ==> FreeB(body, f))
    case Try(body, _, orelse, final) => FreeB(body, f) && FreeB(orelse, f) && FreeB(final, f)
    case With(context, body) => f !in Sure(context) && FreeB(body, f)
    case ExprStmt(e) => !IsSkip(s) && f !in Sure(e)
    case FunctionDef(_, _) | Pass => true
    case _ => false
  }

  // ---------------------------------------------------------------- the functions that there are

  /** No function in the set defines another. */
  ghost predicate Flat(fns: set<Fn>) { forall g | g in fns :: !DefinesB(g.body) }

  lemma {:induction false} KeepsBlock(b: seq<Stmt>, r: Run, fns: set<Fn>, names: set<string>)
    requires Flat(fns) && !DefinesB(b)
    ensures Block(b, r, fns, names).defined == fns
    decreases r, 1
  {
    if r.Step? && b != [] {
      KeepsExec(b[0], r.first, fns, names);
      KeepsBlock(b[1..], r.rest, fns, names);
    }
  }

  lemma {:induction false} KeepsCalls(r: Run, fns: set<Fn>, names: set<string>)
    requires Flat(fns)
    ensures Calls(r, fns, names).defined == fns
    decreases r, 0
  {
    if r.Invoke? && r.callee in fns && r.callee.name in names {
      KeepsBlock(r.callee.body, r.inner, fns, names);
      KeepsCalls(r.more, fns, names);
    }
  }

  lemma {:induction false} KeepsEvaluation(e: Expr, r: Run, fns: set<Fn>, names: set<string>)
    requires r.Evaluate? && Flat(fns)
    ensures Evaluation(e, r, fns, names).eff.defined == fns
    decreases r, 0
  {
    KeepsCalls(r.calls, fns, names);
  }

  lemma {:induction false} KeepsExec(s: Stmt, r: Run, fns: set<Fn>, names: set<string>)
    requires Flat(fns) && !Defines(s)
    ensures Exec(s, r, fns, names).defined == fns
    decreases r, 3
  {
    match s {
      case If(test, body, orelse) =>
        if r.Evaluate? {
          KeepsEvaluation(test, r, fns, names);
          KeepsBlock(if Truthy(Evaluation(test, r, fns, names).v) then body else orelse, r.rest, fns, names);
        }
      case While(_, _, _) => KeepsWhile(s, r, fns, names);
      case For(iter, body, orelse) =>
        if r.Evaluate? {
          KeepsEvaluation(iter, r, fns, names);
          var it := Iterations(iter, Evaluation(iter, r, fns, names).v, r.env);
          if it.Some? { KeepsLoop(body, orelse, it.value.0, it.value.1, r.rest, fns, names); }
        }
      case Try(_, _, _, _) => KeepsTry(s, r, fns, names);
      case With(context, body) =>
        if r.Evaluate? && r.rest.Leave? {
          KeepsEvaluation(context, r, fns, names);
          KeepsBlock(body, r.rest.inner, fns, names);
        }
      case Assert(_, e, _, _) => if r.Evaluate? { KeepsEvaluation(e, r, fns, names); }
      case Return(e) => if r.Evaluate? { KeepsEvaluation(e, r, fns, names); }
      case Raise(e) => if r.Evaluate? { KeepsEvaluation(e, r, fns, names); }
      case ExprStmt(e) => if r.Evaluate? { KeepsEvaluation(e, r, fns, names); }
      case _ =>
    }
  }

  lemma {:induction false} KeepsWhile(s: Stmt, r: Run, fns: set<Fn>, names: set<string>)
    requires s.While? && Flat(fns) && !Defines(s)
    ensures Exec(s, r, fns, names).defined == fns
    decreases r, 2
  {
    if r.Evaluate? {
      KeepsEvaluation(s.test, r, fns, names);
      if !Truthy(Evaluation(s.test, r, fns, names).v) {
        KeepsBlock(s.orelse, r.rest, fns, names);
      } else if r.rest.Step? {
        KeepsBlock(s.body, r.rest.first, fns, names);
        KeepsWhile(s, r.rest.rest, fns, names);
      }
    }
  }

  lemma {:induction false} KeepsLoop(body: seq<Stmt>, orelse: seq<Stmt>, n: nat, fails: bool, r: Run, fns: set<Fn>,
                                     names: set<string>)
    requires Flat(fns) && !DefinesB(body) && !DefinesB(orelse)
    ensures Loop(body, orelse, n, fails, r, fns, names).defined == fns
    decreases r, 2
  {
    if n == 0 {
      KeepsBlock(orelse, r, fns, names);
    } else if r.Step? {
      KeepsBlock(body, r.first, fns, names);
      KeepsLoop(body, orelse, n - 1, fails, r.rest, fns, names);
    }
  }

  lemma {:induction false} KeepsTry(s: Stmt, r: Run, fns: set<Fn>, names: set<string>)
    requires s.Try? && Flat(fns) && !Defines(s)
    ensures Exec(s, r, fns, names).defined == fns
    decreases r, 2
  {
    if r.Handle? {
      KeepsBlock(s.body, r.attempt, fns, names);
      if r.handler < |s.handlers| {
        EachMay(s.handlers, r.handler, Normal, true);
        KeepsBlock(s.handlers[r.handler].body, r.follow, fns, names);
      }
      KeepsBlock(s.orelse, r.follow, fns, names);
      KeepsBlock(s.finalbody, r.cleanup, fns, names);
    }
  }

  // ---------------------------------------------------------------- no way around: the function is called

  /** The nested function: a helper without helpers of its own whose runs that come back miss nothing. */
  ghost predicate Helper(f: Fn) { !DefinesB(f.body) && SecureB(f.body, {Normal, Returned}, true) }

  /** A call that comes back evaluates what is due in the function. */
  lemma {:induction false} CalledCovers(r: Run, f: Fn, names: set<string>)
    requires Helper(f) && Calls(r, {f}, names).out == Normal && Invokes(r, f.name)
    ensures Due(f.body) <= Calls(r, {f}, names).seen
  {
    SecureBlock(f.body, r.inner, {f}, names, true, {Normal, Returned});
  }

  lemma {:induction false} SureCovers(e: Expr, r: Run, f: Fn, names: set<string>)
    requires r.Evaluate? && Helper(f) && Evaluation(e, r, {f}, names).eff.out == Normal && f.name in Sure(e)
    ensures Due(f.body) <= Evaluation(e, r, {f}, names).eff.seen
  {
    assert f in {f};
    CalledCovers(r.calls, f, names);
  }

  /** A run in which nothing ends early goes a free way, or evaluates what is due in the function. */
  lemma {:induction false} FreeOrCalled(b: seq<Stmt>, r: Run, f: Fn, names: set<string>)
    requires Helper(f) && !DefinesB(b) && Undisturbed(Block(b, r, {f}, names))
    ensures FreeB(b, f.name) || Due(f.body) <= Block(b, r, {f}, names).seen
    decreases r, 1
  {
    if b != [] {
      KeepsExec(b[0], r.first, {f}, names);
      FreeOrCalledIn(b[0], r.first, f, names);
      FreeOrCalled(b[1..], r.rest, f, names);
    }
  }

  lemma {:induction false} FreeOrCalledIn(s: Stmt, r: Run, f: Fn, names: set<string>)
    requires Helper(f) && !Defines(s) && Undisturbed(Exec(s, r, {f}, names))
    ensures Free(s, f.name) || Due(f.body) <= Exec(s, r, {f}, names).seen
    decreases r, 3
  {
    match s {
      case Assert(_, e, _, _) => if f.name in Sure(e) { SureCovers(e, r, f, names); }
      case ExprStmt(e) =>
        TerminatorLeaves(s, r, {f}, names);
        if f.name in Sure(e) { SureCovers(e, r, f, names); }
      case If(test, body, orelse) =>
        KeepsEvaluation(test, r, {f}, names);
        if f.name in Sure(test) {
          SureCovers(test, r, f, names);
        } else {
          var x := Evaluation(test, r, {f}, names);
          TruthKnown(test, r.env, Truthy(x.v));
          FreeOrCalled(if Truthy(x.v) then body else orelse, r.rest, f, names);
        }
      case While(_, _, _) => FreeOrCalledWhile(s, r, f, names);
      case For(_, _, _) => FreeOrCalledFor(s, r, f, names);
      case Try(_, _, _, _) => FreeOrCalledTry(s, r, f, names);
      case With(_, _) => FreeOrCalledWith(s, r, f, names);
      case _ =>
    }
  }

  lemma {:induction false} FreeOrCalledWith(s: Stmt, r: Run, f: Fn, names: set<string>)
    requires s.With? && Helper(f) && !Defines(s) && Undisturbed(Exec(s, r, {f}, names))
    ensures Free(s, f.name) || Due(f.body) <= Exec(s, r, {f}, names).seen
    decreases r, 2
  {
    KeepsEvaluation(s.context, r, {f}, names);
    if f.name in Sure(s.context) {
      SureCovers(s.context, r, f, names);
    } else {
      var y := Block(s.body, r.rest.inner, {f}, names);
      assert y.out == Normal && y.quiet;
      FreeOrCalled(s.body, r.rest.inner, f, names);
    }
  }

  lemma {:induction false} FreeOrCalledWhile(s: Stmt, r: Run, f: Fn, names: set<string>)
    requires s.While? && Helper(f) && !Defines(s) && Undisturbed(Exec(s, r, {f}, names))
    ensures Free(s, f.name) || Due(f.body) <= Exec(s, r, {f}, names).seen
    decreases r, 2
  {
    KeepsEvaluation(s.test, r, {f}, names);
    var x := Evaluation(s.test, r, {f}, names);
    if f.name in Sure(s.test) {
      SureCovers(s.test, r, f, names);
    } else if Truthy(x.v) {
      KeepsBlock(s.body, r.rest.first, {f}, names);
      FreeOrCalledWhile(s, r.rest.rest, f, names);
    } else {
      TruthKnown(s.test, r.env, false);
      FreeOrCalled(s.orelse, r.rest, f, names);
    }
  }

  lemma {:induction false} FreeOrCalledFor(s: Stmt, r: Run, f: Fn, names: set<string>)
    requires s.For? && Helper(f) && !Defines(s) && Undisturbed(Exec(s, r, {f}, names))
    ensures Free(s, f.name) || Due(f.body) <= Exec(s, r, {f}, names).seen
    decreases r, 2
  {
    KeepsEvaluation(s.iter, r, {f}, names);
    var x := Evaluation(s.iter, r, {f}, names);
    if f.name in Sure(s.iter) {
      SureCovers(s.iter, r, f, names);
    } else {
      var it := Iterations(s.iter, x.v, r.env).value;
      if ConstTruth(s.iter).Some? { ConstIterations(s.iter, r.env, 0); }
      FreeOrCalledLoop(s.body, s.orelse, it.0, it.1, r.rest, f, names);
    }
  }

  lemma {:induction false} FreeOrCalledLoop(body: seq<Stmt>, orelse: seq<Stmt>, n: nat, fails: bool, r: Run, f: Fn,
                                            names: set<string>)
    requires Helper(f) && !DefinesB(body) && !DefinesB(orelse) && Undisturbed(Loop(body, orelse, n, fails, r, {f}, names))
    ensures (FreeB(orelse, f.name) && (n > 0 ==> FreeB(body, f.name))) ||
            Due(f.body) <= Loop(body, orelse, n, fails, r, {f}, names).seen
    decreases r, 2
  {
    if n == 0 {
      FreeOrCalled(orelse, r, f, names);
    } else {
      KeepsBlock(body, r.first, {f}, names);
      FreeOrCalled(body, r.first, f, names);
      FreeOrCalledLoop(body, orelse, n - 1, fails, r.rest, f, names);
    }
  }

  lemma {:induction false} FreeOrCalledTry(s: Stmt, r: Run, f: Fn, names: set<string>)
    requires s.Try? && Helper(f) && !Defines(s) && Undisturbed(Exec(s, r, {f}, names))
    ensures Free(s, f.name) || Due(f.body) <= Exec(s, r, {f}, names).seen
    decreases r, 2
  {
    var x := Block(s.body, r.attempt, {f}, names);
    assert Undisturbed(x);
    KeepsBlock(s.body, r.attempt, {f}, names);
    KeepsBlock(s.orelse, r.follow, {f}, names);
    FreeOrCalled(s.body, r.attempt, f, names);
    FreeOrCalled(s.orelse, r.follow, f, names);
    FreeOrCalled(s.finalbody, r.cleanup, f, names);
  }

  // ---------------------------------------------------------------- a way around: a run that takes it

  /** Nothing ends early, and only assertions among `ids` are evaluated. */
  ghost predicate Quietly(x: Effect, fns: set<Fn>, ids: set<nat>) {
    x.out == Normal && x.quiet && x.defined == fns && x.seen <= ids
  }

  lemma {:induction false} EvaluateWithout(e: Expr, env: Env, rest: Run, f: Fn, names: set<string>)
    requires Eval(e, env, 0).Val? && f.name !in Sure(e)
    ensures Evaluation(e, Evaluate(Done, env, rest), {f}, names) == Evaluated(Effect(Normal, {}, {f}, true), Eval(e, env, 0).v)
  {
  }

  lemma {:induction false} WalkFree(b: seq<Stmt>, f: Fn, names: set<string>) returns (r: Run)
    requires OpenB(b) && FreeB(b, f.name)
    ensures Quietly(Block(b, r, {f}, names), {f}, Ids(b))
    decreases b, 1
  {
    if b == [] {
      r := Done;
    } else {
      var h := StepFree(b[0], f, names);
      var t := WalkFree(b[1..], f, names);
      r := Step(h, t);
    }
  }

  lemma {:induction false} StepFree(s: Stmt, f: Fn, names: set<string>) returns (r: Run)
    requires Open(s) && Free(s, f.name)
    ensures Quietly(Exec(s, r, {f}, names), {f}, IdsOf(s))
    decreases s, 2
  {
    match s {
      case Assert(_, test, _, _) =>
        var env: Env :| Eval(test, env, 0).Val? && Truthy(Eval(test, env, 0).v);
        r := Evaluate(Done, env, Done);
        EvaluateWithout(test, env, Done, f, names);
      case ExprStmt(e) =>
        var env := GiveAny(e);
        r := Evaluate(Done, env, Done);
        EvaluateWithout(e, env, Done, f, names);
      case If(_, _, _) => r := IfFree(s, f, names);
      case While(test, _, orelse) =>
        OpenTestIs(test);
        var env := GiveTruth(test, false);
        var t := WalkFree(orelse, f, names);
        r := Evaluate(Done, env, t);
        EvaluateWithout(test, env, t, f, names);
      case For(_, _, _) => r := ForFree(s, f, names);
      case Try(body, handlers, orelse, final) =>
        var x := WalkFree(body, f, names);
        var y := WalkFree(orelse, f, names);
        var z := WalkFree(final, f, names);
        r := Handle(x, 0, y, z);
      case With(context, body) =>
        var env := GiveAny(context);
        var t := WalkFree(body, f, names);
        r := Evaluate(Done, env, Leave(t, false, false));
        EvaluateWithout(context, env, Leave(t, false, false), f, names);
      case Pass => r := Done;
    }
  }

  lemma {:induction false} IfFree(s: Stmt, f: Fn, names: set<string>) returns (r: Run)
    requires s.If? && Open(s) && Free(s, f.name)
    ensures Quietly(Exec(s, r, {f}, names), {f}, IdsOf(s))
    decreases s, 1
  {
    OpenTestIs(s.test);
    var truth := ConstTruth(s.test) != Some(false) && FreeB(s.body, f.name);
    var env := GiveTruth(s.test, truth);
    var t := WalkFree(if truth then s.body else s.orelse, f, names);
    r := Evaluate(Done, env, t);
    EvaluateWithout(s.test, env, t, f, names);
  }

  lemma {:induction false} ForFree(s: Stmt, f: Fn, names: set<string>) returns (r: Run)
    requires s.For? && Open(s) && Free(s, f.name)
    ensures Quietly(Exec(s, r, {f}, names), {f}, IdsOf(s))
    decreases s, 1
  {
    var some := ConstTruth(s.iter) == Some(true);
    var env, n := GiveItems(s.iter, some);
    var t := Done;
    if some { t := WalkFree(s.body, f, names); }
    var tail := WalkFree(s.orelse, f, names);
    r := Evaluate(Done, env, Rounds(t, n, tail));
    EvaluateWithout(s.iter, env, Rounds(t, n, tail), f, names);
    if some {
      RoundsLoop(s.body, s.orelse, n, t, tail, {f}, names);
    } else {
      assert Loop(s.body, s.orelse, 0, false, tail, {f}, names) == Block(s.orelse, tail, {f}, names);
    }
  }

  // ---------------------------------------------------------------- the result

  lemma {:induction false} DefineFirst(f: Fn, rest: seq<Stmt>, r: Run)
    ensures var body := [FunctionDef(f.name, f.body)] + rest;
      r.Step? ==> RunOf(body, r) == Block(rest, r.rest, {f}, Invoked(body))
  {
    var body := [FunctionDef(f.name, f.body)] + rest;
    assert body[1..] == rest;
    if r.Step? { assert Exec(body[0], r.first, {}, Invoked(body)) == Effect(Normal, {}, {f}, true); }
  }

  /**
   A function that starts with a nested helper whose name occurs in a call: what is due in the helper is
   REACHABLE, and every run in which nothing ends early evaluates it exactly when no way through the rest
   avoids the call.
   */
  lemma {:induction false} NestedExactly(f: Fn, rest: seq<Stmt>, id: nat)
    requires Helper(f) && OpenB(rest) && id in Due(f.body) && id !in Ids(rest)
    requires f.name in Invoked([FunctionDef(f.name, f.body)] + rest)
    ensures var body := [FunctionDef(f.name, f.body)] + rest;
      && (id, REACHABLE) in Visits(body, REACHABLE, Invoked(body))
      && ((forall r | Undisturbed(RunOf(body, r)) :: id in RunOf(body, r).seen) <==> !FreeB(rest, f.name))
  {
    var body := [FunctionDef(f.name, f.body)] + rest;
    assert body[1..] == rest;
    DueVisits(f.body, Invoked(body), id);
    assert (id, REACHABLE) in VisitsOf(body[0], REACHABLE, Invoked(body));
    OpenNothingNested(rest);
    if FreeB(rest, f.name) {
      var t := WalkFree(rest, f, Invoked(body));
      DefineFirst(f, rest, Step(Done, t));
      assert Undisturbed(RunOf(body, Step(Done, t))) && id !in RunOf(body, Step(Done, t)).seen;
    } else {
      forall r | Undisturbed(RunOf(body, r)) ensures id in RunOf(body, r).seen {
        DefineFirst(f, rest, r);
        FreeOrCalled(rest, r.rest, f, Invoked(body));
      }
    }
  }
}
