module PassingRuns {
  // When a passing run evaluates every REACHABLE assertion: a check on the syntax of a function, and why
  // it suffices. That it is also necessary is proved in `MissingRuns`.
  //
  // `MayEnd` says how a statement can end, `Due` which assertions the walk classifies REACHABLE, and
  // `Secure` that no run that ends in one of some ways misses one of those.

  import opened PyExpr
  import opened PyStmt
  import opened Triviality
  import opened Reachability
  import opened ReachabilitySound
  import opened Common

  const ALL: set<Outcome> := {Normal, Returned, Raised, Broke, Continued}

  // ---------------------------------------------------------------- how a statement can end

  /** A function is defined somewhere in the body. */
  predicate DefinesB(b: seq<Stmt>)
    decreases b, 1
  {
    b != [] && (Defines(b[0]) || DefinesB(b[1..]))
  }

  predicate Defines(s: Stmt)
    decreases s, 0
  {
    match s
    case If(_, body, orelse) => DefinesB(body) || DefinesB(orelse)
    case For(_, body, orelse) => DefinesB(body) || DefinesB(orelse)
    case While(_, body, orelse) => DefinesB(body) || DefinesB(orelse)
    case Try(body, handlers, orelse, final) => DefinesB(body) || DefinesEach(handlers) || DefinesB(orelse) || DefinesB(final)
    case With(_, body) => DefinesB(body)
    case FunctionDef(_, _) => true
    case _ => false
  }

  predicate DefinesEach(hs: seq<Handler>)
    decreases hs, 1
  {
    hs != [] && (DefinesB(hs[0].body) || DefinesEach(hs[1..]))
  }

  /** Evaluating the expression gives a value whatever the surroundings: it is made of literals. */
  predicate Simple(e: Expr) {
    match e
    case Constant(_) | Lambda(_) => true
    case Tuple(es) => forall x | x in es :: Simple(x)
    case List(es) => forall x | x in es :: Simple(x)
    case Set(es) => forall x | x in es :: x.Constant?
    case Dict(ks, vs) => |ks| == |vs| && (forall x | x in ks :: x.Constant?) && forall x | x in vs :: Simple(x)
    case Not(x) => Simple(x)
    case _ => false
  }

  /** A display or a string. */
  predicate Iterable(e: Expr) { e.Tuple? || e.List? || e.Set? || e.Dict? || (e.Constant? && e.c.Str?) }

  /** Evaluating the expression may raise; `calls` says that there are nested functions it might call. */
  predicate MayRaise(e: Expr, calls: bool) { calls || !Simple(e) }

  /** And so may iterating over its value. */
  predicate MayFail(e: Expr, calls: bool) { MayRaise(e, calls) || !Iterable(e) }

  lemma {:induction false} SimpleValue(e: Expr, env: Env, n: nat)
    requires Simple(e)
    ensures Eval(e, env, n).Val?
    decreases e, 1
  {
    match e {
      case Tuple(es) => SimpleValues(es, env, n);
      case List(es) => SimpleValues(es, env, n);
      case Set(es) =>
        SimpleValues(es, env, n);
        ConstantsHash(es, env, n);
      case Dict(ks, vs) =>
        SimpleValues(ks, env, n);
        ConstantsHash(ks, env, n);
        SimpleValues(vs, env, EvalAll(ks, env, n).next);
      case Not(x) => SimpleValue(x, env, n);
      case _ =>
    }
  }

  lemma {:induction false} SimpleValues(es: seq<Expr>, env: Env, n: nat)
    requires forall x | x in es :: Simple(x)
    ensures EvalAll(es, env, n).Vals? && Length(EvalAll(es, env, n).vs) == |es|
    decreases es, 0
  {
    if es != [] {
      SimpleValue(es[0], env, n);
      SimpleValues(es[1..], env, Eval(es[0], env, n).next);
    }
  }

  lemma {:induction false} ConstantsHash(es: seq<Expr>, env: Env, n: nat)
    requires (forall x | x in es :: x.Constant?) && EvalAll(es, env, n).Vals?
    ensures AllHashable(EvalAll(es, env, n).vs)
  {
    if es != [] { ConstantsHash(es[1..], env, Eval(es[0], env, n).next); }
  }

  /** A display or a string can be iterated over to its end. */
  lemma {:induction false} IterableIterates(e: Expr, env: Env)
    requires Iterable(e) && Eval(e, env, 0).Val?
    ensures var it := Iterations(e, Eval(e, env, 0).v, env); it.Some? && !it.value.1
  {
  }

  predicate MayEndB(b: seq<Stmt>, o: Outcome, calls: bool)
    decreases b, 1
  {
    if b == [] then o == Normal
    else (o != Normal && MayEnd(b[0], o, calls)) || (MayEnd(b[0], Normal, calls) && MayEndB(b[1..], o, calls))
  }

  /** The body of a loop ends so, and with it the loop, without its `else` branch. */
  predicate MayLeave(body: seq<Stmt>, o: Outcome, calls: bool)
    decreases body, 2
  {
    (o == Normal && MayEndB(body, Broke, calls)) || ((o == Returned || o == Raised) && MayEndB(body, o, calls))
  }

  predicate MayGoOn(body: seq<Stmt>, calls: bool)
    decreases body, 2
  {
    MayEndB(body, Normal, calls) || MayEndB(body, Continued, calls)
  }

  predicate MayEndEach(hs: seq<Handler>, o: Outcome, calls: bool)
    decreases hs, 1
  {
    hs != [] && (MayEndB(hs[0].body, o, calls) || MayEndEach(hs[1..], o, calls))
  }

  /** How a `try` statement can stand when its `finally` clause starts. */
  predicate MayArrive(s: Stmt, o: Outcome, calls: bool)
    requires s.Try?
    decreases s, 0
  {
    || (o != Normal && MayEndB(s.body, o, calls))
    || (MayEndB(s.body, Normal, calls) && MayEndB(s.orelse, o, calls))
    || (MayEndB(s.body, Raised, calls) && MayEndEach(s.handlers, o, calls))
  }

  predicate MayEnd(s: Stmt, o: Outcome, calls: bool)
    decreases s, 1
  {
    match s
    case Assert(_, _, _, _) => o == Normal || o == Raised
    case If(test, body, orelse) =>
      || (o == Raised && MayRaise(test, calls))
      || (ConstTruth(test) != Some(false) && MayEndB(body, o, calls))
      || (ConstTruth(test) != Some(true) && MayEndB(orelse, o, calls))
    case While(test, body, orelse) =>
      || (o == Raised && MayRaise(test, calls))
      || (ConstTruth(test) != Some(false) && MayLeave(body, o, calls))
      || (ConstTruth(test) != Some(true) && MayEndB(orelse, o, calls))
    case For(iter, body, orelse) =>
      || (o == Raised && MayFail(iter, calls))
      || (ConstTruth(iter) != Some(false) && MayLeave(body, o, calls))
      || ((ConstTruth(iter) == Some(true) ==> MayGoOn(body, calls)) && MayEndB(orelse, o, calls))
    case Try(_, _, _, final) =>
      || (MayEndB(final, Normal, calls) && MayArrive(s, o, calls))
      || (o != Normal && MayEndB(final, o, calls) && exists y | y in ALL :: MayArrive(s, y, calls))
    case With(context, body) =>
      || (o == Raised && (MayRaise(context, calls) || exists y | y in ALL :: MayEndB(body, y, calls)))
      || MayEndB(body, o, calls) || (o == Normal && MayEndB(body, Raised, calls))
    case Return(e) => o == Returned || (o == Raised && MayRaise(e, calls))
    case Raise(_) => o == Raised
    case Break => o == Broke
    case Continue => o == Continued
    case ExprStmt(e) => if IsSkip(s) then o == Raised else o == Normal || (o == Raised && MayRaise(e, calls))
    case FunctionDef(_, _) | Pass => o == Normal
  }

  // ---------------------------------------------------------------- every run ends in such a way

  /** Nothing can be called unless there are nested functions. */
  ghost predicate Callable(fns: set<Fn>, calls: bool) { calls || fns == {} }

  ghost predicate Ends(x: Effect, may: bool, calls: bool) { Callable(x.defined, calls) && (x.out == Cut || may) }

  lemma {:induction false} CallsEnd(r: Run, fns: set<Fn>, names: set<string>, calls: bool)
    requires Callable(fns, calls)
    ensures var x := Calls(r, fns, names);
      x.out in {Normal, Raised, Cut} && (x.out == Raised ==> calls) && Callable(x.defined, calls)
    decreases r
  {
    if r.Invoke? && r.callee in fns && r.callee.name in names {
      CallsEnd(r.more, Block(r.callee.body, r.inner, fns, names).defined, names, calls);
    }
  }

  lemma {:induction false} EvaluationEnds(e: Expr, r: Run, fns: set<Fn>, names: set<string>, calls: bool)
    requires r.Evaluate? && Callable(fns, calls)
    ensures var x := Evaluation(e, r, fns, names).eff;
      x.out in {Normal, Raised, Cut} && (x.out == Raised ==> MayRaise(e, calls)) && Callable(x.defined, calls)
    ensures var x := Evaluation(e, r, fns, names); x.eff.out == Normal ==> Eval(e, r.env, 0).Val? && x.v == Eval(e, r.env, 0).v
  {
    CallsEnd(r.calls, fns, names, calls);
    if Simple(e) { SimpleValue(e, r.env, 0); }
  }

  lemma {:induction false} BlockEnds(b: seq<Stmt>, r: Run, fns: set<Fn>, names: set<string>, calls: bool)
    requires Callable(fns, calls) && (calls || !DefinesB(b))
    ensures var x := Block(b, r, fns, names); Ends(x, MayEndB(b, x.out, calls), calls)
    decreases r, 1
  {
    if r.Step? && b != [] {
      ExecEnds(b[0], r.first, fns, names, calls);
      var x := Exec(b[0], r.first, fns, names);
      if x.out == Normal { BlockEnds(b[1..], r.rest, x.defined, names, calls); }
    }
  }

  lemma {:induction false} ExecEnds(s: Stmt, r: Run, fns: set<Fn>, names: set<string>, calls: bool)
    requires Callable(fns, calls) && (calls || !Defines(s))
    ensures var x := Exec(s, r, fns, names); Ends(x, MayEnd(s, x.out, calls), calls)
    decreases r, 3
  {
    match s {
      case If(_, _, _) => IfEnds(s, r, fns, names, calls);
      case While(_, _, _) => WhileEnds(s, r, fns, names, calls);
      case For(_, _, _) => ForEnds(s, r, fns, names, calls);
      case Try(_, _, _, _) => TryEnds(s, r, fns, names, calls);
      case With(_, _) => WithEnds(s, r, fns, names, calls);
      case _ => SimpleEnds(s, r, fns, names, calls);
    }
  }

  lemma {:induction false} SimpleEnds(s: Stmt, r: Run, fns: set<Fn>, names: set<string>, calls: bool)
    requires Callable(fns, calls) && (calls || !Defines(s)) && !s.If? && !s.While? && !s.For? && !s.Try? && !s.With?
    ensures var x := Exec(s, r, fns, names); Ends(x, MayEnd(s, x.out, calls), calls)
  {
    match s {
      case Assert(_, test, _, _) => if r.Evaluate? { EvaluationEnds(test, r, fns, names, calls); }
      case Return(e) => if r.Evaluate? { EvaluationEnds(e, r, fns, names, calls); }
      case Raise(e) => if r.Evaluate? { EvaluationEnds(e, r, fns, names, calls); }
      case ExprStmt(e) => if r.Evaluate? { EvaluationEnds(e, r, fns, names, calls); }
      case _ =>
    }
  }

  lemma {:induction false} TruthKnown(e: Expr, env: Env, truth: bool)
    requires Eval(e, env, 0).Val? && Truthy(Eval(e, env, 0).v) == truth
    ensures ConstTruth(e) != Some(!truth)
  {
    if ConstTruth(e).Some? { ConstTruthSound(e, env, 0); }
  }

  lemma {:induction false} IfEnds(s: Stmt, r: Run, fns: set<Fn>, names: set<string>, calls: bool)
    requires s.If? && Callable(fns, calls) && (calls || !Defines(s))
    ensures var x := Exec(s, r, fns, names); Ends(x, MayEnd(s, x.out, calls), calls)
    decreases r, 2
  {
    if r.Evaluate? {
      EvaluationEnds(s.test, r, fns, names, calls);
      var x := Evaluation(s.test, r, fns, names);
      if x.eff.out == Normal {
        TruthKnown(s.test, r.env, Truthy(x.v));
        BlockEnds(if Truthy(x.v) then s.body else s.orelse, r.rest, x.eff.defined, names, calls);
      }
    }
  }

  lemma {:induction false} WhileEnds(s: Stmt, r: Run, fns: set<Fn>, names: set<string>, calls: bool)
    requires s.While? && Callable(fns, calls) && (calls || !Defines(s))
    ensures var x := Exec(s, r, fns, names); Ends(x, MayEnd(s, x.out, calls), calls)
    decreases r, 2
  {
    if r.Evaluate? {
      EvaluationEnds(s.test, r, fns, names, calls);
      var x := Evaluation(s.test, r, fns, names);
      if x.eff.out == Normal {
        TruthKnown(s.test, r.env, Truthy(x.v));
        if !Truthy(x.v) {
          BlockEnds(s.orelse, r.rest, x.eff.defined, names, calls);
        } else if r.rest.Step? {
          BlockEnds(s.body, r.rest.first, x.eff.defined, names, calls);
          var y := Block(s.body, r.rest.first, x.eff.defined, names);
          if y.out == Normal || y.out == Continued { WhileEnds(s, r.rest.rest, y.defined, names, calls); }
        }
      }
    }
  }

  lemma {:induction false} ForEnds(s: Stmt, r: Run, fns: set<Fn>, names: set<string>, calls: bool)
    requires s.For? && Callable(fns, calls) && (calls || !Defines(s))
    ensures var x := Exec(s, r, fns, names); Ends(x, MayEnd(s, x.out, calls), calls)
    decreases r, 2
  {
    if r.Evaluate? {
      EvaluationEnds(s.iter, r, fns, names, calls);
      var x := Evaluation(s.iter, r, fns, names);
      if x.eff.out == Normal && Iterable(s.iter) { IterableIterates(s.iter, r.env); }
      if x.eff.out == Normal && Iterations(s.iter, x.v, r.env).Some? {
        var it := Iterations(s.iter, x.v, r.env).value;
        if ConstTruth(s.iter).Some? { ConstIterations(s.iter, r.env, 0); }
        LoopEnds(s.body, s.orelse, it.0, it.1, r.rest, x.eff.defined, names, calls);
      }
    }
  }

  /** How a `for` loop over `n` items can end. */
  predicate LoopMayEnd(body: seq<Stmt>, orelse: seq<Stmt>, n: nat, fails: bool, o: Outcome, calls: bool) {
    || (n > 0 && MayLeave(body, o, calls))
    || ((n > 0 ==> MayGoOn(body, calls)) && if fails then o == Raised else MayEndB(orelse, o, calls))
  }

  lemma {:induction false} LoopEnds(body: seq<Stmt>, orelse: seq<Stmt>, n: nat, fails: bool, r: Run, fns: set<Fn>,
                                    names: set<string>, calls: bool)
    requires Callable(fns, calls) && (calls || (!DefinesB(body) && !DefinesB(orelse)))
    ensures var x := Loop(body, orelse, n, fails, r, fns, names); Ends(x, LoopMayEnd(body, orelse, n, fails, x.out, calls), calls)
    decreases r, 2
  {
    if n == 0 {
      if !fails { BlockEnds(orelse, r, fns, names, calls); }
    } else if r.Step? {
      BlockEnds(body, r.first, fns, names, calls);
      var x := Block(body, r.first, fns, names);
      if x.out == Normal || x.out == Continued { LoopEnds(body, orelse, n - 1, fails, r.rest, x.defined, names, calls); }
    }
  }

  lemma {:induction false} EachMay(hs: seq<Handler>, i: nat, o: Outcome, calls: bool)
    requires i < |hs|
    ensures MayEndB(hs[i].body, o, calls) ==> MayEndEach(hs, o, calls)
    ensures DefinesB(hs[i].body) ==> DefinesEach(hs)
  {
    if i > 0 { EachMay(hs[1..], i - 1, o, calls); }
  }

  /** Where a run of a `try` statement stands when its `finally` clause starts. */
  ghost function Arrival(s: Stmt, r: Run, fns: set<Fn>, names: set<string>): Effect
    requires s.Try? && r.Handle?
  {
    var x := Block(s.body, r.attempt, fns, names);
    if x.out == Raised && r.handler < |s.handlers| then
      After(x, Block(s.handlers[r.handler].body, r.follow, x.defined, names))
    else if x.out == Normal then After(x, Block(s.orelse, r.follow, x.defined, names))
    else x
  }

  lemma {:induction false} ArrivalEnds(s: Stmt, r: Run, fns: set<Fn>, names: set<string>, calls: bool)
    requires s.Try? && r.Handle? && Callable(fns, calls) && (calls || !Defines(s))
    ensures var x := Arrival(s, r, fns, names); Ends(x, MayArrive(s, x.out, calls), calls)
    decreases r, 1
  {
    BlockEnds(s.body, r.attempt, fns, names, calls);
    var x := Block(s.body, r.attempt, fns, names);
    if x.out == Raised && r.handler < |s.handlers| {
      var h := s.handlers[r.handler].body;
      EachMay(s.handlers, r.handler, Block(h, r.follow, x.defined, names).out, calls);
      BlockEnds(h, r.follow, x.defined, names, calls);
    } else if x.out == Normal {
      BlockEnds(s.orelse, r.follow, x.defined, names, calls);
    }
  }

  lemma {:induction false} TryEnds(s: Stmt, r: Run, fns: set<Fn>, names: set<string>, calls: bool)
    requires s.Try? && Callable(fns, calls) && (calls || !Defines(s))
    ensures var x := Exec(s, r, fns, names); Ends(x, MayEnd(s, x.out, calls), calls)
    decreases r, 2
  {
    if r.Handle? {
      ArrivalEnds(s, r, fns, names, calls);
      var y := Arrival(s, r, fns, names);
      if y.out != Cut {
        assert y.out in ALL;
        BlockEnds(s.finalbody, r.cleanup, y.defined, names, calls);
      }
    }
  }

  lemma {:induction false} WithEnds(s: Stmt, r: Run, fns: set<Fn>, names: set<string>, calls: bool)
    requires s.With? && Callable(fns, calls) && (calls || !Defines(s))
    ensures var x := Exec(s, r, fns, names); Ends(x, MayEnd(s, x.out, calls), calls)
    decreases r, 2
  {
    if r.Evaluate? && r.rest.Leave? {
      EvaluationEnds(s.context, r, fns, names, calls);
      var x := Evaluation(s.context, r, fns, names).eff;
      if x.out == Normal {
        BlockEnds(s.body, r.rest.inner, x.defined, names, calls);
        var y := Block(s.body, r.rest.inner, x.defined, names);
        assert y.out == Cut || y.out in ALL;
      }
    }
  }

  // ---------------------------------------------------------------- the assertions that are due

  /** The assertions outside nested functions that the walk classifies REACHABLE in live code. */
  function Due(b: seq<Stmt>): set<nat>
    decreases b, 1
  {
    if b == [] then {} else DueOf(b[0]) + (if IsTerminator(b[0]) || IsSkip(b[0]) then {} else Due(b[1..]))
  }

  function DueOf(s: Stmt): set<nat>
    decreases s, 0
  {
    match s
    case Assert(id, _, _, _) => {id}
    case If(test, body, orelse) =>
      (match ConstTruth(test) case None => {} case Some(truth) => if truth then Due(body) else Due(orelse))
    case For(iter, body, orelse) => (if ConstTruth(iter) == Some(true) then Due(body) else {}) + Due(orelse)
    case While(test, body, orelse) => (if ConstTruth(test) == Some(true) then Due(body) else {}) + Due(orelse)
    case Try(body, _, _, final) => Due(body) + Due(final)
    case With(_, body) => Due(body)
    case _ => {}
  }

  /** The visits of code that is not live, or of nested functions, are not due. */
  lemma {:induction false} VisitsDue(b: seq<Stmt>, names: set<string>, v: Visit)
    requires v in Visits(b, REACHABLE, names) && v.1 == REACHABLE && v.0 !in Nested(b)
    ensures v.0 in Due(b)
    decreases b, 1
  {
    if v in VisitsOf(b[0], REACHABLE, names) {
      VisitsOfDue(b[0], names, v);
    } else if IsTerminator(b[0]) || IsSkip(b[0]) {
      Capped(b[1..], UNREACHABLE, names);
      assert false;
    } else {
      VisitsDue(b[1..], names, v);
    }
  }

  lemma {:induction false} VisitsOfDue(s: Stmt, names: set<string>, v: Visit)
    requires v in VisitsOf(s, REACHABLE, names) && v.1 == REACHABLE && v.0 !in NestedOf(s)
    ensures v.0 in DueOf(s)
    decreases s, 0
  {
    match s {
      case If(test, body, orelse) =>
        if v in Visits(body, Guarded(test, REACHABLE), names) {
          Capped(body, Guarded(test, REACHABLE), names);
          VisitsDue(body, names, v);
        } else {
          Capped(orelse, Negated(test, REACHABLE), names);
          VisitsDue(orelse, names, v);
        }
      case For(iter, body, orelse) => LoopVisitsDue(s, iter, body, orelse, names, v);
      case While(test, body, orelse) => LoopVisitsDue(s, test, body, orelse, names, v);
      case Try(body, handlers, orelse, final) =>
        if v in Visits(body, REACHABLE, names) {
          VisitsDue(body, names, v);
        } else if v in Visits(final, REACHABLE, names) {
          VisitsDue(final, names, v);
        } else {
          CappedEach(handlers, CONDITIONAL, names);
          Capped(orelse, CONDITIONAL, names);
          assert false;
        }
      case With(_, body) => VisitsDue(body, names, v);
      case FunctionDef(name, body) =>
        VisitsIds(body, if name in names then REACHABLE else UNREACHABLE, names);
        assert false;
      case _ =>
    }
  }

  lemma {:induction false} LoopVisitsDue(s: Stmt, head: Expr, body: seq<Stmt>, orelse: seq<Stmt>, names: set<string>, v: Visit)
    requires s == For(head, body, orelse) || s == While(head, body, orelse)
    requires v in VisitsOf(s, REACHABLE, names) && v.1 == REACHABLE && v.0 !in NestedOf(s)
    ensures v.0 in DueOf(s)
    decreases s, 0, 0
  {
    if v in Visits(orelse, REACHABLE, names) {
      VisitsDue(orelse, names, v);
    } else {
      Capped(body, Guarded(head, REACHABLE), names);
      VisitsDue(body, names, v);
    }
  }

  lemma {:induction false} DueVisits(b: seq<Stmt>, names: set<string>, id: nat)
    requires id in Due(b)
    ensures (id, REACHABLE) in Visits(b, REACHABLE, names)
    decreases b, 1
  {
    if id in DueOf(b[0]) { DueVisitsOf(b[0], names, id); } else { DueVisits(b[1..], names, id); }
  }

  lemma {:induction false} DueVisitsOf(s: Stmt, names: set<string>, id: nat)
    requires id in DueOf(s)
    ensures (id, REACHABLE) in VisitsOf(s, REACHABLE, names)
    decreases s, 0
  {
    match s {
      case If(test, body, orelse) =>
        if ConstTruth(test) == Some(true) { DueVisits(body, names, id); } else { DueVisits(orelse, names, id); }
      case For(_, body, orelse) => if id in Due(orelse) { DueVisits(orelse, names, id); } else { DueVisits(body, names, id); }
      case While(_, body, orelse) => if id in Due(orelse) { DueVisits(orelse, names, id); } else { DueVisits(body, names, id); }
      case Try(body, _, _, final) => if id in Due(body) { DueVisits(body, names, id); } else { DueVisits(final, names, id); }
      case With(_, body) => DueVisits(body, names, id);
      case _ =>
    }
  }

  // ---------------------------------------------------------------- secure functions

  predicate AnyEnd(s: Stmt, ok: set<Outcome>, calls: bool) { exists o | o in ok :: MayEnd(s, o, calls) }

  predicate AnyEndB(b: seq<Stmt>, ok: set<Outcome>, calls: bool) { exists o | o in ok :: MayEndB(b, o, calls) }

  function OneIf(c: bool, o: Outcome): set<Outcome> { if c then {o} else {} }

  /** Ends of a loop's body that end the loop in one of the given ways. */
  function LeavingLoop(ok: set<Outcome>): set<Outcome> { OneIf(Normal in ok, Broke) + (ok * {Returned, Raised}) }

  /** Ends of the body of a `try` after which the `finally` clause can start in one of the given ways. */
  function Arriving(s: Stmt, ok: set<Outcome>, calls: bool): set<Outcome>
    requires s.Try?
  {
    (ok - {Normal}) + OneIf(AnyEndB(s.orelse, ok, calls), Normal) +
    OneIf(exists o | o in ok :: MayEndEach(s.handlers, o, calls), Raised)
  }

  predicate AnyArrival(s: Stmt, ok: set<Outcome>, calls: bool)
    requires s.Try?
  {
    exists o | o in ok :: MayArrive(s, o, calls)
  }

  /** Ends of the body of a `try` that can lead to one of the given ends of the statement. */
  function Before(s: Stmt, ok: set<Outcome>, calls: bool): set<Outcome>
    requires s.Try?
  {
    (if MayEndB(s.finalbody, Normal, calls) then Arriving(s, ok, calls) else {}) +
    (if AnyEndB(s.finalbody, ok - {Normal}, calls) then Arriving(s, ALL, calls) else {})
  }

  /** Ends of the body of a `with` that can lead to one of the given ends: its exit may swallow an exception or raise one. */
  function Inside(ok: set<Outcome>): set<Outcome> { ok + OneIf(Normal in ok, Raised) + (if Raised in ok then ALL else {}) }

  /** No run that ends in one of the given ways misses an assertion that is due. */
  predicate SecureB(b: seq<Stmt>, ok: set<Outcome>, calls: bool)
    decreases b, 1
  {
    b == [] || IsTerminator(b[0]) || IsSkip(b[0]) ||
    (&& Secure(b[0], ok - {Normal} + OneIf(AnyEndB(b[1..], ok, calls), Normal), calls)
     && (AnyEnd(b[0], ok - {Normal}, calls) ==> Due(b[1..]) == {})
     && (MayEnd(b[0], Normal, calls) ==> SecureB(b[1..], ok, calls)))
  }

  predicate Secure(s: Stmt, ok: set<Outcome>, calls: bool)
    decreases s, 0
  {
    match s
    case If(test, body, orelse) =>
      && (Raised in ok && MayRaise(test, calls) ==> DueOf(s) == {})
      && (ConstTruth(test) == Some(true) ==> SecureB(body, ok, calls))
      && (ConstTruth(test) == Some(false) ==> SecureB(orelse, ok, calls))
    case While(test, body, orelse) =>
      && (Raised in ok && MayRaise(test, calls) ==> DueOf(s) == {})
      && (ConstTruth(test) != Some(false) && AnyEndB(body, LeavingLoop(ok), calls) ==> Due(orelse) == {})
      && (ConstTruth(test) == Some(true) ==> SecureB(body, LeavingLoop(ok), calls))
      && (ConstTruth(test) != Some(true) ==> SecureB(orelse, ok, calls))
    case For(iter, body, orelse) =>
      && (Raised in ok && MayFail(iter, calls) ==> DueOf(s) == {})
      && (ConstTruth(iter) != Some(false) && AnyEndB(body, LeavingLoop(ok), calls) ==> Due(orelse) == {})
      && (ConstTruth(iter) == Some(true) ==>
            SecureB(body, LeavingLoop(ok) + (if AnyEndB(orelse, ok, calls) then {Normal, Continued} else {}), calls))
      && ((ConstTruth(iter) == Some(true) ==> MayGoOn(body, calls)) ==> SecureB(orelse, ok, calls))
    case Try(body, handlers, orelse, final) =>
      && SecureB(body, Before(s, ok, calls), calls)
      && (AnyArrival(s, ALL, calls) ==> SecureB(final, ok - {Normal} + OneIf(AnyArrival(s, ok, calls), Normal), calls))
    case With(context, body) =>
      && (Raised in ok && MayRaise(context, calls) ==> Due(body) == {})
      && SecureB(body, Inside(ok), calls)
    case _ => true
  }

  // ---------------------------------------------------------------- secure functions miss nothing

  /** What the lemmas below assume of a run: it ends in one of the given ways, none of them by being cut off. */
  ghost predicate EndsIn(x: Effect, ok: set<Outcome>) { x.out in ok && Cut !in ok }

  lemma {:induction false} SecureBlock(b: seq<Stmt>, r: Run, fns: set<Fn>, names: set<string>, calls: bool, ok: set<Outcome>)
    requires Callable(fns, calls) && (calls || !DefinesB(b))
    requires SecureB(b, ok, calls) && EndsIn(Block(b, r, fns, names), ok)
    ensures Due(b) <= Block(b, r, fns, names).seen
    decreases r, 1
  {
    if b != [] {
      var x := Exec(b[0], r.first, fns, names);
      TerminatorLeaves(b[0], r.first, fns, names);
      ExecEnds(b[0], r.first, fns, names, calls);
      if !IsTerminator(b[0]) && !IsSkip(b[0]) {
        var okHere := ok - {Normal} + OneIf(AnyEndB(b[1..], ok, calls), Normal);
        if x.out == Normal {
          BlockEnds(b[1..], r.rest, x.defined, names, calls);
          SecureBlock(b[1..], r.rest, x.defined, names, calls, ok);
        }
        SecureExec(b[0], r.first, fns, names, calls, okHere);
      }
    }
  }

  lemma {:induction false} SecureExec(s: Stmt, r: Run, fns: set<Fn>, names: set<string>, calls: bool, ok: set<Outcome>)
    requires Callable(fns, calls) && (calls || !Defines(s))
    requires Secure(s, ok, calls) && EndsIn(Exec(s, r, fns, names), ok)
    ensures DueOf(s) <= Exec(s, r, fns, names).seen
    decreases r, 4
  {
    match s {
      case If(_, _, _) => SecureIf(s, r, fns, names, calls, ok);
      case While(_, _, _) => SecureWhile(s, r, fns, names, calls, ok);
      case For(_, _, _) => SecureFor(s, r, fns, names, calls, ok);
      case Try(_, _, _, _) => SecureTry(s, r, fns, names, calls, ok);
      case With(_, _) => SecureWith(s, r, fns, names, calls, ok);
      case _ =>
    }
  }

  lemma {:induction false} SecureIf(s: Stmt, r: Run, fns: set<Fn>, names: set<string>, calls: bool, ok: set<Outcome>)
    requires s.If? && Callable(fns, calls) && (calls || !Defines(s))
    requires Secure(s, ok, calls) && EndsIn(Exec(s, r, fns, names), ok)
    ensures DueOf(s) <= Exec(s, r, fns, names).seen
    decreases r, 3
  {
    EvaluationEnds(s.test, r, fns, names, calls);
    var x := Evaluation(s.test, r, fns, names);
    if x.eff.out == Normal {
      TruthKnown(s.test, r.env, Truthy(x.v));
      if ConstTruth(s.test).Some? {
        SecureBlock(if Truthy(x.v) then s.body else s.orelse, r.rest, x.eff.defined, names, calls, ok);
      }
    }
  }

  lemma {:induction false} SecureWhile(s: Stmt, r: Run, fns: set<Fn>, names: set<string>, calls: bool, ok: set<Outcome>)
    requires s.While? && Callable(fns, calls) && (calls || !Defines(s))
    requires Secure(s, ok, calls) && EndsIn(Exec(s, r, fns, names), ok)
    ensures DueOf(s) <= Exec(s, r, fns, names).seen
    decreases r, 3
  {
    EvaluationEnds(s.test, r, fns, names, calls);
    var x := Evaluation(s.test, r, fns, names);
    if x.eff.out == Normal {
      TruthKnown(s.test, r.env, Truthy(x.v));
      if !Truthy(x.v) {
        SecureBlock(s.orelse, r.rest, x.eff.defined, names, calls, ok);
      } else {
        SecureRound(s, r.rest, x.eff.defined, names, calls, ok);
      }
    }
  }

  /** A round of a `while` loop, and what follows it. */
  lemma {:induction false} SecureRound(s: Stmt, r: Run, fns: set<Fn>, names: set<string>, calls: bool, ok: set<Outcome>)
    requires s.While? && Callable(fns, calls) && (calls || !Defines(s)) && Secure(s, ok, calls) && Cut !in ok
    requires r.Step? && ConstTruth(s.test) != Some(false)
    requires var y := Block(s.body, r.first, fns, names);
      if y.out == Normal || y.out == Continued then Exec(s, r.rest, y.defined, names).out in ok
      else if y.out == Broke then Normal in ok else y.out in ok
    ensures var y := Block(s.body, r.first, fns, names);
      DueOf(s) <= y.seen + (if y.out == Normal || y.out == Continued then Exec(s, r.rest, y.defined, names).seen else {})
    decreases r, 4
  {
    BlockEnds(s.body, r.first, fns, names, calls);
    var y := Block(s.body, r.first, fns, names);
    if y.out == Normal || y.out == Continued {
      SecureWhile(s, r.rest, y.defined, names, calls, ok);
    } else {
      assert y.out in LeavingLoop(ok);
      assert AnyEndB(s.body, LeavingLoop(ok), calls);
      if ConstTruth(s.test) == Some(true) { SecureBlock(s.body, r.first, fns, names, calls, LeavingLoop(ok)); }
    }
  }

  lemma {:induction false} FailsWhenUnknown(e: Expr, env: Env, calls: bool)
    requires Eval(e, env, 0).Val? && Iterations(e, Eval(e, env, 0).v, env).Some? && Iterations(e, Eval(e, env, 0).v, env).value.1
    ensures MayFail(e, calls)
  {
    if Iterable(e) { IterableIterates(e, env); }
  }

  lemma {:induction false} SecureFor(s: Stmt, r: Run, fns: set<Fn>, names: set<string>, calls: bool, ok: set<Outcome>)
    requires s.For? && Callable(fns, calls) && (calls || !Defines(s))
    requires Secure(s, ok, calls) && EndsIn(Exec(s, r, fns, names), ok)
    ensures DueOf(s) <= Exec(s, r, fns, names).seen
    decreases r, 3
  {
    EvaluationEnds(s.iter, r, fns, names, calls);
    var x := Evaluation(s.iter, r, fns, names);
    if x.eff.out == Normal && Iterations(s.iter, x.v, r.env).Some? {
      var it := Iterations(s.iter, x.v, r.env).value;
      if ConstTruth(s.iter).Some? { ConstIterations(s.iter, r.env, 0); }
      if it.1 { FailsWhenUnknown(s.iter, r.env, calls); }
      if !(it.1 && Raised in ok) { SecureLoop(s, it.0, it.1, r.rest, x.eff.defined, names, calls, ok); }
    }
  }

  /** The remaining rounds of a `for` loop. */
  lemma {:induction false} SecureLoop(s: Stmt, n: nat, fails: bool, r: Run, fns: set<Fn>, names: set<string>, calls: bool,
                                      ok: set<Outcome>)
    requires s.For? && Callable(fns, calls) && (calls || !Defines(s)) && Secure(s, ok, calls)
    requires EndsIn(Loop(s.body, s.orelse, n, fails, r, fns, names), ok) && !(fails && Raised in ok)
    requires n > 0 ==> ConstTruth(s.iter) != Some(false)
    requires n == 0 && ConstTruth(s.iter) == Some(true) ==> MayGoOn(s.body, calls)
    ensures var seen := Loop(s.body, s.orelse, n, fails, r, fns, names).seen;
      Due(s.orelse) <= seen && (n > 0 && ConstTruth(s.iter) == Some(true) ==> Due(s.body) <= seen)
    decreases r, 2
  {
    if n == 0 {
      SecureBlock(s.orelse, r, fns, names, calls, ok);
    } else {
      BlockEnds(s.body, r.first, fns, names, calls);
      var y := Block(s.body, r.first, fns, names);
      if y.out == Normal || y.out == Continued {
        SecureLoop(s, n - 1, fails, r.rest, y.defined, names, calls, ok);
        if n == 1 && ConstTruth(s.iter) == Some(true) { SecureLastRound(s, fails, r, fns, names, calls, ok); }
      } else {
        assert y.out in LeavingLoop(ok);
        assert AnyEndB(s.body, LeavingLoop(ok), calls);
        if ConstTruth(s.iter) == Some(true) { SecureBlock(s.body, r.first, fns, names, calls, OkInLoop(s, ok, calls)); }
      }
    }
  }

  /** Ends of a round of a `for` loop over a constant that can lead to one of the given ends. */
  function OkInLoop(s: Stmt, ok: set<Outcome>, calls: bool): set<Outcome>
    requires s.For?
  {
    LeavingLoop(ok) + (if AnyEndB(s.orelse, ok, calls) then {Normal, Continued} else {})
  }

  lemma {:induction false} SecureLastRound(s: Stmt, fails: bool, r: Run, fns: set<Fn>, names: set<string>, calls: bool,
                                           ok: set<Outcome>)
    requires s.For? && Callable(fns, calls) && (calls || !Defines(s)) && Secure(s, ok, calls)
    requires EndsIn(Loop(s.body, s.orelse, 1, fails, r, fns, names), ok) && !(fails && Raised in ok)
    requires ConstTruth(s.iter) == Some(true) && r.Step? && Block(s.body, r.first, fns, names).out in {Normal, Continued}
    ensures Due(s.body) <= Block(s.body, r.first, fns, names).seen
    decreases r, 1
  {
    var y := Block(s.body, r.first, fns, names);
    BlockEnds(s.body, r.first, fns, names, calls);
    BlockEnds(s.orelse, r.rest, y.defined, names, calls);
    assert Loop(s.body, s.orelse, 0, fails, r.rest, y.defined, names) == Block(s.orelse, r.rest, y.defined, names);
    assert AnyEndB(s.orelse, ok, calls);
    SecureBlock(s.body, r.first, fns, names, calls, OkInLoop(s, ok, calls));
  }

  lemma {:induction false} BeforeLeads(s: Stmt, r: Run, fns: set<Fn>, names: set<string>, calls: bool, ok: set<Outcome>)
    requires s.Try? && r.Handle? && Callable(fns, calls) && (calls || !Defines(s)) && EndsIn(Arrival(s, r, fns, names), ok)
    ensures Block(s.body, r.attempt, fns, names).out in Arriving(s, ok, calls)
  {
    var x := Block(s.body, r.attempt, fns, names);
    BlockEnds(s.body, r.attempt, fns, names, calls);
    if x.out == Raised && r.handler < |s.handlers| {
      var h := s.handlers[r.handler].body;
      EachMay(s.handlers, r.handler, Block(h, r.follow, x.defined, names).out, calls);
      BlockEnds(h, r.follow, x.defined, names, calls);
    } else if x.out == Normal {
      BlockEnds(s.orelse, r.follow, x.defined, names, calls);
    }
  }

  /** The end of a `try` statement is that of its `finally` clause, unless that completes normally. */
  lemma {:induction false} TryOut(s: Stmt, r: Run, fns: set<Fn>, names: set<string>)
    requires s.Try? && Exec(s, r, fns, names).out != Cut
    ensures r.Handle? && Arrival(s, r, fns, names).out in ALL
    ensures var y := Arrival(s, r, fns, names);
      var z := Block(s.finalbody, r.cleanup, y.defined, names); var x := Exec(s, r, fns, names);
      x.out == (if z.out == Normal then y.out else z.out) && x.seen == y.seen + z.seen
  {
    assert r.Handle?;
  }

  lemma {:induction false} SecureFinally(s: Stmt, r: Run, fns: set<Fn>, names: set<string>, calls: bool, ok: set<Outcome>)
    requires s.Try? && Callable(fns, calls) && (calls || !Defines(s))
    requires Secure(s, ok, calls) && EndsIn(Exec(s, r, fns, names), ok)
    ensures r.Handle? && Due(s.finalbody) <= Block(s.finalbody, r.cleanup, Arrival(s, r, fns, names).defined, names).seen
    decreases r, 2
  {
    TryOut(s, r, fns, names);
    ArrivalEnds(s, r, fns, names, calls);
    var okEnd := ok - {Normal} + OneIf(AnyArrival(s, ok, calls), Normal);
    SecureBlock(s.finalbody, r.cleanup, Arrival(s, r, fns, names).defined, names, calls, okEnd);
  }

  lemma {:induction false} SecureAttempt(s: Stmt, r: Run, fns: set<Fn>, names: set<string>, calls: bool, ok: set<Outcome>)
    requires s.Try? && Callable(fns, calls) && (calls || !Defines(s))
    requires Secure(s, ok, calls) && EndsIn(Exec(s, r, fns, names), ok)
    ensures r.Handle? && Due(s.body) <= Block(s.body, r.attempt, fns, names).seen
    decreases r, 2
  {
    TryOut(s, r, fns, names);
    ArrivalEnds(s, r, fns, names, calls);
    var y := Arrival(s, r, fns, names);
    BlockEnds(s.finalbody, r.cleanup, y.defined, names, calls);
    var z := Block(s.finalbody, r.cleanup, y.defined, names);
    BeforeLeads(s, r, fns, names, calls, if z.out == Normal then ok else ALL);
    SecureBlock(s.body, r.attempt, fns, names, calls, Before(s, ok, calls));
  }

  lemma {:induction false} SecureTry(s: Stmt, r: Run, fns: set<Fn>, names: set<string>, calls: bool, ok: set<Outcome>)
    requires s.Try? && Callable(fns, calls) && (calls || !Defines(s))
    requires Secure(s, ok, calls) && EndsIn(Exec(s, r, fns, names), ok)
    ensures DueOf(s) <= Exec(s, r, fns, names).seen
    decreases r, 3
  {
    TryOut(s, r, fns, names);
    SecureAttempt(s, r, fns, names, calls, ok);
    SecureFinally(s, r, fns, names, calls, ok);
  }

  lemma {:induction false} SecureWith(s: Stmt, r: Run, fns: set<Fn>, names: set<string>, calls: bool, ok: set<Outcome>)
    requires s.With? && Callable(fns, calls) && (calls || !Defines(s))
    requires Secure(s, ok, calls) && EndsIn(Exec(s, r, fns, names), ok)
    ensures DueOf(s) <= Exec(s, r, fns, names).seen
    decreases r, 3
  {
    EvaluationEnds(s.context, r, fns, names, calls);
    var x := Evaluation(s.context, r, fns, names).eff;
    if x.out == Normal {
      var y := Block(s.body, r.rest.inner, x.defined, names);
      assert y.out in Inside(ok) by { assert y.out in ALL; }
      SecureBlock(s.body, r.rest.inner, x.defined, names, calls, Inside(ok));
    }
  }

  // ---------------------------------------------------------------- the result

  /** The syntactic condition on a function: no run that passes can miss an assertion that is due. */
  predicate SecureBody(body: seq<Stmt>) { SecureB(body, {Normal, Returned}, DefinesB(body)) }

  /** In a secure function every run in which the test passes evaluates every REACHABLE assertion outside nested functions. */
  lemma {:induction false} PassingRunEvaluates(body: seq<Stmt>, r: Run, id: nat)
    requires SecureBody(body) && Passes(RunOf(body, r))
    requires (id, REACHABLE) in Visits(body, REACHABLE, Invoked(body)) && id !in Nested(body)
    ensures id in RunOf(body, r).seen
  {
    VisitsDue(body, Invoked(body), (id, REACHABLE));
    SecureBlock(body, r, {}, Invoked(body), DefinesB(body), {Normal, Returned});
  }
}
