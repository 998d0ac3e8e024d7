/**
 The condition of `PassingRuns` is necessary: a function that is not secure has a run that passes and
 misses an assertion classified REACHABLE. This is proved, by building the run, for functions without
 nested ones in which a test is either decided by its syntax or can turn out either way.
 */
module MissingRuns {
  import opened Common
  import opened PyExpr
  import opened PyStmt
  import opened Triviality
  import opened Reachability
  import opened ReachabilitySound
  import opened PassingRuns

  // ---------------------------------------------------------------- tests that nothing is known about

  ghost predicate CanGive(e: Expr, truth: bool) {
    exists env: Env :: Eval(e, env, 0).Val? && Truthy(Eval(e, env, 0).v) == truth
  }

  ghost predicate CanRaise(e: Expr) { exists env: Env :: Eval(e, env, 0).Raises? }

  ghost predicate CanIterate(e: Expr, n: nat) {
    exists env: Env :: Eval(e, env, 0).Val? && Iterations(e, Eval(e, env, 0).v, env) == Some((n, false))
  }

  /** The expression can turn out true or false, and its evaluation can raise. */
  ghost predicate Undetermined(e: Expr) { CanGive(e, true) && CanGive(e, false) && CanRaise(e) }

  /** The iterable can yield nothing or an item, and its evaluation can raise. */
  ghost predicate AnyItems(e: Expr) { CanIterate(e, 0) && CanIterate(e, 1) && CanRaise(e) }

  ghost predicate CanRun(e: Expr) { CanGive(e, true) || CanGive(e, false) }

  /** The evaluation certainly gives a value, or it may give one and may raise. */
  ghost predicate Known(e: Expr) { Simple(e) || (CanRun(e) && CanRaise(e)) }

  /** A test that the walk folds, or that can turn out either way. */
  ghost predicate OpenTest(e: Expr) { Undetermined(e) || (ConstTruth(e).Some? && Known(e)) }

  /** A display or string that the walk folds, or something that can yield anything. */
  ghost predicate OpenItems(e: Expr) { AnyItems(e) || (ConstTruth(e).Some? && Iterable(e) && Known(e)) }

  /** No function is defined, and nothing that the syntax leaves open is decided otherwise. */
  ghost predicate OpenB(b: seq<Stmt>)
    decreases b, 1
  {
    b == [] || (Open(b[0]) && OpenB(b[1..]))
  }

  ghost predicate Open(s: Stmt)
    decreases s, 0
  {
    match s
    case Assert(_, test, _, _) => CanGive(test, true) && (CanGive(test, false) || CanRaise(test))
    case If(test, body, orelse) => OpenTest(test) && OpenB(body) && OpenB(orelse)
    case While(test, body, orelse) => OpenTest(test) && OpenB(body) && OpenB(orelse)
    case For(iter, body, orelse) => OpenItems(iter) && OpenB(body) && OpenB(orelse)
    case Try(body, handlers, orelse, final) => OpenB(body) && OpenEach(handlers) && OpenB(orelse) && OpenB(final)
    case With(context, body) => CanRun(context) && CanRaise(context) && OpenB(body)
    case FunctionDef(_, _) => false
    case Return(e) => Known(e)
    case ExprStmt(e) => Known(e)
    case _ => true
  }

  ghost predicate OpenEach(hs: seq<Handler>)
    decreases hs, 1
  {
    hs == [] || (OpenB(hs[0].body) && OpenEach(hs[1..]))
  }

  /** No assertion occurs twice. */
  ghost predicate UniqueB(b: seq<Stmt>)
    decreases b, 1
  {
    b == [] || (Unique(b[0]) && UniqueB(b[1..]) && IdsOf(b[0]) !! Ids(b[1..]))
  }

  ghost predicate Unique(s: Stmt)
    decreases s, 0
  {
    match s
    case If(_, body, orelse) => UniqueB(body) && UniqueB(orelse) && Ids(body) !! Ids(orelse)
    case While(_, body, orelse) => UniqueB(body) && UniqueB(orelse) && Ids(body) !! Ids(orelse)
    case For(_, body, orelse) => UniqueB(body) && UniqueB(orelse) && Ids(body) !! Ids(orelse)
    case Try(body, handlers, orelse, final) =>
      UniqueB(body) && UniqueB(final) && Ids(body) !! (IdsEach(handlers) + Ids(orelse) + Ids(final)) &&
      Ids(final) !! (IdsEach(handlers) + Ids(orelse))
    case With(_, body) => UniqueB(body)
    case _ => true
  }

  // ---------------------------------------------------------------- evaluating as needed

  ghost function SomeEnv(): Env { Env((f, d) => None, e => None, e => true, e => None, e => false) }

  lemma {:induction false} GiveAny(e: Expr) returns (env: Env)
    requires Simple(e) || CanRun(e)
    ensures Eval(e, env, 0).Val?
  {
    if Simple(e) {
      env := SomeEnv();
      SimpleValue(e, env, 0);
    } else {
      env :| Eval(e, env, 0).Val?;
    }
  }

  lemma {:induction false} GiveTruth(e: Expr, truth: bool) returns (env: Env)
    requires if ConstTruth(e).Some? then ConstTruth(e) == Some(truth) && (Simple(e) || CanRun(e)) else CanGive(e, truth)
    ensures Eval(e, env, 0).Val? && Truthy(Eval(e, env, 0).v) == truth
  {
    if ConstTruth(e).Some? {
      env := GiveAny(e);
      ConstTruthSound(e, env, 0);
    } else {
      env :| Eval(e, env, 0).Val? && Truthy(Eval(e, env, 0).v) == truth;
    }
  }

  lemma {:induction false} NotSimple(e: Expr)
    requires CanRaise(e)
    ensures !Simple(e)
  {
    var env :| Eval(e, env, 0).Raises?;
    if Simple(e) {
      SimpleValue(e, env, 0);
      assert false;
    }
  }

  lemma {:induction false} NotKnown(e: Expr)
    requires Undetermined(e)
    ensures ConstTruth(e) == None && !Simple(e)
  {
    NotSimple(e);
    var yes :| Eval(e, yes, 0).Val? && Truthy(Eval(e, yes, 0).v);
    var no :| Eval(e, no, 0).Val? && !Truthy(Eval(e, no, 0).v);
    if ConstTruth(e).Some? {
      ConstTruthSound(e, yes, 0);
      ConstTruthSound(e, no, 0);
      assert false;
    }
  }

  lemma {:induction false} NotKnownItems(e: Expr)
    requires AnyItems(e)
    ensures ConstTruth(e) == None && !Simple(e)
  {
    NotSimple(e);
    var none :| Eval(e, none, 0).Val? && Iterations(e, Eval(e, none, 0).v, none) == Some((0, false));
    var one :| Eval(e, one, 0).Val? && Iterations(e, Eval(e, one, 0).v, one) == Some((1, false));
    if ConstTruth(e).Some? {
      ConstIterations(e, none, 0);
      ConstIterations(e, one, 0);
      assert false;
    }
  }

  /** What is known of an open test: an undetermined one is not folded. */
  lemma {:induction false} OpenTestIs(e: Expr)
    requires OpenTest(e)
    ensures ConstTruth(e) == None ==> Undetermined(e)
    ensures ConstTruth(e).Some? ==> Known(e)
    ensures !Simple(e) ==> CanRaise(e)
  {
    if Undetermined(e) { NotKnown(e); }
  }

  lemma {:induction false} OpenItemsAre(e: Expr)
    requires OpenItems(e)
    ensures ConstTruth(e) == None ==> AnyItems(e)
    ensures ConstTruth(e).Some? ==> Iterable(e) && Known(e)
    ensures MayFail(e, false) ==> CanRaise(e)
  {
    if AnyItems(e) { NotKnownItems(e); }
  }

  /** An opaque expression is undetermined, and may be any iterable. */
  lemma {:induction false} OpaqueOpen(e: Expr)
    requires e.Opaque? || e.AttrCall?
    ensures Undetermined(e) && AnyItems(e)
  {
    var host := SomeEnv().host;
    var yes := Env(host, x => Some(GivenObject(0, true)), x => true, x => Some((1, false)), x => false);
    var no := Env(host, x => Some(GivenObject(0, false)), x => true, x => Some((0, false)), x => false);
    assert Eval(e, yes, 0) == Val(VEnv(0, true), 0) && Eval(e, no, 0) == Val(VEnv(0, false), 0);
    assert Iterations(e, VEnv(0, true), yes) == Some((1, false)) && Iterations(e, VEnv(0, false), no) == Some((0, false));
    assert Eval(e, SomeEnv(), 0).Raises?;
  }

  const NOTHING: Effect := Effect(Normal, {}, {}, true)

  lemma {:induction false} JustEvaluate(e: Expr, env: Env, rest: Run, names: set<string>)
    ensures var x := Evaluation(e, Evaluate(Done, env, rest), {}, names);
      match Eval(e, env, 0)
      case Raises => x.eff == Effect(Raised, {}, {}, false)
      case Val(v, _) => x == Evaluated(NOTHING, v)
  {
  }

  /** A run that ends in `o`, defines nothing and evaluates only assertions among `ids`. */
  ghost predicate Makes(x: Effect, o: Outcome, ids: set<nat>) { x.out == o && x.defined == {} && x.seen <= ids }

  // ---------------------------------------------------------------- every end that may be can be

  lemma {:induction false} RunBlock(b: seq<Stmt>, o: Outcome, names: set<string>) returns (r: Run)
    requires OpenB(b) && MayEndB(b, o, false) && o != Cut
    ensures Makes(Block(b, r, {}, names), o, Ids(b))
    decreases b, 1
  {
    if b == [] {
      r := Done;
    } else if o != Normal && MayEnd(b[0], o, false) {
      var h := RunExec(b[0], o, names);
      r := Step(h, Done);
    } else {
      var h := RunExec(b[0], Normal, names);
      var t := RunBlock(b[1..], o, names);
      r := Step(h, t);
    }
  }

  lemma {:induction false} RunExec(s: Stmt, o: Outcome, names: set<string>) returns (r: Run)
    requires Open(s) && MayEnd(s, o, false) && o != Cut
    ensures Makes(Exec(s, r, {}, names), o, IdsOf(s))
    decreases s, 4
  {
    match s {
      case If(_, _, _) => r := RunIf(s, o, names);
      case While(_, _, _) => r := RunWhile(s, o, names);
      case For(_, _, _) => r := RunFor(s, o, names);
      case Try(_, _, _, _) => r := RunTry(s, o, names);
      case With(_, _) => r := RunWith(s, o, names);
      case _ => r := RunSimple(s, o, names);
    }
  }

  lemma {:induction false} RunSimple(s: Stmt, o: Outcome, names: set<string>) returns (r: Run)
    requires Open(s) && MayEnd(s, o, false) && o != Cut && !s.If? && !s.While? && !s.For? && !s.Try? && !s.With?
    ensures Makes(Exec(s, r, {}, names), o, IdsOf(s))
  {
    var env := SomeEnv();
    match s {
      case Assert(_, test, _, _) =>
        if o == Normal {
          env :| Eval(test, env, 0).Val? && Truthy(Eval(test, env, 0).v);
        } else if CanGive(test, false) {
          env :| Eval(test, env, 0).Val? && !Truthy(Eval(test, env, 0).v);
        } else {
          env :| Eval(test, env, 0).Raises?;
        }
        JustEvaluate(test, env, Done, names);
      case Return(e) =>
        if o == Returned { env := GiveAny(e); } else { env :| Eval(e, env, 0).Raises?; }
        JustEvaluate(e, env, Done, names);
      case Raise(e) => JustEvaluate(e, env, Done, names);
      case ExprStmt(e) =>
        if !IsSkip(s) {
          if o == Normal { env := GiveAny(e); } else { env :| Eval(e, env, 0).Raises?; }
        }
        JustEvaluate(e, env, Done, names);
      case _ =>
    }
    r := Evaluate(Done, env, Done);
  }

  /** A test that raises. */
  lemma {:induction false} RunRaise(e: Expr, rest: Run, names: set<string>) returns (r: Run)
    requires CanRaise(e)
    ensures r.Evaluate? && r.rest == rest && Evaluation(e, r, {}, names).eff == Effect(Raised, {}, {}, false)
  {
    var env :| Eval(e, env, 0).Raises?;
    r := Evaluate(Done, env, rest);
    JustEvaluate(e, env, rest, names);
  }

  lemma {:induction false} RunIf(s: Stmt, o: Outcome, names: set<string>) returns (r: Run)
    requires s.If? && Open(s) && MayEnd(s, o, false) && o != Cut
    ensures Makes(Exec(s, r, {}, names), o, IdsOf(s))
    decreases s, 1
  {
    OpenTestIs(s.test);
    if o == Raised && MayRaise(s.test, false) {
      r := RunRaise(s.test, Done, names);
    } else {
      var truth := ConstTruth(s.test) != Some(false) && MayEndB(s.body, o, false);
      var env := GiveTruth(s.test, truth);
      var t := RunBlock(if truth then s.body else s.orelse, o, names);
      r := Evaluate(Done, env, t);
      JustEvaluate(s.test, env, t, names);
    }
  }

  /** How the body ends when the loop is left so. */
  function BodyEnd(o: Outcome): Outcome { if o == Normal then Broke else o }

  lemma {:induction false} RunWhile(s: Stmt, o: Outcome, names: set<string>) returns (r: Run)
    requires s.While? && Open(s) && MayEnd(s, o, false) && o != Cut
    ensures Makes(Exec(s, r, {}, names), o, IdsOf(s))
    decreases s, 1
  {
    OpenTestIs(s.test);
    if o == Raised && MayRaise(s.test, false) {
      r := RunRaise(s.test, Done, names);
    } else if ConstTruth(s.test) != Some(false) && MayLeave(s.body, o, false) {
      var env := GiveTruth(s.test, true);
      var t := RunBlock(s.body, BodyEnd(o), names);
      r := Evaluate(Done, env, Step(t, Done));
      JustEvaluate(s.test, env, Step(t, Done), names);
    } else {
      var env := GiveTruth(s.test, false);
      var t := RunBlock(s.orelse, o, names);
      r := Evaluate(Done, env, t);
      JustEvaluate(s.test, env, t, names);
    }
  }

  /** An environment in which the iterable yields something, or nothing. */
  lemma {:induction false} GiveItems(e: Expr, some: bool) returns (env: Env, n: nat)
    requires OpenItems(e) && ConstTruth(e) != Some(!some)
    ensures Eval(e, env, 0).Val? && Iterations(e, Eval(e, env, 0).v, env) == Some((n, false)) && (n > 0 <==> some)
  {
    OpenItemsAre(e);
    if ConstTruth(e).Some? {
      env := GiveAny(e);
      IterableIterates(e, env);
      ConstIterations(e, env, 0);
      n := Iterations(e, Eval(e, env, 0).v, env).value.0;
    } else {
      n := if some then 1 else 0;
      env :| Eval(e, env, 0).Val? && Iterations(e, Eval(e, env, 0).v, env) == Some((n, false));
    }
  }

  /** The loop is left in its first round. */
  lemma {:induction false} LeaveFor(s: Stmt, t: Run, o: Outcome, names: set<string>) returns (r: Run)
    requires s.For? && OpenItems(s.iter) && ConstTruth(s.iter) != Some(false) && o in {Normal, Returned, Raised}
    requires Block(s.body, t, {}, names).out == BodyEnd(o)
    ensures var x, y := Block(s.body, t, {}, names), Exec(s, r, {}, names);
      y.out == o && y.seen == x.seen && y.defined == x.defined
  {
    var env, n := GiveItems(s.iter, true);
    r := Evaluate(Done, env, Step(t, Done));
    JustEvaluate(s.iter, env, Step(t, Done), names);
    assert Loop(s.body, s.orelse, n, false, Step(t, Done), {}, names).out == o;
  }

  /** The same round `n` times over, and then the end of the loop. */
  function Rounds(t: Run, n: nat, tail: Run): Run { if n == 0 then tail else Step(t, Rounds(t, n - 1, tail)) }

  lemma {:induction false} RoundsLoop(body: seq<Stmt>, orelse: seq<Stmt>, n: nat, t: Run, tail: Run, fns: set<Fn>,
                                       names: set<string>)
    requires Block(body, t, fns, names).out in {Normal, Continued} && Block(body, t, fns, names).defined == fns
    ensures var x, y := Loop(body, orelse, n, false, Rounds(t, n, tail), fns, names), Block(orelse, tail, fns, names);
      && x.out == y.out && x.defined == y.defined
      && x.seen == (if n > 0 then Block(body, t, fns, names).seen else {}) + y.seen
      && (x.quiet <==> (n > 0 ==> Block(body, t, fns, names).quiet) && y.quiet)
    decreases n
  {
    if n > 0 { RoundsLoop(body, orelse, n - 1, t, tail, fns, names); }
  }

  /** The loop runs over all of its items, if there are any, and through its `else` branch. */
  lemma {:induction false} ElseFor(s: Stmt, some: bool, t: Run, tail: Run, names: set<string>) returns (r: Run)
    requires s.For? && OpenItems(s.iter) && ConstTruth(s.iter) != Some(!some)
    requires some ==> Block(s.body, t, {}, names).out in {Normal, Continued} && Block(s.body, t, {}, names).defined == {}
    ensures var x, y := Block(s.orelse, tail, {}, names), Exec(s, r, {}, names);
      && y.out == x.out && y.defined == x.defined
      && y.seen == (if some then Block(s.body, t, {}, names).seen else {}) + x.seen
  {
    var env, n := GiveItems(s.iter, some);
    r := Evaluate(Done, env, Rounds(t, n, tail));
    JustEvaluate(s.iter, env, Rounds(t, n, tail), names);
    if some {
      RoundsLoop(s.body, s.orelse, n, t, tail, {}, names);
    } else {
      assert Loop(s.body, s.orelse, 0, false, tail, {}, names) == Block(s.orelse, tail, {}, names);
    }
  }

  /** A round after which a loop goes on. */
  lemma {:induction false} RunRound(body: seq<Stmt>, names: set<string>) returns (t: Run, o: Outcome)
    requires OpenB(body) && MayGoOn(body, false)
    ensures o in {Normal, Continued} && Makes(Block(body, t, {}, names), o, Ids(body))
    decreases body, 2
  {
    o := if MayEndB(body, Normal, false) then Normal else Continued;
    t := RunBlock(body, o, names);
  }

  lemma {:induction false} RunFor(s: Stmt, o: Outcome, names: set<string>) returns (r: Run)
    requires s.For? && Open(s) && MayEnd(s, o, false) && o != Cut
    ensures Makes(Exec(s, r, {}, names), o, IdsOf(s))
    decreases s, 1
  {
    OpenItemsAre(s.iter);
    if o == Raised && MayFail(s.iter, false) {
      r := RunRaise(s.iter, Done, names);
    } else if ConstTruth(s.iter) != Some(false) && MayLeave(s.body, o, false) {
      var t := RunBlock(s.body, BodyEnd(o), names);
      r := LeaveFor(s, t, o, names);
    } else {
      r := RunElse(s, o, names);
    }
  }

  lemma {:induction false} RunElse(s: Stmt, o: Outcome, names: set<string>) returns (r: Run)
    requires s.For? && Open(s) && o != Cut
    requires (ConstTruth(s.iter) == Some(true) ==> MayGoOn(s.body, false)) && MayEndB(s.orelse, o, false)
    ensures Makes(Exec(s, r, {}, names), o, IdsOf(s))
    decreases s, 0
  {
    var tail := RunBlock(s.orelse, o, names);
    if ConstTruth(s.iter) == Some(true) {
      var t, _ := RunRound(s.body, names);
      r := ElseFor(s, true, t, tail, names);
    } else {
      r := ElseFor(s, false, Done, tail, names);
    }
  }

  lemma {:induction false} RunEach(hs: seq<Handler>, o: Outcome, names: set<string>) returns (i: nat, r: Run)
    requires OpenEach(hs) && MayEndEach(hs, o, false) && o != Cut
    ensures i < |hs| && Makes(Block(hs[i].body, r, {}, names), o, IdsEach(hs))
    decreases hs, 1
  {
    if MayEndB(hs[0].body, o, false) {
      i := 0;
      r := RunBlock(hs[0].body, o, names);
    } else {
      var j;
      j, r := RunEach(hs[1..], o, names);
      i := j + 1;
    }
  }

  /** The assertions of a `try` statement before its `finally` clause. */
  function EarlyIds(s: Stmt): set<nat>
    requires s.Try?
  {
    Ids(s.body) + IdsEach(s.handlers) + Ids(s.orelse)
  }

  /** A run of the body of a `try` statement, continued to where the `finally` clause starts. */
  lemma {:induction false} RunOn(s: Stmt, attempt: Run, ok: set<Outcome>, names: set<string>, cleanup: Run) returns (r: Run)
    requires s.Try? && Open(s) && Block(s.body, attempt, {}, names).defined == {} && Cut !in ok
    requires Block(s.body, attempt, {}, names).out in Arriving(s, ok, false)
    ensures r.Handle? && r.attempt == attempt && r.cleanup == cleanup
    ensures var x, y := Block(s.body, attempt, {}, names), Arrival(s, r, {}, names);
      y.out in ok && y.defined == {} && y.seen <= x.seen + IdsEach(s.handlers) + Ids(s.orelse)
    decreases s, 0
  {
    var x := Block(s.body, attempt, {}, names);
    if x.out != Normal && x.out in ok {
      r := Handle(attempt, |s.handlers|, Done, cleanup);
    } else if x.out == Normal {
      var o :| o in ok && MayEndB(s.orelse, o, false);
      var t := RunBlock(s.orelse, o, names);
      r := Handle(attempt, |s.handlers|, t, cleanup);
    } else {
      var o :| o in ok && MayEndEach(s.handlers, o, false);
      var i, t := RunEach(s.handlers, o, names);
      r := Handle(attempt, i, t, cleanup);
    }
  }

  lemma {:induction false} RunArrival(s: Stmt, o: Outcome, names: set<string>, cleanup: Run) returns (r: Run)
    requires s.Try? && Open(s) && MayArrive(s, o, false) && o != Cut
    ensures r.Handle? && r.cleanup == cleanup && Makes(Arrival(s, r, {}, names), o, EarlyIds(s))
    decreases s, 2
  {
    var x := if o != Normal && MayEndB(s.body, o, false) then o
             else if MayEndB(s.body, Normal, false) && MayEndB(s.orelse, o, false) then Normal else Raised;
    var attempt := RunBlock(s.body, x, names);
    r := RunOn(s, attempt, {o}, names, cleanup);
  }

  /** The `finally` clause on its own: it decides how the statement ends, or leaves that as it stands. */
  lemma {:induction false} Finish(s: Stmt, r: Run, names: set<string>)
    requires s.Try? && r.Handle? && Arrival(s, r, {}, names).out != Cut && Arrival(s, r, {}, names).defined == {}
    ensures var y, z := Arrival(s, r, {}, names), Block(s.finalbody, r.cleanup, {}, names); var x := Exec(s, r, {}, names);
      x.out == (if z.out == Normal then y.out else z.out) && x.seen == y.seen + z.seen && x.defined == z.defined
  {
  }

  lemma {:induction false} RunTry(s: Stmt, o: Outcome, names: set<string>) returns (r: Run)
    requires s.Try? && Open(s) && MayEnd(s, o, false) && o != Cut
    ensures Makes(Exec(s, r, {}, names), o, IdsOf(s))
    decreases s, 3
  {
    if MayEndB(s.finalbody, Normal, false) && MayArrive(s, o, false) {
      var t := RunBlock(s.finalbody, Normal, names);
      r := RunArrival(s, o, names, t);
    } else {
      var y :| y in ALL && MayArrive(s, y, false);
      var t := RunBlock(s.finalbody, o, names);
      r := RunArrival(s, y, names, t);
    }
    Finish(s, r, names);
  }

  lemma {:induction false} Exit(s: Stmt, t: Run, swallows: bool, fails: bool, names: set<string>) returns (r: Run)
    requires s.With? && CanRun(s.context) && Block(s.body, t, {}, names).out != Cut
    ensures var x, y := Block(s.body, t, {}, names), Exec(s, r, {}, names);
      && y.out == (if fails then Raised else if x.out == Raised && swallows then Normal else x.out)
      && y.seen == x.seen && y.defined == x.defined
  {
    var env := GiveAny(s.context);
    r := Evaluate(Done, env, Leave(t, swallows, fails));
    JustEvaluate(s.context, env, Leave(t, swallows, fails), names);
  }

  lemma {:induction false} RunWith(s: Stmt, o: Outcome, names: set<string>) returns (r: Run)
    requires s.With? && Open(s) && MayEnd(s, o, false) && o != Cut
    ensures Makes(Exec(s, r, {}, names), o, IdsOf(s))
    decreases s, 1
  {
    NotSimple(s.context);
    if o == Raised && MayRaise(s.context, false) {
      r := RunRaise(s.context, Leave(Done, false, false), names);
    } else if MayEndB(s.body, o, false) {
      var t := RunBlock(s.body, o, names);
      r := Exit(s, t, false, false, names);
    } else {
      var t := RunBlock(s.body, Raised, names);
      r := Exit(s, t, true, false, names);
    }
  }

  // ---------------------------------------------------------------- an insecure function has a run that misses an assertion

  lemma {:induction false} DueIds(b: seq<Stmt>)
    ensures Due(b) <= Ids(b)
    decreases b, 1
  {
    if b != [] {
      DueIdsOf(b[0]);
      DueIds(b[1..]);
    }
  }

  lemma {:induction false} DueIdsOf(s: Stmt)
    ensures DueOf(s) <= IdsOf(s)
    decreases s, 0
  {
    match s {
      case If(_, body, orelse) => DueIds(body); DueIds(orelse);
      case For(_, body, orelse) => DueIds(body); DueIds(orelse);
      case While(_, body, orelse) => DueIds(body); DueIds(orelse);
      case Try(body, _, _, final) => DueIds(body); DueIds(final);
      case With(_, body) => DueIds(body);
      case _ =>
    }
  }

  /** The run ends in one of the given ways and misses an assertion that is due. */
  ghost predicate Misses(x: Effect, ok: set<Outcome>, ids: set<nat>, due: set<nat>, id: nat) {
    x.out in ok && x.defined == {} && x.seen <= ids && id in due && id !in x.seen
  }

  lemma {:induction false} MissBlock(b: seq<Stmt>, ok: set<Outcome>, names: set<string>) returns (r: Run, id: nat)
    requires OpenB(b) && UniqueB(b) && ok <= ALL && !SecureB(b, ok, false)
    ensures Misses(Block(b, r, {}, names), ok, Ids(b), Due(b), id)
    decreases b, 1
  {
    var s, rest := b[0], b[1..];
    if !Secure(s, ok - {Normal} + OneIf(AnyEndB(rest, ok, false), Normal), false) {
      r, id := MissFirst(b, ok, names);
    } else {
      DueIds(rest);
      if AnyEnd(s, ok - {Normal}, false) && Due(rest) != {} {
        var o :| o in ok - {Normal} && MayEnd(s, o, false);
        var h := RunExec(s, o, names);
        id :| id in Due(rest);
        r := Step(h, Done);
      } else {
        var h := RunExec(s, Normal, names);
        var t;
        t, id := MissBlock(rest, ok, names);
        r := Step(h, t);
      }
    }
  }

  /** A block whose first statement misses an assertion. */
  lemma {:induction false} MissFirst(b: seq<Stmt>, ok: set<Outcome>, names: set<string>) returns (r: Run, id: nat)
    requires b != [] && !IsTerminator(b[0]) && !IsSkip(b[0]) && OpenB(b) && UniqueB(b) && ok <= ALL
    requires !Secure(b[0], ok - {Normal} + OneIf(AnyEndB(b[1..], ok, false), Normal), false)
    ensures Misses(Block(b, r, {}, names), ok, Ids(b), Due(b), id)
    decreases b, 0
  {
    DueIdsOf(b[0]);
    var h;
    h, id := MissExec(b[0], ok - {Normal} + OneIf(AnyEndB(b[1..], ok, false), Normal), names);
    if Exec(b[0], h, {}, names).out != Normal {
      r := Step(h, Done);
    } else {
      var o :| o in ok && MayEndB(b[1..], o, false);
      var t := RunBlock(b[1..], o, names);
      r := Step(h, t);
    }
  }

  lemma {:induction false} MissExec(s: Stmt, ok: set<Outcome>, names: set<string>) returns (r: Run, id: nat)
    requires Open(s) && Unique(s) && ok <= ALL && !Secure(s, ok, false)
    ensures Misses(Exec(s, r, {}, names), ok, IdsOf(s), DueOf(s), id)
    decreases s, 4
  {
    match s {
      case If(_, _, _) => r, id := MissIf(s, ok, names);
      case While(_, _, _) => r, id := MissWhile(s, ok, names);
      case For(_, _, _) => r, id := MissFor(s, ok, names);
      case Try(_, _, _, _) => r, id := MissTry(s, ok, names);
      case With(_, _) => r, id := MissWith(s, ok, names);
    }
  }

  lemma {:induction false} MissIf(s: Stmt, ok: set<Outcome>, names: set<string>) returns (r: Run, id: nat)
    requires s.If? && Open(s) && Unique(s) && ok <= ALL && !Secure(s, ok, false)
    ensures Misses(Exec(s, r, {}, names), ok, IdsOf(s), DueOf(s), id)
    decreases s, 1
  {
    OpenTestIs(s.test);
    DueIdsOf(s);
    if Raised in ok && MayRaise(s.test, false) && DueOf(s) != {} {
      r := RunRaise(s.test, Done, names);
      id :| id in DueOf(s);
    } else {
      var truth := ConstTruth(s.test).value;
      var env := GiveTruth(s.test, truth);
      var t;
      t, id := MissBlock(if truth then s.body else s.orelse, ok, names);
      r := Evaluate(Done, env, t);
      JustEvaluate(s.test, env, t, names);
    }
  }

  lemma {:induction false} MissWhile(s: Stmt, ok: set<Outcome>, names: set<string>) returns (r: Run, id: nat)
    requires s.While? && Open(s) && Unique(s) && ok <= ALL && !Secure(s, ok, false)
    ensures Misses(Exec(s, r, {}, names), ok, IdsOf(s), DueOf(s), id)
    decreases s, 1
  {
    OpenTestIs(s.test);
    DueIds(s.orelse);
    DueIds(s.body);
    if Raised in ok && MayRaise(s.test, false) && DueOf(s) != {} {
      r := RunRaise(s.test, Done, names);
      id :| id in DueOf(s);
    } else if ConstTruth(s.test) != Some(true) && !SecureB(s.orelse, ok, false) {
      var env := GiveTruth(s.test, false);
      var t;
      t, id := MissBlock(s.orelse, ok, names);
      r := Evaluate(Done, env, t);
      JustEvaluate(s.test, env, t, names);
    } else {
      var t;
      t, id := MissRound(s, ok, names);
      var env := GiveTruth(s.test, true);
      r := Evaluate(Done, env, Step(t, Done));
      JustEvaluate(s.test, env, Step(t, Done), names);
    }
  }

  /** A round of a `while` loop that leaves it. */
  lemma {:induction false} MissRound(s: Stmt, ok: set<Outcome>, names: set<string>) returns (t: Run, id: nat)
    requires s.While? && Open(s) && Unique(s) && ok <= ALL && ConstTruth(s.test) != Some(false)
    requires (AnyEndB(s.body, LeavingLoop(ok), false) && Due(s.orelse) != {}) ||
             (ConstTruth(s.test) == Some(true) && !SecureB(s.body, LeavingLoop(ok), false))
    ensures Misses(Block(s.body, t, {}, names), LeavingLoop(ok), Ids(s.body), DueOf(s), id)
    decreases s, 0
  {
    DueIds(s.orelse);
    if AnyEndB(s.body, LeavingLoop(ok), false) && Due(s.orelse) != {} {
      var o :| o in LeavingLoop(ok) && MayEndB(s.body, o, false);
      t := RunBlock(s.body, o, names);
      id :| id in Due(s.orelse);
    } else {
      t, id := MissBlock(s.body, LeavingLoop(ok), names);
    }
  }

  lemma {:induction false} MissFor(s: Stmt, ok: set<Outcome>, names: set<string>) returns (r: Run, id: nat)
    requires s.For? && Open(s) && Unique(s) && ok <= ALL && !Secure(s, ok, false)
    ensures Misses(Exec(s, r, {}, names), ok, IdsOf(s), DueOf(s), id)
    decreases s, 3
  {
    OpenItemsAre(s.iter);
    DueIds(s.orelse);
    if Raised in ok && MayFail(s.iter, false) && DueOf(s) != {} {
      r := RunRaise(s.iter, Done, names);
      id :| id in DueOf(s);
    } else if ConstTruth(s.iter) != Some(false) && AnyEndB(s.body, LeavingLoop(ok), false) && Due(s.orelse) != {} {
      var o :| o in LeavingLoop(ok) && MayEndB(s.body, o, false);
      var t := RunBlock(s.body, o, names);
      r := LeaveFor(s, t, if o == Broke then Normal else o, names);
      id :| id in Due(s.orelse);
    } else if ConstTruth(s.iter) == Some(true) && !SecureB(s.body, OkInLoop(s, ok, false), false) {
      r, id := MissRounds(s, ok, names);
    } else {
      r, id := MissElse(s, ok, names);
    }
  }

  /** A `for` loop over a literal whose body misses an assertion, in a round that leaves it or in every round. */
  lemma {:induction false} MissRounds(s: Stmt, ok: set<Outcome>, names: set<string>) returns (r: Run, id: nat)
    requires s.For? && Open(s) && Unique(s) && ok <= ALL
    requires ConstTruth(s.iter) == Some(true) && !SecureB(s.body, OkInLoop(s, ok, false), false)
    ensures Misses(Exec(s, r, {}, names), ok, IdsOf(s), DueOf(s), id)
    decreases s, 2
  {
    DueIds(s.body);
    var t;
    t, id := MissBlock(s.body, OkInLoop(s, ok, false), names);
    var o := Block(s.body, t, {}, names).out;
    if o in LeavingLoop(ok) {
      r := LeaveFor(s, t, if o == Broke then Normal else o, names);
    } else {
      var p :| p in ok && MayEndB(s.orelse, p, false);
      var tail := RunBlock(s.orelse, p, names);
      r := ElseFor(s, true, t, tail, names);
    }
  }

  /** A `for` loop whose `else` branch misses an assertion. */
  lemma {:induction false} MissElse(s: Stmt, ok: set<Outcome>, names: set<string>) returns (r: Run, id: nat)
    requires s.For? && Open(s) && Unique(s) && ok <= ALL
    requires (ConstTruth(s.iter) == Some(true) ==> MayGoOn(s.body, false)) && !SecureB(s.orelse, ok, false)
    ensures Misses(Exec(s, r, {}, names), ok, IdsOf(s), DueOf(s), id)
    decreases s, 2
  {
    DueIds(s.orelse);
    var tail;
    tail, id := MissBlock(s.orelse, ok, names);
    if ConstTruth(s.iter) == Some(true) {
      var t, _ := RunRound(s.body, names);
      r := ElseFor(s, true, t, tail, names);
    } else {
      r := ElseFor(s, false, Done, tail, names);
    }
  }

  lemma {:induction false} MissTry(s: Stmt, ok: set<Outcome>, names: set<string>) returns (r: Run, id: nat)
    requires s.Try? && Open(s) && Unique(s) && ok <= ALL && !Secure(s, ok, false)
    ensures Misses(Exec(s, r, {}, names), ok, IdsOf(s), DueOf(s), id)
    decreases s, 3
  {
    DueIds(s.body);
    DueIds(s.finalbody);
    if !SecureB(s.body, Before(s, ok, false), false) {
      r, id := MissEarly(s, ok, names);
    } else {
      var okEnd := ok - {Normal} + OneIf(AnyArrival(s, ok, false), Normal);
      var t;
      t, id := MissBlock(s.finalbody, okEnd, names);
      var arrivals := if Block(s.finalbody, t, {}, names).out == Normal then ok else ALL;
      var y :| y in arrivals && MayArrive(s, y, false);
      r := RunArrival(s, y, names, t);
      Finish(s, r, names);
    }
  }

  /** A `try` statement whose body misses an assertion. */
  lemma {:induction false} MissEarly(s: Stmt, ok: set<Outcome>, names: set<string>) returns (r: Run, id: nat)
    requires s.Try? && Open(s) && Unique(s) && ok <= ALL && !SecureB(s.body, Before(s, ok, false), false)
    ensures Misses(Exec(s, r, {}, names), ok, IdsOf(s), DueOf(s), id)
    decreases s, 2
  {
    var attempt;
    attempt, id := MissBlock(s.body, Before(s, ok, false), names);
    if MayEndB(s.finalbody, Normal, false) && Block(s.body, attempt, {}, names).out in Arriving(s, ok, false) {
      r := MissOn(s, attempt, id, ok, Normal, names);
    } else {
      var o :| o in ok - {Normal} && MayEndB(s.finalbody, o, false);
      r := MissOn(s, attempt, id, ALL, o, names);
    }
  }

  /** The run that missed an assertion, continued through the `finally` clause. */
  lemma {:induction false} MissOn(s: Stmt, attempt: Run, id: nat, arrivals: set<Outcome>, o: Outcome, names: set<string>)
    returns (r: Run)
    requires s.Try? && Open(s) && Unique(s) && Cut !in arrivals && MayEndB(s.finalbody, o, false) && o != Cut
    requires Misses(Block(s.body, attempt, {}, names), Arriving(s, arrivals, false), Ids(s.body), Due(s.body), id)
    ensures Misses(Exec(s, r, {}, names), if o == Normal then arrivals else {o}, IdsOf(s), DueOf(s), id)
    decreases s, 1
  {
    DueIds(s.body);
    var t := RunBlock(s.finalbody, o, names);
    r := RunOn(s, attempt, arrivals, names, t);
    Finish(s, r, names);
  }

  lemma {:induction false} MissWith(s: Stmt, ok: set<Outcome>, names: set<string>) returns (r: Run, id: nat)
    requires s.With? && Open(s) && Unique(s) && ok <= ALL && !Secure(s, ok, false)
    ensures Misses(Exec(s, r, {}, names), ok, IdsOf(s), DueOf(s), id)
    decreases s, 1
  {
    DueIds(s.body);
    if Raised in ok && MayRaise(s.context, false) && Due(s.body) != {} {
      r := RunRaise(s.context, Leave(Done, false, false), names);
      id :| id in Due(s.body);
    } else {
      var t;
      t, id := MissBlock(s.body, Inside(ok), names);
      var y := Block(s.body, t, {}, names).out;
      if y in ok {
        r := Exit(s, t, false, false, names);
      } else if y == Raised && Normal in ok {
        r := Exit(s, t, true, false, names);
      } else {
        r := Exit(s, t, false, true, names);
      }
    }
  }

  // ---------------------------------------------------------------- the result

  lemma {:induction false} OpenNothingNested(b: seq<Stmt>)
    requires OpenB(b)
    ensures !DefinesB(b) && Nested(b) == {}
    decreases b, 1
  {
    if b != [] {
      OpenNothingNestedIn(b[0]);
      OpenNothingNested(b[1..]);
    }
  }

  lemma {:induction false} OpenNothingNestedIn(s: Stmt)
    requires Open(s)
    ensures !Defines(s) && NestedOf(s) == {}
    decreases s, 0
  {
    match s {
      case If(_, body, orelse) => OpenNothingNested(body); OpenNothingNested(orelse);
      case For(_, body, orelse) => OpenNothingNested(body); OpenNothingNested(orelse);
      case While(_, body, orelse) => OpenNothingNested(body); OpenNothingNested(orelse);
      case Try(body, handlers, orelse, final) =>
        OpenNothingNested(body);
        OpenNothingNestedEach(handlers);
        OpenNothingNested(orelse);
        OpenNothingNested(final);
      case With(_, body) => OpenNothingNested(body);
      case _ =>
    }
  }

  lemma {:induction false} OpenNothingNestedEach(hs: seq<Handler>)
    requires OpenEach(hs)
    ensures !DefinesEach(hs) && NestedEach(hs) == {}
    decreases hs, 1
  {
    if hs != [] {
      OpenNothingNested(hs[0].body);
      OpenNothingNestedEach(hs[1..]);
    }
  }

  /** Every run in which the test passes evaluates the assertion. */
  ghost predicate NeverMissed(body: seq<Stmt>, id: nat) {
    forall r | Passes(RunOf(body, r)) :: id in RunOf(body, r).seen
  }

  /** In a function that is not secure some REACHABLE assertion is missed by a run in which the test passes. */
  lemma {:induction false} InsecureMisses(body: seq<Stmt>) returns (r: Run, id: nat)
    requires OpenB(body) && UniqueB(body) && !SecureBody(body)
    ensures (id, REACHABLE) in Visits(body, REACHABLE, Invoked(body)) && id !in Nested(body)
    ensures Passes(RunOf(body, r)) && id !in RunOf(body, r).seen
  {
    OpenNothingNested(body);
    r, id := MissBlock(body, {Normal, Returned}, Invoked(body));
    DueVisits(body, Invoked(body), id);
  }

  /** Every REACHABLE assertion of the function is evaluated in every run in which the test passes exactly if it is secure. */
  lemma {:induction false} SecureExactly(body: seq<Stmt>)
    requires OpenB(body) && UniqueB(body)
    ensures SecureBody(body) <==>
            forall id | (id, REACHABLE) in Visits(body, REACHABLE, Invoked(body)) :: NeverMissed(body, id)
  {
    OpenNothingNested(body);
    if SecureBody(body) {
      forall id | (id, REACHABLE) in Visits(body, REACHABLE, Invoked(body)) ensures NeverMissed(body, id) {
        forall r | Passes(RunOf(body, r)) ensures id in RunOf(body, r).seen { PassingRunEvaluates(body, r, id); }
      }
    } else {
      var r, id := InsecureMisses(body);
      assert !NeverMissed(body, id);
    }
  }
}
