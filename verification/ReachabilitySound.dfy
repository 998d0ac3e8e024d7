module ReachabilitySound {
  // What the dispositions of `assertion_reachability` say about the runs of a function.
  //
  // `NeverEvaluated`: an assertion classified UNREACHABLE is evaluated in no run.
  // `AlwaysEvaluated`: a run in which every statement completes normally evaluates every REACHABLE
  // assertion that is not inside a nested function.
  // The `Gap` lemmas give functions whose REACHABLE assertion is missed by a passing run; in which
  // functions that can happen is the subject of `PassingRuns` and `MissingRuns`.

  import opened Common
  import opened PyExpr
  import opened PyStmt
  import opened Triviality
  import opened Reachability

  // ---------------------------------------------------------------- no disposition outranks its surroundings

  lemma {:induction false} Capped(b: seq<Stmt>, live: Disposition, names: set<string>)
    ensures forall v | v in Visits(b, live, names) :: Rank(v.1) <= Rank(live)
    decreases b, 1
  {
    if b != [] {
      CappedOf(b[0], live, names);
      Capped(b[1..], Next(b[0], live), names);
    }
  }

  lemma {:induction false} CappedOf(s: Stmt, live: Disposition, names: set<string>)
    ensures forall v | v in VisitsOf(s, live, names) :: Rank(v.1) <= Rank(live)
    decreases s, 0
  {
    var soft := Merge(live, CONDITIONAL);
    match s {
      case If(test, body, orelse) =>
        Capped(body, Guarded(test, live), names);
        Capped(orelse, Negated(test, live), names);
      case For(iter, body, orelse) =>
        Capped(body, Guarded(iter, live), names);
        Capped(orelse, live, names);
      case While(test, body, orelse) =>
        Capped(body, Guarded(test, live), names);
        Capped(orelse, live, names);
      case Try(body, handlers, orelse, final) =>
        Capped(body, live, names);
        CappedEach(handlers, soft, names);
        Capped(orelse, soft, names);
        Capped(final, live, names);
      case With(_, body) => Capped(body, live, names);
      case FunctionDef(name, body) => Capped(body, if name in names then live else UNREACHABLE, names);
      case _ =>
    }
  }

  lemma {:induction false} CappedEach(hs: seq<Handler>, live: Disposition, names: set<string>)
    ensures forall v | v in VisitsEach(hs, live, names) :: Rank(v.1) <= Rank(live)
    decreases hs, 1
  {
    if hs != [] {
      Capped(hs[0].body, live, names);
      CappedEach(hs[1..], live, names);
    }
  }

  // ---------------------------------------------------------------- never

  /** The assertions some visit classifies as anything but UNREACHABLE. */
  ghost predicate MayRun(id: nat, vs: seq<Visit>) {
    exists v :: v in vs && v.0 == id && v.1 != UNREACHABLE
  }

  ghost predicate Within(part: seq<Visit>, whole: seq<Visit>) {
    forall v | v in part :: v in whole
  }

  /** A defined function that can be called was walked as live code. */
  ghost predicate Walked(f: Fn, whole: seq<Visit>, names: set<string>) {
    f.name in names ==> exists d :: d != UNREACHABLE && Within(Visits(f.body, d, names), whole)
  }

  ghost predicate Sound(x: Effect, whole: seq<Visit>, names: set<string>) {
    && (forall id | id in x.seen :: MayRun(id, whole))
    && forall f | f in x.defined :: Walked(f, whole, names)
  }

  ghost predicate AllWalked(fns: set<Fn>, whole: seq<Visit>, names: set<string>) {
    forall f | f in fns :: Walked(f, whole, names)
  }

  lemma {:induction false} NeverBlock(b: seq<Stmt>, r: Run, fns: set<Fn>, names: set<string>,
                                      live: Disposition, whole: seq<Visit>)
    requires live != UNREACHABLE && Within(Visits(b, live, names), whole) && AllWalked(fns, whole, names)
    ensures Sound(Block(b, r, fns, names), whole, names)
    decreases r, 1
  {
    if r.Step? && b != [] {
      NeverExec(b[0], r.first, fns, names, live, whole);
      var x := Exec(b[0], r.first, fns, names);
      if x.out == Normal {
        TerminatorLeaves(b[0], r.first, fns, names);
        NeverBlock(b[1..], r.rest, x.defined, names, live, whole);
      }
    }
  }

  /** Terminators and skips do not complete normally, so what follows them in a block is dead. */
  lemma {:induction false} TerminatorLeaves(s: Stmt, r: Run, fns: set<Fn>, names: set<string>)
    ensures IsTerminator(s) || IsSkip(s) ==> Exec(s, r, fns, names).out != Normal
  {
  }

  lemma {:induction false} NeverCalls(r: Run, fns: set<Fn>, names: set<string>, whole: seq<Visit>)
    requires AllWalked(fns, whole, names)
    ensures Sound(Calls(r, fns, names), whole, names)
    decreases r, 0
  {
    if r.Invoke? && r.callee in fns && r.callee.name in names {
      assert Walked(r.callee, whole, names);
      var d :| d != UNREACHABLE && Within(Visits(r.callee.body, d, names), whole);
      NeverBlock(r.callee.body, r.inner, fns, names, d, whole);
      NeverCalls(r.more, Block(r.callee.body, r.inner, fns, names).defined, names, whole);
    }
  }

  lemma {:induction false} NeverEvaluation(e: Expr, r: Run, fns: set<Fn>, names: set<string>, whole: seq<Visit>)
    requires r.Evaluate? && AllWalked(fns, whole, names)
    ensures Sound(Evaluation(e, r, fns, names).eff, whole, names)
    decreases r, 1
  {
    NeverCalls(r.calls, fns, names, whole);
  }

  lemma {:induction false} NeverExec(s: Stmt, r: Run, fns: set<Fn>, names: set<string>,
                                     live: Disposition, whole: seq<Visit>)
    requires live != UNREACHABLE && Within(VisitsOf(s, live, names), whole) && AllWalked(fns, whole, names)
    ensures Sound(Exec(s, r, fns, names), whole, names)
    decreases r, 2
  {
    match s {
      case Assert(id, test, _, _) =>
        assert (id, live) in VisitsOf(s, live, names);
        if r.Evaluate? { NeverCalls(r.calls, fns, names, whole); }
      case If(_, _, _) => NeverIf(s, r, fns, names, live, whole);
      case While(_, _, _) => NeverWhile(s, r, fns, names, live, whole);
      case For(_, _, _) => NeverFor(s, r, fns, names, live, whole);
      case Try(_, _, _, _) => NeverTry(s, r, fns, names, live, whole);
      case With(context, body) =>
        if r.Evaluate? && r.rest.Leave? {
          NeverCalls(r.calls, fns, names, whole);
          var x := Evaluation(context, r, fns, names);
          NeverBlock(body, r.rest.inner, x.eff.defined, names, live, whole);
        }
      case FunctionDef(name, body) =>
        assert Walked(Fn(name, body), whole, names) by {
          if name in names { assert live != UNREACHABLE && Within(Visits(body, live, names), whole); }
        }
      case Return(e) => if r.Evaluate? { NeverEvaluation(e, r, fns, names, whole); }
      case Raise(e) => if r.Evaluate? { NeverEvaluation(e, r, fns, names, whole); }
      case ExprStmt(e) => if r.Evaluate? { NeverEvaluation(e, r, fns, names, whole); }
      case _ =>
    }
  }

  lemma {:induction false} NeverIf(s: Stmt, r: Run, fns: set<Fn>, names: set<string>,
                                   live: Disposition, whole: seq<Visit>)
    requires s.If? && live != UNREACHABLE && Within(VisitsOf(s, live, names), whole) && AllWalked(fns, whole, names)
    ensures Sound(Exec(s, r, fns, names), whole, names)
    decreases r, 1
  {
    if r.Evaluate? {
      NeverCalls(r.calls, fns, names, whole);
      var x := Evaluation(s.test, r, fns, names);
      if x.eff.out == Normal {
        if ConstTruth(s.test).Some? { ConstTruthSound(s.test, r.env, 0); }
        if Truthy(x.v) {
          NeverBlock(s.body, r.rest, x.eff.defined, names, Guarded(s.test, live), whole);
        } else {
          NeverBlock(s.orelse, r.rest, x.eff.defined, names, Negated(s.test, live), whole);
        }
      }
    }
  }

  lemma {:induction false} NeverWhile(s: Stmt, r: Run, fns: set<Fn>, names: set<string>,
                                      live: Disposition, whole: seq<Visit>)
    requires s.While? && live != UNREACHABLE && Within(VisitsOf(s, live, names), whole) && AllWalked(fns, whole, names)
    ensures Sound(Exec(s, r, fns, names), whole, names)
    decreases r, 1
  {
    if r.Evaluate? {
      NeverCalls(r.calls, fns, names, whole);
      var x := Evaluation(s.test, r, fns, names);
      if x.eff.out == Normal {
        if ConstTruth(s.test).Some? { ConstTruthSound(s.test, r.env, 0); }
        if !Truthy(x.v) {
          NeverBlock(s.orelse, r.rest, x.eff.defined, names, live, whole);
        } else if r.rest.Step? {
          NeverBlock(s.body, r.rest.first, x.eff.defined, names, Guarded(s.test, live), whole);
          var y := Block(s.body, r.rest.first, x.eff.defined, names);
          if y.out == Normal || y.out == Continued {
            NeverWhile(s, r.rest.rest, y.defined, names, live, whole);
          }
        }
      }
    }
  }

  lemma {:induction false} NeverFor(s: Stmt, r: Run, fns: set<Fn>, names: set<string>,
                                    live: Disposition, whole: seq<Visit>)
    requires s.For? && live != UNREACHABLE && Within(VisitsOf(s, live, names), whole) && AllWalked(fns, whole, names)
    ensures Sound(Exec(s, r, fns, names), whole, names)
    decreases r, 1
  {
    if r.Evaluate? {
      NeverCalls(r.calls, fns, names, whole);
      var x := Evaluation(s.iter, r, fns, names);
      if x.eff.out == Normal && Iterations(s.iter, x.v, r.env).Some? {
        var it := Iterations(s.iter, x.v, r.env).value;
        if ConstTruth(s.iter).Some? { ConstIterations(s.iter, r.env, 0); }
        NeverLoop(s.body, s.orelse, it.0, it.1, r.rest, x.eff.defined, names, Guarded(s.iter, live), live, whole);
      }
    }
  }

  lemma {:induction false} NeverLoop(body: seq<Stmt>, orelse: seq<Stmt>, n: nat, fails: bool, r: Run,
                                     fns: set<Fn>, names: set<string>, inner: Disposition,
                                     live: Disposition, whole: seq<Visit>)
    requires n > 0 ==> inner != UNREACHABLE && Within(Visits(body, inner, names), whole)
    requires live != UNREACHABLE && Within(Visits(orelse, live, names), whole) && AllWalked(fns, whole, names)
    ensures Sound(Loop(body, orelse, n, fails, r, fns, names), whole, names)
    decreases r, 2
  {
    if n == 0 {
      NeverBlock(orelse, r, fns, names, live, whole);
    } else if r.Step? {
      NeverBlock(body, r.first, fns, names, inner, whole);
      var x := Block(body, r.first, fns, names);
      if x.out == Normal || x.out == Continued {
        NeverLoop(body, orelse, n - 1, fails, r.rest, x.defined, names, inner, live, whole);
      }
    }
  }

  lemma {:induction false} EachWithin(hs: seq<Handler>, i: nat, live: Disposition, names: set<string>)
    requires i < |hs|
    ensures Within(Visits(hs[i].body, live, names), VisitsEach(hs, live, names))
  {
    if i > 0 { EachWithin(hs[1..], i - 1, live, names); }
  }

  lemma {:induction false} NeverTry(s: Stmt, r: Run, fns: set<Fn>, names: set<string>,
                                    live: Disposition, whole: seq<Visit>)
    requires s.Try? && live != UNREACHABLE && Within(VisitsOf(s, live, names), whole) && AllWalked(fns, whole, names)
    ensures Sound(Exec(s, r, fns, names), whole, names)
    decreases r, 1
  {
    if r.Handle? {
      var soft := Merge(live, CONDITIONAL);
      NeverBlock(s.body, r.attempt, fns, names, live, whole);
      var x := Block(s.body, r.attempt, fns, names);
      var y := x;
      if x.out == Raised && r.handler < |s.handlers| {
        EachWithin(s.handlers, r.handler, soft, names);
        NeverBlock(s.handlers[r.handler].body, r.follow, x.defined, names, soft, whole);
        y := After(x, Block(s.handlers[r.handler].body, r.follow, x.defined, names));
      } else if x.out == Normal {
        NeverBlock(s.orelse, r.follow, x.defined, names, soft, whole);
        y := After(x, Block(s.orelse, r.follow, x.defined, names));
      }
      NeverBlock(s.finalbody, r.cleanup, y.defined, names, live, whole);
    }
  }

  /** An assertion whose every disposition is UNREACHABLE is evaluated in no run of the function. */
  lemma {:induction false} NeverEvaluated(body: seq<Stmt>, r: Run, id: nat)
    requires forall v | v in Visits(body, REACHABLE, Invoked(body)) && v.0 == id :: v.1 == UNREACHABLE
    ensures id !in RunOf(body, r).seen
  {
    NeverBlock(body, r, {}, Invoked(body), REACHABLE, Visits(body, REACHABLE, Invoked(body)));
  }

  // ---------------------------------------------------------------- always

  function Ids(b: seq<Stmt>): set<nat>
    decreases b, 1
  {
    if b == [] then {} else IdsOf(b[0]) + Ids(b[1..])
  }

  function IdsOf(s: Stmt): set<nat>
    decreases s, 0
  {
    match s
    case Assert(id, _, _, _) => {id}
    case If(_, body, orelse) => Ids(body) + Ids(orelse)
    case For(_, body, orelse) => Ids(body) + Ids(orelse)
    case While(_, body, orelse) => Ids(body) + Ids(orelse)
    case Try(body, handlers, orelse, final) => Ids(body) + IdsEach(handlers) + Ids(orelse) + Ids(final)
    case With(_, body) => Ids(body)
    case FunctionDef(_, body) => Ids(body)
    case _ => {}
  }

  function IdsEach(hs: seq<Handler>): set<nat>
    decreases hs, 1
  {
    if hs == [] then {} else Ids(hs[0].body) + IdsEach(hs[1..])
  }

  /** The assertions inside nested functions. */
  function Nested(b: seq<Stmt>): set<nat>
    decreases b, 1
  {
    if b == [] then {} else NestedOf(b[0]) + Nested(b[1..])
  }

  function NestedOf(s: Stmt): set<nat>
    decreases s, 0
  {
    match s
    case If(_, body, orelse) => Nested(body) + Nested(orelse)
    case For(_, body, orelse) => Nested(body) + Nested(orelse)
    case While(_, body, orelse) => Nested(body) + Nested(orelse)
    case Try(body, handlers, orelse, final) => Nested(body) + NestedEach(handlers) + Nested(orelse) + Nested(final)
    case With(_, body) => Nested(body)
    case FunctionDef(_, body) => Ids(body)
    case _ => {}
  }

  function NestedEach(hs: seq<Handler>): set<nat>
    decreases hs, 1
  {
    if hs == [] then {} else Nested(hs[0].body) + NestedEach(hs[1..])
  }

  lemma {:induction false} VisitsIds(b: seq<Stmt>, live: Disposition, names: set<string>)
    ensures forall v | v in Visits(b, live, names) :: v.0 in Ids(b)
    decreases b, 1
  {
    if b != [] {
      VisitsIdsOf(b[0], live, names);
      VisitsIds(b[1..], Next(b[0], live), names);
    }
  }

  lemma {:induction false} VisitsIdsOf(s: Stmt, live: Disposition, names: set<string>)
    ensures forall v | v in VisitsOf(s, live, names) :: v.0 in IdsOf(s)
    decreases s, 0
  {
    var soft := Merge(live, CONDITIONAL);
    match s {
      case If(test, body, orelse) =>
        VisitsIds(body, Guarded(test, live), names);
        VisitsIds(orelse, Negated(test, live), names);
      case For(iter, body, orelse) =>
        VisitsIds(body, Guarded(iter, live), names);
        VisitsIds(orelse, live, names);
      case While(test, body, orelse) =>
        VisitsIds(body, Guarded(test, live), names);
        VisitsIds(orelse, live, names);
      case Try(body, handlers, orelse, final) =>
        VisitsIds(body, live, names);
        VisitsIdsEach(handlers, soft, names);
        VisitsIds(orelse, soft, names);
        VisitsIds(final, live, names);
      case With(_, body) => VisitsIds(body, live, names);
      case FunctionDef(name, body) => VisitsIds(body, if name in names then live else UNREACHABLE, names);
      case _ =>
    }
  }

  lemma {:induction false} VisitsIdsEach(hs: seq<Handler>, live: Disposition, names: set<string>)
    ensures forall v | v in VisitsEach(hs, live, names) :: v.0 in IdsEach(hs)
    decreases hs, 1
  {
    if hs != [] {
      VisitsIds(hs[0].body, live, names);
      VisitsIdsEach(hs[1..], live, names);
    }
  }

  /** Every REACHABLE assertion outside nested functions has been evaluated. */
  ghost predicate Covers(seen: set<nat>, vs: seq<Visit>, nested: set<nat>) {
    forall v | v in vs && v.1 == REACHABLE && v.0 !in nested :: v.0 in seen
  }

  /** Every statement of the run completed normally. */
  ghost predicate Undisturbed(x: Effect) { x.quiet && x.out == Normal }

  lemma {:induction false} SoftCovers(seen: set<nat>, b: seq<Stmt>, live: Disposition, names: set<string>, nested: set<nat>)
    requires live != REACHABLE
    ensures Covers(seen, Visits(b, live, names), nested)
  {
    Capped(b, live, names);
  }

  lemma {:induction false} AlwaysBlock(b: seq<Stmt>, r: Run, fns: set<Fn>, names: set<string>,
                                       live: Disposition, nested: set<nat>)
    requires Undisturbed(Block(b, r, fns, names)) && Nested(b) <= nested
    ensures Covers(Block(b, r, fns, names).seen, Visits(b, live, names), nested)
    decreases r, 1
  {
    if r.Step? && b != [] {
      AlwaysExec(b[0], r.first, fns, names, live, nested);
      AlwaysBlock(b[1..], r.rest, Exec(b[0], r.first, fns, names).defined, names, Next(b[0], live), nested);
    }
  }

  lemma {:induction false} AlwaysExec(s: Stmt, r: Run, fns: set<Fn>, names: set<string>,
                                      live: Disposition, nested: set<nat>)
    requires Undisturbed(Exec(s, r, fns, names)) && NestedOf(s) <= nested
    ensures Covers(Exec(s, r, fns, names).seen, VisitsOf(s, live, names), nested)
    decreases r, 2
  {
    match s {
      case If(_, _, _) => AlwaysIf(s, r, fns, names, live, nested);
      case While(_, _, _) => AlwaysWhile(s, r, fns, names, live, nested);
      case For(_, _, _) => AlwaysFor(s, r, fns, names, live, nested);
      case Try(_, _, _, _) => AlwaysTry(s, r, fns, names, live, nested);
      case With(context, body) =>
        var x := Evaluation(context, r, fns, names);
        AlwaysBlock(body, r.rest.inner, x.eff.defined, names, live, nested);
      case FunctionDef(name, body) => VisitsIds(body, if name in names then live else UNREACHABLE, names);
      case _ =>
    }
  }

  lemma {:induction false} AlwaysIf(s: Stmt, r: Run, fns: set<Fn>, names: set<string>,
                                    live: Disposition, nested: set<nat>)
    requires s.If? && Undisturbed(Exec(s, r, fns, names)) && NestedOf(s) <= nested
    ensures Covers(Exec(s, r, fns, names).seen, VisitsOf(s, live, names), nested)
    decreases r, 1
  {
    var x := Evaluation(s.test, r, fns, names);
    var seen := Exec(s, r, fns, names).seen;
    if ConstTruth(s.test).Some? { ConstTruthSound(s.test, r.env, 0); }
    if Truthy(x.v) {
      AlwaysBlock(s.body, r.rest, x.eff.defined, names, Guarded(s.test, live), nested);
      SoftCovers(seen, s.orelse, Negated(s.test, live), names, nested);
    } else {
      AlwaysBlock(s.orelse, r.rest, x.eff.defined, names, Negated(s.test, live), nested);
      SoftCovers(seen, s.body, Guarded(s.test, live), names, nested);
    }
  }

  /** A quiet run of a loop leaves through its `else` clause, so its test is not constantly true. */
  lemma {:induction false} AlwaysWhile(s: Stmt, r: Run, fns: set<Fn>, names: set<string>,
                                       live: Disposition, nested: set<nat>)
    requires s.While? && Undisturbed(Exec(s, r, fns, names)) && NestedOf(s) <= nested
    ensures Covers(Exec(s, r, fns, names).seen, VisitsOf(s, live, names), nested)
    decreases r, 1
  {
    var x := Evaluation(s.test, r, fns, names);
    if Truthy(x.v) {
      var y := Block(s.body, r.rest.first, x.eff.defined, names);
      AlwaysWhile(s, r.rest.rest, y.defined, names, live, nested);
    } else {
      if ConstTruth(s.test).Some? { ConstTruthSound(s.test, r.env, 0); }
      AlwaysBlock(s.orelse, r.rest, x.eff.defined, names, live, nested);
      SoftCovers(Exec(s, r, fns, names).seen, s.body, Guarded(s.test, live), names, nested);
    }
  }

  lemma {:induction false} AlwaysFor(s: Stmt, r: Run, fns: set<Fn>, names: set<string>,
                                     live: Disposition, nested: set<nat>)
    requires s.For? && Undisturbed(Exec(s, r, fns, names)) && NestedOf(s) <= nested
    ensures Covers(Exec(s, r, fns, names).seen, VisitsOf(s, live, names), nested)
    decreases r, 1
  {
    var x := Evaluation(s.iter, r, fns, names);
    var it := Iterations(s.iter, x.v, r.env).value;
    if ConstTruth(s.iter).Some? { ConstIterations(s.iter, r.env, 0); }
    AlwaysLoop(s.body, s.orelse, it.0, it.1, r.rest, x.eff.defined, names, Guarded(s.iter, live), live, nested);
    if it.0 == 0 { SoftCovers(Exec(s, r, fns, names).seen, s.body, Guarded(s.iter, live), names, nested); }
  }

  lemma {:induction false} AlwaysLoop(body: seq<Stmt>, orelse: seq<Stmt>, n: nat, fails: bool, r: Run,
                                      fns: set<Fn>, names: set<string>, inner: Disposition,
                                      live: Disposition, nested: set<nat>)
    requires Undisturbed(Loop(body, orelse, n, fails, r, fns, names)) && Nested(body) + Nested(orelse) <= nested
    ensures Covers(Loop(body, orelse, n, fails, r, fns, names).seen, Visits(orelse, live, names), nested)
    ensures n > 0 ==> Covers(Loop(body, orelse, n, fails, r, fns, names).seen, Visits(body, inner, names), nested)
    decreases r, 2
  {
    if n == 0 {
      AlwaysBlock(orelse, r, fns, names, live, nested);
    } else {
      AlwaysBlock(body, r.first, fns, names, inner, nested);
      var x := Block(body, r.first, fns, names);
      AlwaysLoop(body, orelse, n - 1, fails, r.rest, x.defined, names, inner, live, nested);
    }
  }

  lemma {:induction false} EachSoft(seen: set<nat>, hs: seq<Handler>, live: Disposition, names: set<string>,
                                    nested: set<nat>)
    requires live != REACHABLE
    ensures Covers(seen, VisitsEach(hs, live, names), nested)
  {
    CappedEach(hs, live, names);
  }

  lemma {:induction false} AlwaysTry(s: Stmt, r: Run, fns: set<Fn>, names: set<string>,
                                     live: Disposition, nested: set<nat>)
    requires s.Try? && Undisturbed(Exec(s, r, fns, names)) && NestedOf(s) <= nested
    ensures Covers(Exec(s, r, fns, names).seen, VisitsOf(s, live, names), nested)
    decreases r, 1
  {
    var soft := Merge(live, CONDITIONAL);
    var seen := Exec(s, r, fns, names).seen;
    var x := Block(s.body, r.attempt, fns, names);
    assert Undisturbed(x);
    AlwaysBlock(s.body, r.attempt, fns, names, live, nested);
    EachSoft(seen, s.handlers, soft, names, nested);
    SoftCovers(seen, s.orelse, soft, names, nested);
    var y := After(x, Block(s.orelse, r.follow, x.defined, names));
    AlwaysBlock(s.finalbody, r.cleanup, y.defined, names, live, nested);
  }

  /**
   A run that executes no return, raise, break, continue, skip or exception evaluates every
   assertion classified REACHABLE, except those inside nested functions.
   */
  lemma {:induction false} AlwaysEvaluated(body: seq<Stmt>, r: Run, id: nat)
    requires (id, REACHABLE) in Visits(body, REACHABLE, Invoked(body)) && id !in Nested(body)
    requires Undisturbed(RunOf(body, r))
    ensures id in RunOf(body, r).seen
  {
    AlwaysBlock(body, r, {}, Invoked(body), REACHABLE, Nested(body));
  }

  // ---------------------------------------------------------------- dead code is reported

  /** Literals and their negations, with their truth value. */
  predicate LiteralTruth(e: Expr, truth: bool) {
    match e
    case Constant(c) => TruthConst(c) == truth
    case Tuple(es) => (|es| > 0) == truth
    case List(es) => (|es| > 0) == truth
    case Set(es) => (|es| > 0) == truth
    case Dict(ks, _) => (|ks| > 0) == truth
    case Not(x) => LiteralTruth(x, !truth)
    case _ => false
  }

  lemma {:induction false} LiteralFolds(e: Expr, truth: bool)
    requires LiteralTruth(e, truth)
    ensures ConstTruth(e) == Some(truth)
  {
    if e.Not? { LiteralFolds(e.operand, !truth); }
  }

  /** Wrapping code in `if False:`, `while 0:` or `for x in []:` makes all of its assertions UNREACHABLE. */
  lemma {:induction false} DeadBodyReported(e: Expr, body: seq<Stmt>, live: Disposition, names: set<string>)
    requires LiteralTruth(e, false)
    ensures forall v | v in VisitsOf(If(e, body, []), live, names) :: v.1 == UNREACHABLE
    ensures forall v | v in VisitsOf(If(Not(e), [], body), live, names) :: v.1 == UNREACHABLE
    ensures forall v | v in VisitsOf(While(e, body, []), live, names) :: v.1 == UNREACHABLE
    ensures forall v | v in VisitsOf(For(e, body, []), live, names) :: v.1 == UNREACHABLE
  {
    LiteralFolds(e, false);
    Capped(body, UNREACHABLE, names);
  }

  /** So does placing it after a return, raise, break, continue or skip in the same block. */
  lemma {:induction false} DeadTailReported(head: seq<Stmt>, exit: Stmt, tail: seq<Stmt>, live: Disposition,
                                            names: set<string>)
    requires IsTerminator(exit) || IsSkip(exit)
    ensures exists front :: Visits(head + [exit] + tail, live, names) == front + Visits(tail, UNREACHABLE, names)
    ensures forall v | v in Visits(tail, UNREACHABLE, names) :: v.1 == UNREACHABLE
    decreases head
  {
    Capped(tail, UNREACHABLE, names);
    var b := head + [exit] + tail;
    if head == [] {
      assert b[1..] == tail;
      assert Visits(b, live, names) == VisitsOf(exit, live, names) + Visits(tail, UNREACHABLE, names);
    } else {
      assert b[1..] == head[1..] + [exit] + tail;
      DeadTailReported(head[1..], exit, tail, Next(head[0], live), names);
      var front :| Visits(b[1..], Next(head[0], live), names) == front + Visits(tail, UNREACHABLE, names);
      var mine := VisitsOf(head[0], live, names);
      assert mine + (front + Visits(tail, UNREACHABLE, names)) == (mine + front) + Visits(tail, UNREACHABLE, names);
    }
  }

  // ---------------------------------------------------------------- where REACHABLE promises too much

  ghost predicate Passes(x: Effect) { x.out == Normal || x.out == Returned }

  const SOME_ASSERT := Assert(0, Opaque("result == expected", []), {}, {})

  /** `if True: return` does not end the enclosing block: what follows is REACHABLE and never evaluated. */
  lemma {:induction false} GapInnerReturn(r: Run)
    ensures var body := [If(Constant(Bool(true)), [Return(Constant(NoneValue))], []), SOME_ASSERT];
            (0, REACHABLE) in Visits(body, REACHABLE, Invoked(body)) && 0 !in RunOf(body, r).seen
  {
    var leave := [Return(Constant(NoneValue))];
    var body := [If(Constant(Bool(true)), leave, []), SOME_ASSERT];
    assert Visits(body[1..], REACHABLE, Invoked(body)) == [(0, REACHABLE)];
    assert Visits(body, REACHABLE, Invoked(body)) ==
           VisitsOf(body[0], REACHABLE, Invoked(body)) + Visits(body[1..], REACHABLE, Invoked(body));
    if r.Step? {
      NoDefsInnerReturn(r.first, Invoked(body));
    }
  }

  lemma {:induction false} NothingToCall(e: Expr, r: Run, names: set<string>)
    requires r.Evaluate?
    ensures var x := Evaluation(e, r, {}, names).eff; x.seen == {} && x.defined == {}
  {
  }

  lemma {:induction false} NoDefsInnerReturn(r: Run, names: set<string>)
    ensures var x := Exec(If(Constant(Bool(true)), [Return(Constant(NoneValue))], []), r, {}, names);
            x.out != Normal && x.seen == {}
  {
    var leave := [Return(Constant(NoneValue))];
    if r.Evaluate? {
      var x := Evaluation(Constant(Bool(true)), r, {}, names);
      NothingToCall(Constant(Bool(true)), r, names);
      if x.eff.out == Normal {
        assert Block(leave, r.rest, {}, names).out != Normal && Block(leave, r.rest, {}, names).seen == {} by {
          if r.rest.Step? {
            var y := Exec(leave[0], r.rest.first, {}, names);
            assert y == Leaving(Constant(NoneValue), r.rest.first, Returned, {}, names);
            if r.rest.first.Evaluate? {
              NothingToCall(Constant(NoneValue), r.rest.first, names);
            }
            assert y.out != Normal && y.seen == {};
          }
        }
      }
    }
  }

  /** A run in which every expression evaluates to `c`, unless it is `bad`, which raises. */
  ghost function Giving(bad: Expr, c: Const): Env {
    Env((f, d) => None, e => if e == bad then None else Some(GivenConst(c)), e => true, e => None, e => false)
  }

  ghost function Plainly(env: Env): Run { Evaluate(Done, env, Done) }

  /** `with pytest.raises(...)` swallows: the test passes without reaching the rest of the block. */
  lemma {:induction false} GapSwallowed()
    ensures var f := Opaque("f()", []);
            var body := [With(Opaque("pytest.raises(E)", []), [ExprStmt(f), SOME_ASSERT])];
            var r := Step(Evaluate(Done, Giving(f, Int(1)), Leave(Step(Plainly(Giving(f, Int(1))), Done), true, false)), Done);
            && (0, REACHABLE) in Visits(body, REACHABLE, Invoked(body))
            && Passes(RunOf(body, r)) && 0 !in RunOf(body, r).seen
  {
    var f := Opaque("f()", []);
    var env := Giving(f, Int(1));
    var inner := [ExprStmt(f), SOME_ASSERT];
    var stmt := With(Opaque("pytest.raises(E)", []), inner);
    var body := [stmt];
    var names := Invoked(body);
    var r := Evaluate(Done, env, Leave(Step(Plainly(env), Done), true, false));
    assert Visits(inner[1..], REACHABLE, names) == [(0, REACHABLE)];
    assert (0, REACHABLE) in Visits(inner, REACHABLE, names);
    assert (0, REACHABLE) in VisitsOf(stmt, REACHABLE, names);
    assert Exec(inner[0], Plainly(env), {}, names) == Effect(Raised, {}, {}, false);
    assert Block(inner, Step(Plainly(env), Done), {}, names) == Effect(Raised, {}, {}, false);
    assert Evaluation(stmt.context, r, {}, names).eff == Effect(Normal, {}, {}, true);
    assert Exec(stmt, r, {}, names) == Effect(Normal, {}, {}, false);
  }

  /** A nested function called only from dead code is still taken to run. */
  lemma {:induction false} GapUncalled()
    ensures var call := ExprStmt(Call("check", [], 0));
            var body := [FunctionDef("check", [SOME_ASSERT]), If(Constant(Bool(false)), [call], [])];
            var r := Step(Done, Step(Evaluate(Done, Giving(Constant(NoneValue), Int(1)), Done), Done));
            && (0, REACHABLE) in Visits(body, REACHABLE, Invoked(body))
            && Undisturbed(RunOf(body, r)) && 0 !in RunOf(body, r).seen
  {
    var call := ExprStmt(Call("check", [], 0));
    var branch := If(Constant(Bool(false)), [call], []);
    var body := [FunctionDef("check", [SOME_ASSERT]), branch];
    var names := Invoked(body);
    assert Called(call.value) == {"check"} + CalledAll([]);
    assert Invoked([call]) == InvokedBy(call) + Invoked([][..]);
    assert "check" in Invoked([call]);
    assert "check" in InvokedBy(branch);
    assert body[1..] == [branch];
    assert "check" in Invoked(body[1..]);
    assert "check" in names;
    assert Visits([SOME_ASSERT], REACHABLE, names) == [(0, REACHABLE)] + Visits([SOME_ASSERT][1..], REACHABLE, names);
    assert (0, REACHABLE) in VisitsOf(body[0], REACHABLE, names);
    var env := Giving(Constant(NoneValue), Int(1));
    var fns := {Fn("check", [SOME_ASSERT])};
    assert Exec(body[0], Done, {}, names) == Effect(Normal, {}, fns, true);
    assert Evaluation(branch.test, Evaluate(Done, env, Done), fns, names).eff == Effect(Normal, {}, fns, true);
    assert Exec(branch, Evaluate(Done, env, Done), fns, names) == Effect(Normal, {}, fns, true);
    assert Block(body[1..], Step(Evaluate(Done, env, Done), Done), fns, names) == Effect(Normal, {}, fns, true);
  }
}
