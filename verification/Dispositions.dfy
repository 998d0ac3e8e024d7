module Dispositions {
  // The disposition of every assertion, told from where it stands: UNREACHABLE in dead code, CONDITIONAL
  // where something undecided comes before it, REACHABLE otherwise.

  import opened Common
  import opened PyExpr
  import opened PyStmt
  import opened Triviality
  import opened Reachability
  import opened ReachabilitySound
  import opened Contracts
  import opened PyWalk

  // ---------------------------------------------------------------- where an assertion stands

  /** The statement ends its block: return, raise, break, continue, or one of the three ways out of pytest. */
  predicate Exit(s: Stmt) {
    match s
    case Return(_) | Raise(_) | Break | Continue => true
    case ExprStmt(AttrCall(base, attr, _)) => base == "pytest" && (attr == "skip" || attr == "xfail" || attr == "exit")
    case _ => false
  }

  /** The test is no literal, negated or not. */
  predicate Undecided(e: Expr) { !LiteralTruth(e, true) && !LiteralTruth(e, false) }

  /** The assertion is in code that cannot run: after an exit, under a literal that excludes it, or in a function nobody calls. */
  ghost predicate Dead(b: seq<Stmt>, id: nat, names: set<string>)
    decreases b, 1
  {
    exists i | 0 <= i < |b| :: id in IdsOf(b[i]) && ((exists j | 0 <= j < i :: Exit(b[j])) || DeadOf(b[i], id, names))
  }

  ghost predicate DeadOf(s: Stmt, id: nat, names: set<string>)
    decreases s, 0
  {
    match s
    case If(test, body, orelse) =>
      || (id in Ids(body) && (LiteralTruth(test, false) || Dead(body, id, names)))
      || (id in Ids(orelse) && (LiteralTruth(test, true) || Dead(orelse, id, names)))
    case For(iter, body, orelse) =>
      (id in Ids(body) && (LiteralTruth(iter, false) || Dead(body, id, names))) || Dead(orelse, id, names)
    case While(test, body, orelse) =>
      (id in Ids(body) && (LiteralTruth(test, false) || Dead(body, id, names))) || Dead(orelse, id, names)
    case Try(body, handlers, orelse, final) =>
      || Dead(body, id, names) || (exists h | h in handlers :: Dead(h.body, id, names))
      || Dead(orelse, id, names) || Dead(final, id, names)
    case With(_, body) => Dead(body, id, names)
    case FunctionDef(name, body) => id in Ids(body) && (name !in names || Dead(body, id, names))
    case _ => false
  }

  /** Something undecided comes before it: a branch, a loop, an exception handler or the `else` of a `try`. */
  ghost predicate Soft(b: seq<Stmt>, id: nat)
    decreases b, 1
  {
    exists s | s in b :: SoftOf(s, id)
  }

  ghost predicate SoftOf(s: Stmt, id: nat)
    decreases s, 0
  {
    match s
    case If(test, body, orelse) =>
      (Undecided(test) && id in Ids(body) + Ids(orelse)) || Soft(body, id) || Soft(orelse, id)
    case For(iter, body, orelse) => (Undecided(iter) && id in Ids(body)) || Soft(body, id) || Soft(orelse, id)
    case While(test, body, orelse) => (Undecided(test) && id in Ids(body)) || Soft(body, id) || Soft(orelse, id)
    case Try(body, handlers, orelse, final) =>
      Soft(body, id) || id in IdsEach(handlers) + Ids(orelse) || Soft(final, id)
    case With(_, body) => Soft(body, id)
    case FunctionDef(_, body) => Soft(body, id)
    case _ => false
  }

  /** No assertion occurs twice. */
  ghost predicate Apart(b: seq<Stmt>)
    decreases b, 1
  {
    b == [] || (ApartOf(b[0]) && Apart(b[1..]) && IdsOf(b[0]) !! Ids(b[1..]))
  }

  ghost predicate ApartOf(s: Stmt)
    decreases s, 0
  {
    match s
    case If(_, body, orelse) => Apart(body) && Apart(orelse) && Ids(body) !! Ids(orelse)
    case For(_, body, orelse) => Apart(body) && Apart(orelse) && Ids(body) !! Ids(orelse)
    case While(_, body, orelse) => Apart(body) && Apart(orelse) && Ids(body) !! Ids(orelse)
    case Try(body, handlers, orelse, final) =>
      && Apart(body) && ApartEach(handlers) && Apart(orelse) && Apart(final)
      && Ids(body) !! IdsEach(handlers) !! Ids(orelse) !! Ids(final)
    case With(_, body) => Apart(body)
    case FunctionDef(_, body) => Apart(body)
    case _ => true
  }

  ghost predicate ApartEach(hs: seq<Handler>)
    decreases hs, 1
  {
    hs == [] || (Apart(hs[0].body) && ApartEach(hs[1..]) && Ids(hs[0].body) !! IdsEach(hs[1..]))
  }

  /** What the walk says about an assertion in code that is walked with `live`. */
  function Verdict(live: Disposition, dead: bool, soft: bool): Disposition {
    if dead || live == UNREACHABLE then UNREACHABLE else if soft || live == CONDITIONAL then CONDITIONAL else REACHABLE
  }

  predicate Known(live: Disposition) { live != UNRESOLVED }

  // ---------------------------------------------------------------- blocks from their first statement

  lemma {:induction false} ExitIs(s: Stmt)
    ensures Exit(s) <==> IsTerminator(s) || IsSkip(s)
  {
  }

  lemma {:induction false} FoldsLiteral(e: Expr)
    ensures forall truth :: ConstTruth(e) == Some(truth) <==> LiteralTruth(e, truth)
  {
    if e.Not? { FoldsLiteral(e.operand); }
  }

  lemma {:induction false} HeadVerdict(e: Expr, live: Disposition)
    requires Known(live)
    ensures Known(Guarded(e, live)) && Guarded(e, live) == Verdict(live, LiteralTruth(e, false), Undecided(e))
    ensures Known(Negated(e, live)) && Negated(e, live) == Verdict(live, LiteralTruth(e, true), Undecided(e))
  {
    FoldsLiteral(e);
  }

  lemma {:induction false} TwiceVerdict(live: Disposition, dead: bool, soft: bool, dead': bool, soft': bool)
    requires Known(live)
    ensures Verdict(Verdict(live, dead, soft), dead', soft') == Verdict(live, dead || dead', soft || soft')
  {
  }

  lemma {:induction false} DeadIds(b: seq<Stmt>, id: nat, names: set<string>)
    requires Dead(b, id, names)
    ensures id in Ids(b)
  {
    var i :| 0 <= i < |b| && id in IdsOf(b[i]);
    IdsAt(b, i);
  }

  lemma {:induction false} IdsAt(b: seq<Stmt>, i: nat)
    requires i < |b|
    ensures IdsOf(b[i]) <= Ids(b)
  {
    if i > 0 { IdsAt(b[1..], i - 1); }
  }

  lemma {:induction false} HandlerIds(hs: seq<Handler>, h: Handler)
    requires h in hs
    ensures Ids(h.body) <= IdsEach(hs)
  {
    if h != hs[0] { HandlerIds(hs[1..], h); }
  }

  lemma {:induction false} DeadOfIds(s: Stmt, id: nat, names: set<string>)
    requires DeadOf(s, id, names)
    ensures id in IdsOf(s)
  {
    match s {
      case If(_, _, _) =>
      case For(_, _, orelse) => if Dead(orelse, id, names) { DeadIds(orelse, id, names); }
      case While(_, _, orelse) => if Dead(orelse, id, names) { DeadIds(orelse, id, names); }
      case Try(body, handlers, orelse, final) =>
        if Dead(body, id, names) {
          DeadIds(body, id, names);
        } else if Dead(orelse, id, names) {
          DeadIds(orelse, id, names);
        } else if Dead(final, id, names) {
          DeadIds(final, id, names);
        } else {
          var h :| h in handlers && Dead(h.body, id, names);
          DeadIds(h.body, id, names);
          HandlerIds(handlers, h);
        }
      case With(_, body) => DeadIds(body, id, names);
      case _ =>
    }
  }

  lemma {:induction false} SoftIds(b: seq<Stmt>, id: nat)
    requires Soft(b, id)
    ensures id in Ids(b)
    decreases b, 1
  {
    var s :| s in b && SoftOf(s, id);
    SoftOfIds(s, id);
    var i :| 0 <= i < |b| && b[i] == s;
    IdsAt(b, i);
  }

  lemma {:induction false} SoftOfIds(s: Stmt, id: nat)
    requires SoftOf(s, id)
    ensures id in IdsOf(s)
    decreases s, 0
  {
    match s {
      case If(_, body, orelse) =>
        if Soft(body, id) { SoftIds(body, id); }
        if Soft(orelse, id) { SoftIds(orelse, id); }
      case For(_, body, orelse) =>
        if Soft(body, id) { SoftIds(body, id); }
        if Soft(orelse, id) { SoftIds(orelse, id); }
      case While(_, body, orelse) =>
        if Soft(body, id) { SoftIds(body, id); }
        if Soft(orelse, id) { SoftIds(orelse, id); }
      case Try(body, _, _, final) =>
        if Soft(body, id) { SoftIds(body, id); }
        if Soft(final, id) { SoftIds(final, id); }
      case With(_, body) => SoftIds(body, id);
      case FunctionDef(_, body) => SoftIds(body, id);
    }
  }

  /** Dead code in a block: in its first statement, after it, or in the rest. */
  lemma {:induction false} DeadSplit(b: seq<Stmt>, id: nat, names: set<string>)
    requires b != [] && IdsOf(b[0]) !! Ids(b[1..])
    ensures id in IdsOf(b[0]) ==> (Dead(b, id, names) <==> DeadOf(b[0], id, names))
    ensures id in Ids(b[1..]) ==> (Dead(b, id, names) <==> Exit(b[0]) || Dead(b[1..], id, names))
  {
    if DeadOf(b[0], id, names) { DeadOfIds(b[0], id, names); }
    if Dead(b, id, names) {
      var i :| 0 <= i < |b| && id in IdsOf(b[i]) && ((exists j | 0 <= j < i :: Exit(b[j])) || DeadOf(b[i], id, names));
      if i > 0 { DeadFurther(b, i, id, names); }
    }
    if id in Ids(b[1..]) && (Exit(b[0]) || Dead(b[1..], id, names)) { DeadLater(b, id, names); }
  }

  lemma {:induction false} DeadFurther(b: seq<Stmt>, i: nat, id: nat, names: set<string>)
    requires 0 < i < |b| && id in IdsOf(b[i]) && ((exists j | 0 <= j < i :: Exit(b[j])) || DeadOf(b[i], id, names))
    ensures id in Ids(b[1..]) && (Exit(b[0]) || Dead(b[1..], id, names))
  {
    var rest := b[1..];
    IdsAt(rest, i - 1);
    assert rest[i - 1] == b[i];
    if !DeadOf(b[i], id, names) && !Exit(b[0]) {
      var j :| 0 <= j < i && Exit(b[j]);
      assert rest[j - 1] == b[j];
    }
  }

  lemma {:induction false} DeadLater(b: seq<Stmt>, id: nat, names: set<string>)
    requires b != [] && id in Ids(b[1..]) && (Exit(b[0]) || Dead(b[1..], id, names))
    ensures Dead(b, id, names)
  {
    var rest := b[1..];
    if Dead(rest, id, names) {
      var i :| 0 <= i < |rest| && id in IdsOf(rest[i]) &&
             ((exists j | 0 <= j < i :: Exit(rest[j])) || DeadOf(rest[i], id, names));
      assert b[i + 1] == rest[i];
      if !DeadOf(rest[i], id, names) {
        var j :| 0 <= j < i && Exit(rest[j]);
        assert b[j + 1] == rest[j];
      }
    } else {
      var i := WhereId(rest, id);
      assert b[i + 1] == rest[i] && Exit(b[0]);
    }
  }

  lemma {:induction false} WhereId(b: seq<Stmt>, id: nat) returns (i: nat)
    requires id in Ids(b)
    ensures i < |b| && id in IdsOf(b[i])
  {
    if id in IdsOf(b[0]) {
      i := 0;
    } else {
      i := WhereId(b[1..], id);
      i := i + 1;
    }
  }

  lemma {:induction false} SoftSplit(b: seq<Stmt>, id: nat)
    requires b != [] && IdsOf(b[0]) !! Ids(b[1..])
    ensures id in IdsOf(b[0]) ==> (Soft(b, id) <==> SoftOf(b[0], id))
    ensures id in Ids(b[1..]) ==> (Soft(b, id) <==> Soft(b[1..], id))
  {
    assert b == [b[0]] + b[1..];
    if SoftOf(b[0], id) { SoftOfIds(b[0], id); }
    if Soft(b[1..], id) { SoftIds(b[1..], id); }
  }

  // ---------------------------------------------------------------- the walk gives the verdict

  ghost predicate BlockJudged(b: seq<Stmt>, live: Disposition, names: set<string>) {
    forall v | v in Visits(b, live, names) :: v.1 == Verdict(live, Dead(b, v.0, names), Soft(b, v.0))
  }

  ghost predicate StmtJudged(s: Stmt, live: Disposition, names: set<string>) {
    forall v | v in VisitsOf(s, live, names) :: v.1 == Verdict(live, DeadOf(s, v.0, names), SoftOf(s, v.0))
  }

  ghost predicate HandlersJudged(hs: seq<Handler>, live: Disposition, names: set<string>) {
    forall v | v in VisitsEach(hs, live, names) ::
      v.1 == Verdict(live, exists h | h in hs :: Dead(h.body, v.0, names), exists h | h in hs :: Soft(h.body, v.0))
  }

  lemma {:induction false} JudgeBlock(b: seq<Stmt>, live: Disposition, names: set<string>)
    requires Apart(b) && Known(live)
    ensures BlockJudged(b, live, names)
    decreases b, 2
  {
    if b != [] {
      JudgeStmt(b[0], live, names);
      JudgeBlock(b[1..], Next(b[0], live), names);
      ExitIs(b[0]);
      VisitsIdsOf(b[0], live, names);
      VisitsIds(b[1..], Next(b[0], live), names);
      forall v | v in Visits(b, live, names) ensures v.1 == Verdict(live, Dead(b, v.0, names), Soft(b, v.0)) {
        DeadSplit(b, v.0, names);
        SoftSplit(b, v.0);
      }
    }
  }

  lemma {:induction false} JudgeStmt(s: Stmt, live: Disposition, names: set<string>)
    requires ApartOf(s) && Known(live)
    ensures StmtJudged(s, live, names)
    decreases s, 1
  {
    match s {
      case If(_, _, _) => JudgeIf(s, live, names);
      case For(iter, body, orelse) => JudgeLoop(s, iter, body, orelse, live, names);
      case While(test, body, orelse) => JudgeLoop(s, test, body, orelse, live, names);
      case Try(_, _, _, _) => JudgeTry(s, live, names);
      case With(_, body) => JudgeBlock(body, live, names);
      case FunctionDef(name, body) =>
        JudgeBlock(body, if name in names then live else UNREACHABLE, names);
        VisitsIds(body, if name in names then live else UNREACHABLE, names);
      case _ =>
    }
  }

  /** The assertions of a block that is not the one asked about. */
  lemma {:induction false} Elsewhere(b: seq<Stmt>, id: nat, names: set<string>)
    requires id !in Ids(b)
    ensures !Dead(b, id, names) && !Soft(b, id)
  {
    if Dead(b, id, names) { DeadIds(b, id, names); }
    if Soft(b, id) { SoftIds(b, id); }
  }

  lemma {:induction false} JudgeIf(s: Stmt, live: Disposition, names: set<string>)
    requires s.If? && ApartOf(s) && Known(live)
    ensures StmtJudged(s, live, names)
    decreases s, 0
  {
    HeadVerdict(s.test, live);
    JudgeBlock(s.body, Guarded(s.test, live), names);
    JudgeBlock(s.orelse, Negated(s.test, live), names);
    VisitsIds(s.body, Guarded(s.test, live), names);
    VisitsIds(s.orelse, Negated(s.test, live), names);
    forall v | v in VisitsOf(s, live, names) ensures v.1 == Verdict(live, DeadOf(s, v.0, names), SoftOf(s, v.0)) {
      if v in Visits(s.body, Guarded(s.test, live), names) {
        Elsewhere(s.orelse, v.0, names);
        TwiceVerdict(live, LiteralTruth(s.test, false), Undecided(s.test), Dead(s.body, v.0, names), Soft(s.body, v.0));
      } else {
        Elsewhere(s.body, v.0, names);
        TwiceVerdict(live, LiteralTruth(s.test, true), Undecided(s.test), Dead(s.orelse, v.0, names), Soft(s.orelse, v.0));
      }
    }
  }

  lemma {:induction false} JudgeLoop(s: Stmt, head: Expr, body: seq<Stmt>, orelse: seq<Stmt>, live: Disposition,
                                     names: set<string>)
    requires s == For(head, body, orelse) || s == While(head, body, orelse)
    requires ApartOf(s) && Known(live)
    ensures StmtJudged(s, live, names)
    decreases s, 0, 0
  {
    HeadVerdict(head, live);
    JudgeBlock(body, Guarded(head, live), names);
    JudgeBlock(orelse, live, names);
    VisitsIds(body, Guarded(head, live), names);
    VisitsIds(orelse, live, names);
    forall v | v in VisitsOf(s, live, names) ensures v.1 == Verdict(live, DeadOf(s, v.0, names), SoftOf(s, v.0)) {
      if v in Visits(body, Guarded(head, live), names) {
        Elsewhere(orelse, v.0, names);
        TwiceVerdict(live, LiteralTruth(head, false), Undecided(head), Dead(body, v.0, names), Soft(body, v.0));
      } else {
        Elsewhere(body, v.0, names);
      }
    }
  }

  lemma {:induction false} JudgeHandlers(hs: seq<Handler>, live: Disposition, names: set<string>)
    requires ApartEach(hs) && Known(live)
    ensures HandlersJudged(hs, live, names)
    decreases hs, 1
  {
    if hs != [] {
      JudgeBlock(hs[0].body, live, names);
      JudgeHandlers(hs[1..], live, names);
      VisitsIds(hs[0].body, live, names);
      VisitsIdsEach(hs[1..], live, names);
      assert forall h | h in hs :: h == hs[0] || h in hs[1..];
      assert hs == [hs[0]] + hs[1..] && hs[0] in hs;
      forall v | v in VisitsEach(hs, live, names)
        ensures v.1 == Verdict(live, exists h | h in hs :: Dead(h.body, v.0, names), exists h | h in hs :: Soft(h.body, v.0))
      {
        if v in Visits(hs[0].body, live, names) { NoHandler(hs[1..], v.0, names); } else { Elsewhere(hs[0].body, v.0, names); }
      }
    }
  }

  lemma {:induction false} NoHandler(hs: seq<Handler>, id: nat, names: set<string>)
    requires id !in IdsEach(hs)
    ensures forall h | h in hs :: !Dead(h.body, id, names) && !Soft(h.body, id)
  {
    forall h | h in hs ensures !Dead(h.body, id, names) && !Soft(h.body, id) {
      HandlerIds(hs, h);
      Elsewhere(h.body, id, names);
    }
  }

  lemma {:induction false} JudgeTry(s: Stmt, live: Disposition, names: set<string>)
    requires s.Try? && ApartOf(s) && Known(live)
    ensures StmtJudged(s, live, names)
    decreases s, 0
  {
    var soft := Merge(live, CONDITIONAL);
    JudgeBlock(s.body, live, names);
    JudgeHandlers(s.handlers, soft, names);
    JudgeBlock(s.orelse, soft, names);
    JudgeBlock(s.finalbody, live, names);
    VisitsIds(s.body, live, names);
    VisitsIdsEach(s.handlers, soft, names);
    VisitsIds(s.orelse, soft, names);
    VisitsIds(s.finalbody, live, names);
    forall v | v in VisitsOf(s, live, names) ensures v.1 == Verdict(live, DeadOf(s, v.0, names), SoftOf(s, v.0)) {
      if v.0 !in Ids(s.body) { Elsewhere(s.body, v.0, names); }
      if v.0 !in IdsEach(s.handlers) { NoHandler(s.handlers, v.0, names); }
      if v.0 !in Ids(s.orelse) { Elsewhere(s.orelse, v.0, names); }
      if v.0 !in Ids(s.finalbody) { Elsewhere(s.finalbody, v.0, names); }
    }
  }

  // ---------------------------------------------------------------- assertions with different identities

  function IdSet(asserts: seq<Stmt>): set<nat>
    requires forall a | a in asserts :: a.Assert?
  {
    set a | a in asserts :: a.id
  }

  ghost predicate DifferentIds(asserts: seq<Stmt>)
    requires forall a | a in asserts :: a.Assert?
  {
    forall i, j | 0 <= i < j < |asserts| :: asserts[i].id != asserts[j].id
  }

  lemma {:induction false} IdSetSum(xs: seq<Stmt>, ys: seq<Stmt>)
    requires (forall a | a in xs :: a.Assert?) && forall a | a in ys :: a.Assert?
    ensures IdSet(xs + ys) == IdSet(xs) + IdSet(ys)
    ensures DifferentIds(xs + ys) ==> DifferentIds(xs) && DifferentIds(ys) && IdSet(xs) !! IdSet(ys)
  {
    if DifferentIds(xs + ys) {
      forall i, j | 0 <= i < j < |xs| ensures xs[i].id != xs[j].id { assert (xs + ys)[i].id != (xs + ys)[j].id; }
      forall i, j | 0 <= i < j < |ys| ensures ys[i].id != ys[j].id {
        assert (xs + ys)[|xs| + i].id != (xs + ys)[|xs| + j].id;
      }
      forall i, j | 0 <= i < |xs| && 0 <= j < |ys| ensures xs[i].id != ys[j].id {
        assert (xs + ys)[i].id != (xs + ys)[|xs| + j].id;
      }
    }
  }

  lemma {:induction false} ApartBlock(b: seq<Stmt>)
    ensures IdSet(AssertsIn(b)) == Ids(b)
    ensures DifferentIds(AssertsIn(b)) ==> Apart(b)
    decreases b, 2
  {
    if b != [] {
      ApartStmt(b[0]);
      ApartBlock(b[1..]);
      IdSetSum(AssertsOf(b[0]), AssertsIn(b[1..]));
    }
  }

  lemma {:induction false} ApartStmt(s: Stmt)
    ensures IdSet(AssertsOf(s)) == IdsOf(s)
    ensures DifferentIds(AssertsOf(s)) ==> ApartOf(s)
    decreases s, 1
  {
    match s {
      case If(_, _, _) => ApartTwo(s);
      case For(_, _, _) => ApartTwo(s);
      case While(_, _, _) => ApartTwo(s);
      case Try(_, _, _, _) => ApartTry(s);
      case With(_, body) => ApartBlock(body);
      case FunctionDef(_, body) => ApartBlock(body);
      case _ =>
    }
  }

  lemma {:induction false} ApartTwo(s: Stmt)
    requires s.If? || s.For? || s.While?
    ensures IdSet(AssertsOf(s)) == IdsOf(s)
    ensures DifferentIds(AssertsOf(s)) ==> ApartOf(s)
    decreases s, 0
  {
    ApartBlock(s.body);
    ApartBlock(s.orelse);
    IdSetSum(AssertsIn(s.body), AssertsIn(s.orelse));
  }

  lemma {:induction false} ApartTry(s: Stmt)
    requires s.Try?
    ensures IdSet(AssertsOf(s)) == IdsOf(s)
    ensures DifferentIds(AssertsOf(s)) ==> ApartOf(s)
    decreases s, 0
  {
    ApartBlock(s.body);
    ApartEachHandler(s.handlers);
    ApartBlock(s.orelse);
    ApartBlock(s.finalbody);
    var w, x, y, z := AssertsIn(s.body), AssertsEach(s.handlers), AssertsIn(s.orelse), AssertsIn(s.finalbody);
    IdSetSum(w, x);
    IdSetSum(w + x, y);
    IdSetSum(w + x + y, z);
  }

  lemma {:induction false} ApartEachHandler(hs: seq<Handler>)
    ensures IdSet(AssertsEach(hs)) == IdsEach(hs)
    ensures DifferentIds(AssertsEach(hs)) ==> ApartEach(hs)
    decreases hs, 1
  {
    if hs != [] {
      ApartBlock(hs[0].body);
      ApartEachHandler(hs[1..]);
      IdSetSum(AssertsIn(hs[0].body), AssertsEach(hs[1..]));
    }
  }

  // ---------------------------------------------------------------- nothing is left out

  /** The assertions listed are all the assertions of the block, at any depth. */
  lemma {:induction false} AssertsInExactly(b: seq<Stmt>, a: Stmt)
    ensures a in AssertsIn(b) <==> a.Assert? && Inside(a, b)
    decreases b, 2
  {
    if b != [] {
      AssertsOfExactly(b[0], a);
      AssertsInExactly(b[1..], a);
      InsideSplit(a, b);
    }
  }

  lemma {:induction false} AssertsOfExactly(s: Stmt, a: Stmt)
    ensures a in AssertsOf(s) <==> a.Assert? && (a == s || Under(a, s))
    decreases s, 1
  {
    match s {
      case If(_, body, orelse) =>
        AssertsInExactly(body, a);
        AssertsInExactly(orelse, a);
      case For(_, body, orelse) =>
        AssertsInExactly(body, a);
        AssertsInExactly(orelse, a);
      case While(_, body, orelse) =>
        AssertsInExactly(body, a);
        AssertsInExactly(orelse, a);
      case Try(body, handlers, orelse, final) =>
        AssertsInExactly(body, a);
        AssertsEachExactly(handlers, a);
        AssertsInExactly(orelse, a);
        AssertsInExactly(final, a);
      case With(_, body) => AssertsInExactly(body, a);
      case FunctionDef(_, body) => AssertsInExactly(body, a);
      case _ =>
    }
  }

  lemma {:induction false} AssertsEachExactly(hs: seq<Handler>, a: Stmt)
    ensures a in AssertsEach(hs) <==> a.Assert? && exists h | h in hs :: Inside(a, h.body)
    decreases hs, 1
  {
    if hs != [] {
      AssertsInExactly(hs[0].body, a);
      AssertsEachExactly(hs[1..], a);
      assert forall h | h in hs :: h == hs[0] || h in hs[1..];
    }
  }

  /** The assertion is in a function defined in the block, at any depth. */
  ghost predicate InFunction(b: seq<Stmt>, id: nat) {
    exists name, body :: Inside(FunctionDef(name, body), b) && id in Ids(body)
  }

  ghost predicate InFunctionUnder(s: Stmt, id: nat) {
    exists name, body :: Under(FunctionDef(name, body), s) && id in Ids(body)
  }

  /** The assertions told apart as those of nested functions are just those. */
  lemma {:induction false} InFunctionExactly(b: seq<Stmt>, id: nat)
    ensures id in Nested(b) <==> InFunction(b, id)
    decreases b, 3
  {
    if b != [] {
      InFunctionExactlyOf(b[0], id);
      InFunctionExactly(b[1..], id);
      forall x ensures Inside(x, b) <==> x == b[0] || Under(x, b[0]) || Inside(x, b[1..]) { InsideSplit(x, b); }
      if InFunction(b[1..], id) {
        var name, body :| Inside(FunctionDef(name, body), b[1..]) && id in Ids(body);
        assert Inside(FunctionDef(name, body), b);
      }
      if InFunctionUnder(b[0], id) {
        var name, body :| Under(FunctionDef(name, body), b[0]) && id in Ids(body);
        assert Inside(FunctionDef(name, body), b);
      }
    }
  }

  lemma {:induction false} InFunctionExactlyOf(s: Stmt, id: nat)
    ensures id in NestedOf(s) <==> (s.FunctionDef? && id in Ids(s.body)) || InFunctionUnder(s, id)
    decreases s, 2
  {
    match s {
      case If(_, body, orelse) =>
        InFunctionExactly(body, id);
        InFunctionExactly(orelse, id);
      case For(_, body, orelse) =>
        InFunctionExactly(body, id);
        InFunctionExactly(orelse, id);
      case While(_, body, orelse) =>
        InFunctionExactly(body, id);
        InFunctionExactly(orelse, id);
      case Try(body, handlers, orelse, final) =>
        InFunctionExactly(body, id);
        InFunctionExactlyEach(handlers, id);
        InFunctionExactly(orelse, id);
        InFunctionExactly(final, id);
      case With(_, body) => InFunctionExactly(body, id);
      case FunctionDef(_, body) =>
        if InFunctionUnder(s, id) {
          var name, inner :| Under(FunctionDef(name, inner), s) && id in Ids(inner);
          InsideIds(name, inner, body, id);
        }
      case _ =>
    }
  }

  lemma {:induction false} InFunctionExactlyEach(hs: seq<Handler>, id: nat)
    ensures id in NestedEach(hs) <==> exists h | h in hs :: InFunction(h.body, id)
    decreases hs, 1
  {
    if hs != [] {
      InFunctionExactly(hs[0].body, id);
      InFunctionExactlyEach(hs[1..], id);
      assert forall h | h in hs :: h == hs[0] || h in hs[1..];
    }
  }

  // ---------------------------------------------------------------- the result

  /** Where an assertion of a test stands. */
  ghost predicate InDeadCode(body: seq<Stmt>, id: nat) { Dead(body, id, Invoked(body)) }

  ghost function Place(t: Test, id: nat): Disposition {
    if InDeadCode(t.body, id) then UNREACHABLE else if Soft(t.body, id) then CONDITIONAL else REACHABLE
  }

  /** The analysis gives every assertion the disposition that its place calls for. */
  lemma {:induction false} DispositionExactly(t: Test, host: Host, i: nat)
    requires UniqueIds(t.body) && i < |AssertsIn(t.body)|
    ensures Analysis(t, host).asserts[i].reachability == Place(t, AssertsIn(t.body)[i].id)
  {
    ApartBlock(t.body);
    AnalysisFaithful(t, host, i);
    JudgeBlock(t.body, REACHABLE, Invoked(t.body));
  }

  /** A nested function stands where it stands: its assertions are among those of the block. */
  lemma {:induction false} InsideIds(name: string, body: seq<Stmt>, b: seq<Stmt>, id: nat)
    requires Inside(FunctionDef(name, body), b) && id in Ids(body)
    ensures id in Ids(b)
    decreases b, 1
  {
    var s :| s in b && (FunctionDef(name, body) == s || Under(FunctionDef(name, body), s));
    if s != FunctionDef(name, body) { UnderIds(name, body, s, id); }
    var i :| 0 <= i < |b| && b[i] == s;
    IdsAt(b, i);
  }

  lemma {:induction false} UnderIds(name: string, body: seq<Stmt>, s: Stmt, id: nat)
    requires Under(FunctionDef(name, body), s) && id in Ids(body)
    ensures id in IdsOf(s)
    decreases s, 0
  {
    var f := FunctionDef(name, body);
    match s {
      case If(_, b, c) => if Inside(f, b) { InsideIds(name, body, b, id); } else { InsideIds(name, body, c, id); }
      case For(_, b, c) => if Inside(f, b) { InsideIds(name, body, b, id); } else { InsideIds(name, body, c, id); }
      case While(_, b, c) => if Inside(f, b) { InsideIds(name, body, b, id); } else { InsideIds(name, body, c, id); }
      case Try(b, hs, c, d) =>
        if Inside(f, b) {
          InsideIds(name, body, b, id);
        } else if Inside(f, c) {
          InsideIds(name, body, c, id);
        } else if Inside(f, d) {
          InsideIds(name, body, d, id);
        } else {
          var h :| h in hs && Inside(f, h.body);
          InsideIds(name, body, h.body, id);
          HandlerIds(hs, h);
        }
      case With(_, b) => InsideIds(name, body, b, id);
      case FunctionDef(_, b) => InsideIds(name, body, b, id);
    }
  }

  lemma {:induction false} InsideDead(name: string, body: seq<Stmt>, b: seq<Stmt>, id: nat, names: set<string>)
    requires Inside(FunctionDef(name, body), b) && id in Ids(body) && name !in names
    ensures Dead(b, id, names)
    decreases b, 1
  {
    var s :| s in b && (FunctionDef(name, body) == s || Under(FunctionDef(name, body), s));
    if s != FunctionDef(name, body) {
      UnderIds(name, body, s, id);
      UnderDead(name, body, s, id, names);
    }
    var i :| 0 <= i < |b| && b[i] == s;
    assert DeadOf(b[i], id, names);
  }

  lemma {:induction false} UnderDead(name: string, body: seq<Stmt>, s: Stmt, id: nat, names: set<string>)
    requires Under(FunctionDef(name, body), s) && id in Ids(body) && name !in names
    ensures DeadOf(s, id, names)
    decreases s, 0
  {
    var f := FunctionDef(name, body);
    UnderIds(name, body, s, id);
    match s {
      case If(_, b, c) =>
        if Inside(f, b) { InsideIn(name, body, b, id, names); } else { InsideIn(name, body, c, id, names); }
      case For(_, b, c) =>
        if Inside(f, b) { InsideIn(name, body, b, id, names); } else { InsideIn(name, body, c, id, names); }
      case While(_, b, c) =>
        if Inside(f, b) { InsideIn(name, body, b, id, names); } else { InsideIn(name, body, c, id, names); }
      case Try(b, hs, c, d) =>
        if Inside(f, b) {
          InsideIn(name, body, b, id, names);
        } else if Inside(f, c) {
          InsideIn(name, body, c, id, names);
        } else if Inside(f, d) {
          InsideIn(name, body, d, id, names);
        } else {
          var h :| h in hs && Inside(f, h.body);
          InsideIn(name, body, h.body, id, names);
        }
      case With(_, b) => InsideIn(name, body, b, id, names);
      case FunctionDef(_, b) => InsideIn(name, body, b, id, names);
    }
  }

  lemma {:induction false} InsideIn(name: string, body: seq<Stmt>, b: seq<Stmt>, id: nat, names: set<string>)
    requires Inside(FunctionDef(name, body), b) && id in Ids(body) && name !in names
    ensures Dead(b, id, names) && id in Ids(b)
    decreases b, 2
  {
    InsideIds(name, body, b, id);
    InsideDead(name, body, b, id, names);
  }

  /** The assertions of a function that no call in the test names are in dead code, wherever it is defined. */
  lemma {:induction false} UncalledDead(whole: seq<Stmt>, name: string, body: seq<Stmt>, id: nat)
    requires Inside(FunctionDef(name, body), whole) && id in Ids(body) && !CallsIn(whole, name)
    ensures InDeadCode(whole, id)
    ensures Apart(whole) ==> forall v | v in Visits(whole, REACHABLE, Invoked(whole)) && v.0 == id :: v.1 == UNREACHABLE
  {
    InvokedExactly(whole, name);
    InsideDead(name, body, whole, id, Invoked(whole));
    if Apart(whole) { JudgeBlock(whole, REACHABLE, Invoked(whole)); }
  }
}
