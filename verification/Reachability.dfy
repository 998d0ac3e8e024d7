module Reachability {
  // `assertion_reachability`: the disposition of every assertion in a function.
  //
  // `Visits` lists the dispositions in the order the walk records them; `Analyser.Walk` is the walk
  // itself, writing into a dictionary. What the dispositions mean for the runs of the function is
  // proved in `ReachabilitySound`.

  import opened Common
  import opened PyExpr
  import opened PyStmt
  import opened Triviality

  datatype Disposition = UNREACHABLE | UNRESOLVED | CONDITIONAL | REACHABLE

  function Rank(d: Disposition): nat {
    match d
    case UNREACHABLE => 0
    case UNRESOLVED => 1
    case CONDITIONAL => 2
    case REACHABLE => 3
  }

  /** `_merge`: an enclosing disposition and a local one, worst case first. */
  function Merge(a: Disposition, b: Disposition): Disposition {
    if Rank(a) <= Rank(b) then a else b
  }

  type Visit = (nat, Disposition)

  /** The disposition of what follows `s` in the same block. */
  function Next(s: Stmt, live: Disposition): Disposition {
    if IsTerminator(s) || IsSkip(s) then UNREACHABLE else live
  }

  function LiveAfter(b: seq<Stmt>, live: Disposition): Disposition {
    if b == [] then live else LiveAfter(b[1..], Next(b[0], live))
  }

  /** The disposition of the body of a loop or branch whose test or iterable is `e`. */
  function Guarded(e: Expr, live: Disposition): Disposition {
    match ConstTruth(e)
    case Some(true) => live
    case Some(false) => UNREACHABLE
    case None => Merge(live, CONDITIONAL)
  }

  function Negated(e: Expr, live: Disposition): Disposition {
    match ConstTruth(e)
    case Some(true) => UNREACHABLE
    case Some(false) => live
    case None => Merge(live, CONDITIONAL)
  }

  function Visits(b: seq<Stmt>, live: Disposition, names: set<string>): seq<Visit>
    decreases b, 1
  {
    if b == [] then [] else VisitsOf(b[0], live, names) + Visits(b[1..], Next(b[0], live), names)
  }

  function VisitsOf(s: Stmt, live: Disposition, names: set<string>): seq<Visit>
    decreases s, 0
  {
    match s
    case Assert(id, _, _, _) => [(id, live)]
    case If(test, body, orelse) =>
      Visits(body, Guarded(test, live), names) + Visits(orelse, Negated(test, live), names)
    case For(iter, body, orelse) => Visits(body, Guarded(iter, live), names) + Visits(orelse, live, names)
    case While(test, body, orelse) => Visits(body, Guarded(test, live), names) + Visits(orelse, live, names)
    case Try(body, handlers, orelse, final) =>
      Visits(body, live, names) + VisitsEach(handlers, Merge(live, CONDITIONAL), names) +
      Visits(orelse, Merge(live, CONDITIONAL), names) + Visits(final, live, names)
    case With(_, body) => Visits(body, live, names)
    case FunctionDef(name, body) => Visits(body, if name in names then live else UNREACHABLE, names)
    case _ => []
  }

  function VisitsEach(hs: seq<Handler>, live: Disposition, names: set<string>): seq<Visit>
    decreases hs, 1
  {
    if hs == [] then [] else Visits(hs[0].body, live, names) + VisitsEach(hs[1..], live, names)
  }

  /** Dictionary assignments in order: a later one for the same key wins. */
  function Record(out: map<nat, Disposition>, vs: seq<Visit>): map<nat, Disposition>
    decreases vs
  {
    if vs == [] then out else Record(out[vs[0].0 := vs[0].1], vs[1..])
  }

  lemma {:induction false} RecordAppend(out: map<nat, Disposition>, vs: seq<Visit>, ws: seq<Visit>)
    ensures Record(out, vs + ws) == Record(Record(out, vs), ws)
    decreases vs
  {
    if vs == [] {
      assert vs + ws == ws;
    } else {
      assert (vs + ws)[1..] == vs[1..] + ws;
      RecordAppend(out[vs[0].0 := vs[0].1], vs[1..], ws);
    }
  }

  /** The walk over a function body, recording dispositions by the identity of the assertion. */
  class Analyser {
    var out: map<nat, Disposition>
    const invoked: set<string>

    constructor (body: seq<Stmt>)
      ensures invoked == Invoked(body) && out == map[]
    {
      out := map[];
      invoked := Invoked(body);
    }

    method Walk(body: seq<Stmt>, disposition: Disposition) returns (live: Disposition)
      modifies this`out
      ensures out == Record(old(out), Visits(body, disposition, invoked))
      ensures live == LiveAfter(body, disposition)
      decreases body, 2
    {
      live := disposition;
      assert body[0..] == body;
      for i := 0 to |body|
        invariant Record(out, Visits(body[i..], live, invoked)) ==
                  Record(old(out), Visits(body, disposition, invoked))
        invariant LiveAfter(body[i..], live) == LiveAfter(body, disposition)
      {
        var stmt := body[i];
        assert body[i..][0] == stmt && body[i..][1..] == body[i + 1..];
        RecordAppend(out, VisitsOf(stmt, live, invoked), Visits(body[i + 1..], Next(stmt, live), invoked));
        WalkStatement(stmt, live);
        if IsTerminator(stmt) || IsSkip(stmt) { live := UNREACHABLE; }
      }
    }

    method WalkStatement(stmt: Stmt, live: Disposition)
      modifies this`out
      ensures out == Record(old(out), VisitsOf(stmt, live, invoked))
      decreases stmt, 1
    {
      match stmt {
        case Assert(id, _, _, _) => out := out[id := live];
        case If(_, _, _) => WalkIf(stmt, live);
        case For(iter, body, orelse) => WalkLoop(stmt, iter, body, orelse, live);
        case While(test, body, orelse) => WalkLoop(stmt, test, body, orelse, live);
        case Try(_, _, _, _) => WalkTry(stmt, live);
        case With(_, body) =>
          var _ := Walk(body, live);
        case FunctionDef(name, body) =>
          var _ := Walk(body, if name in invoked then live else UNREACHABLE);
        case _ =>
      }
    }

    method WalkIf(stmt: Stmt, live: Disposition)
      requires stmt.If?
      modifies this`out
      ensures out == Record(old(out), VisitsOf(stmt, live, invoked))
      decreases stmt, 0
    {
      var truth := ConstTruth(stmt.test);
      ghost var body := Visits(stmt.body, Guarded(stmt.test, live), invoked);
      RecordAppend(out, body, Visits(stmt.orelse, Negated(stmt.test, live), invoked));
      if truth == Some(true) {
        var _ := Walk(stmt.body, live);
        var _ := Walk(stmt.orelse, UNREACHABLE);
      } else if truth == Some(false) {
        var _ := Walk(stmt.body, UNREACHABLE);
        var _ := Walk(stmt.orelse, live);
      } else {
        var branch := Merge(live, CONDITIONAL);
        var _ := Walk(stmt.body, branch);
        var _ := Walk(stmt.orelse, branch);
      }
    }

    /** `for` and `while`: the body depends on the iterable or test, the `else` branch is as live as the loop. */
    method WalkLoop(stmt: Stmt, head: Expr, body: seq<Stmt>, orelse: seq<Stmt>, live: Disposition)
      requires stmt == For(head, body, orelse) || stmt == While(head, body, orelse)
      modifies this`out
      ensures out == Record(old(out), VisitsOf(stmt, live, invoked))
      decreases stmt, 0
    {
      RecordAppend(out, Visits(body, Guarded(head, live), invoked), Visits(orelse, live, invoked));
      var truth := ConstTruth(head);
      if truth == Some(false) {
        var _ := Walk(body, UNREACHABLE);
      } else if truth == Some(true) {
        var _ := Walk(body, live);
      } else {
        var _ := Walk(body, Merge(live, CONDITIONAL));
      }
      var _ := Walk(orelse, live);
    }

    method WalkTry(stmt: Stmt, live: Disposition)
      requires stmt.Try?
      modifies this`out
      ensures out == Record(old(out), VisitsOf(stmt, live, invoked))
      decreases stmt, 0
    {
      var soft := Merge(live, CONDITIONAL);
      ghost var body, each := Visits(stmt.body, live, invoked), VisitsEach(stmt.handlers, soft, invoked);
      ghost var orelse, final := Visits(stmt.orelse, soft, invoked), Visits(stmt.finalbody, live, invoked);
      RecordAppend(out, body + each + orelse, final);
      RecordAppend(out, body + each, orelse);
      RecordAppend(out, body, each);
      var _ := Walk(stmt.body, live);
      ghost var before := out;
      assert stmt.handlers[0..] == stmt.handlers;
      for h := 0 to |stmt.handlers|
        invariant Record(out, VisitsEach(stmt.handlers[h..], soft, invoked)) == Record(before, each)
      {
        assert stmt.handlers[h..][0] == stmt.handlers[h] && stmt.handlers[h..][1..] == stmt.handlers[h + 1..];
        RecordAppend(out, Visits(stmt.handlers[h].body, soft, invoked), VisitsEach(stmt.handlers[h + 1..], soft, invoked));
        var _ := Walk(stmt.handlers[h].body, soft);
      }
      var _ := Walk(stmt.orelse, soft);
      var _ := Walk(stmt.finalbody, live);
    }
  }
}
