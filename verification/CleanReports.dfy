module CleanReports {
  // Which problems `validate` reports, told from the tests themselves: where their assertions stand,
  // whether those can fail, and what they refer to.

  import opened Common
  import opened PyExpr
  import opened PyStmt
  import opened Triviality
  import opened Reachability
  import opened ReachabilitySound
  import opened Contracts
  import opened PyWalk
  import opened Dispositions

  // ---------------------------------------------------------------- what a contract asks for, directly

  /** The positions of the assertions that can fail and stand as `d` says. */
  ghost function Counted(t: Test, host: Host, d: Disposition): set<nat> {
    set i: nat | i < |AssertsIn(t.body)| && Counts(t, host, d, AssertsIn(t.body)[i])
  }

  ghost predicate Counts(t: Test, host: Host, d: Disposition, a: Stmt)
    requires a.Assert?
  {
    !IsAlwaysTrue(a.test, host) && Place(t, a.id) == d
  }

  ghost predicate SomeConditionalAllowed(c: Contract) { exists q | q in c.required :: q.allowConditional }

  /** Conditional assertions count if a requirement allows them and an unconditional one counts. */
  ghost function Checks(c: Contract, t: Test, host: Host): nat {
    var live := Counted(t, host, REACHABLE);
    |live| + (if live != {} && SomeConditionalAllowed(c) then |Counted(t, host, CONDITIONAL)| else 0) +
    |t.raises| + t.fails
  }

  /** There are unconditional assertions, none of them can fail, and nothing else can make the test fail. */
  ghost predicate CannotFail(t: Test, host: Host) {
    && (exists i: nat | i < |AssertsIn(t.body)| :: Place(t, AssertsIn(t.body)[i].id) == REACHABLE)
    && Counted(t, host, REACHABLE) == {} && t.raises == [] && t.fails == 0
  }

  /** An assertion that counts has the class and the tokens, or a `pytest.raises` block does something. */
  ghost predicate Answered(q: Requirement, t: Test, host: Host) {
    || (exists i :: AnsweredBy(q, t, host, i))
    || (q.klass == "EXPECTED_EXCEPTION" && exists k | 0 <= k < |t.raises| :: !t.raises[k])
  }

  /** An unconditional assertion counts; a conditional one if that is allowed and an unconditional one counts. */
  ghost predicate AnsweredBy(q: Requirement, t: Test, host: Host, i: nat) {
    && Refers(t, i, q)
    && (i in Counted(t, host, REACHABLE) ||
        (q.allowConditional && Counted(t, host, REACHABLE) != {} && i in Counted(t, host, CONDITIONAL)))
  }

  ghost predicate Refers(t: Test, i: nat, q: Requirement) {
    i < |AssertsIn(t.body)| && q.klass in AssertsIn(t.body)[i].classes && q.mustReference <= AssertsIn(t.body)[i].tokens
  }

  /** The undeclared calls that are whole assertions. */
  ghost function Unknown(c: Contract, t: Test): set<string> {
    set a | a in AssertsIn(t.body) && UnknownCall(c, a) :: MechanismCall(a.test).value
  }

  ghost predicate UnknownCall(c: Contract, a: Stmt)
    requires a.Assert?
  {
    MechanismCall(a.test).Some? && !Declared(MechanismCall(a.test).value, c)
  }

  /** An assertion that checks something stands in dead code. */
  ghost predicate Idle(t: Test, host: Host, id: nat) {
    InDeadCode(t.body, id) && exists a | a in AssertsIn(t.body) :: a.id == id && !IsAlwaysTrue(a.test, host) && a.classes != {}
  }

  ghost predicate Unanswered(c: Contract, t: Test, host: Host, klass: string) {
    exists q | q in c.required :: q.klass == klass && !Answered(q, t, host)
  }

  /** The problem is one the contract has; `again` says that an earlier contract had its id. */
  ghost predicate Has(c: Contract, again: bool, host: Host, p: Problem) {
    && p.cid == c.cid
    && match c.source
       case Present(t) => (p.DuplicateId? && again) || HasIn(c, t, host, p)
       case _ => (p.DuplicateId? && again) || p.Absent?
  }

  ghost predicate HasIn(c: Contract, t: Test, host: Host, p: Problem) {
    match p
    case BelowMinimum(_) => Checks(c, t, host) < c.minimum
    case AllTrivial(_) => CannotFail(t, host)
    case Undeclared(_, names) => names == Unknown(c, t) && names != {}
    case MissingClass(_, klass) => Unanswered(c, t, host, klass)
    case NeverRuns(_, id) => Idle(t, host, id)
    case _ => false
  }

  /** What a clean report says of a contract. */
  ghost predicate Kept(c: Contract, host: Host) {
    c.source.Present? &&
    var t := c.source.test;
    && c.minimum <= Checks(c, t, host)
    && !CannotFail(t, host)
    && Unknown(c, t) == {}
    && (forall id :: !Idle(t, host, id))
    && forall q | q in c.required :: Answered(q, t, host)
  }

  /** Assertion nodes are distinct objects. */
  ghost predicate Distinguished(c: Contract) { c.source.Present? ==> UniqueIds(c.source.test.body) }

  // ---------------------------------------------------------------- counting

  ghost predicate Picked(a: Info, d: Disposition) { !a.trivial && a.reachability == d }

  ghost function Positions(asserts: seq<Info>, d: Disposition): set<nat> {
    set i: nat | i < |asserts| && Picked(asserts[i], d)
  }

  lemma {:induction false} MeaningfulLast(asserts: seq<Info>, a: Info, d: Disposition)
    ensures Meaningful(asserts + [a], d) == Meaningful(asserts, d) + if Picked(a, d) then 1 else 0
  {
    if asserts == [] {
      assert asserts + [a] == [a];
      assert Meaningful([a][1..], d) == 0;
    } else {
      assert (asserts + [a])[1..] == asserts[1..] + [a];
      MeaningfulLast(asserts[1..], a, d);
    }
  }

  lemma {:induction false} PositionsLast(asserts: seq<Info>, a: Info, d: Disposition)
    ensures |Positions(asserts + [a], d)| == |Positions(asserts, d)| + if Picked(a, d) then 1 else 0
  {
    var all, k := asserts + [a], |asserts|;
    forall i: nat ensures i in Positions(all, d) <==> i in Positions(asserts, d) || (i == k && Picked(a, d)) {
      if i < k { assert all[i] == asserts[i]; }
    }
    if Picked(a, d) {
      assert Positions(all, d) == Positions(asserts, d) + {k};
    } else {
      assert Positions(all, d) == Positions(asserts, d);
    }
  }

  lemma {:induction false} MeaningfulCounts(asserts: seq<Info>, d: Disposition)
    ensures Meaningful(asserts, d) == |Positions(asserts, d)|
  {
    if asserts != [] {
      var k := |asserts| - 1;
      assert asserts == asserts[..k] + [asserts[k]];
      MeaningfulLast(asserts[..k], asserts[k], d);
      MeaningfulCounts(asserts[..k], d);
      PositionsLast(asserts[..k], asserts[k], d);
    } else {
      assert Positions(asserts, d) == {};
    }
  }

  // ---------------------------------------------------------------- the analysis and the places

  /** What the analysis says of each assertion, from its place. */
  ghost predicate Placed(t: Test, host: Host, found: Found) {
    && |found.asserts| == |AssertsIn(t.body)|
    && found.raises == t.raises && found.fails == t.fails
    && forall i | 0 <= i < |found.asserts| :: PlacedAt(t, host, found.asserts[i], AssertsIn(t.body)[i])
  }

  ghost predicate PlacedAt(t: Test, host: Host, info: Info, a: Stmt)
    requires a.Assert?
  {
    info == Info(a.id, Place(t, a.id), IsAlwaysTrue(a.test, host), a.classes, a.tokens, MechanismCall(a.test))
  }

  lemma {:induction false} AnalysisPlaced(t: Test, host: Host)
    requires UniqueIds(t.body)
    ensures Placed(t, host, Analysis(t, host))
  {
    var found := Analysis(t, host);
    forall i | 0 <= i < |found.asserts| ensures PlacedAt(t, host, found.asserts[i], AssertsIn(t.body)[i]) {
      DispositionExactly(t, host, i);
    }
  }

  lemma {:induction false} PositionsCounted(t: Test, host: Host, found: Found, d: Disposition)
    requires Placed(t, host, found)
    ensures Positions(found.asserts, d) == Counted(t, host, d)
    ensures Meaningful(found.asserts, d) == |Counted(t, host, d)|
  {
    MeaningfulCounts(found.asserts, d);
    forall i: nat ensures i in Positions(found.asserts, d) <==> i in Counted(t, host, d) {
      if i < |found.asserts| { assert PlacedAt(t, host, found.asserts[i], AssertsIn(t.body)[i]); }
    }
  }

  /** The count that is compared with the minimum. */
  lemma {:induction false} MinimumExactly(c: Contract, t: Test, host: Host, found: Found)
    requires Placed(t, host, found)
    ensures Countable(c, found) + |found.raises| + found.fails == Checks(c, t, host)
  {
    PositionsCounted(t, host, found, REACHABLE);
    PositionsCounted(t, host, found, CONDITIONAL);
  }

  lemma {:induction false} TrivialExactly(t: Test, host: Host, found: Found)
    requires Placed(t, host, found)
    ensures OnlyTrivial(found) <==> CannotFail(t, host)
  {
    PositionsCounted(t, host, found, REACHABLE);
    var reachable := set a | a in found.asserts && a.reachability == REACHABLE;
    if CannotFail(t, host) {
      var i: nat :| i < |AssertsIn(t.body)| && Place(t, AssertsIn(t.body)[i].id) == REACHABLE;
      assert PlacedAt(t, host, found.asserts[i], AssertsIn(t.body)[i]) && found.asserts[i] in reachable;
      forall a | a in reachable ensures a.trivial {
        var j :| 0 <= j < |found.asserts| && found.asserts[j] == a;
        assert j !in Positions(found.asserts, REACHABLE);
      }
    }
    if OnlyTrivial(found) {
      var a :| a in reachable;
      var i :| 0 <= i < |found.asserts| && found.asserts[i] == a;
      assert PlacedAt(t, host, found.asserts[i], AssertsIn(t.body)[i]);
      forall j: nat | j < |found.asserts| && found.asserts[j].reachability == REACHABLE ensures found.asserts[j].trivial {
        assert found.asserts[j] in reachable;
      }
    }
  }

  /** The calls are those of the assertions, whichever of them are picked. */
  lemma {:induction false} CallsExactly(t: Test, host: Host, found: Found, n: string)
    requires Placed(t, host, found)
    ensures (exists a | a in found.asserts :: a.helper == Some(n)) <==>
            exists a | a in AssertsIn(t.body) :: MechanismCall(a.test) == Some(n)
  {
    if exists a | a in found.asserts :: a.helper == Some(n) {
      var a :| a in found.asserts && a.helper == Some(n);
      var i :| 0 <= i < |found.asserts| && found.asserts[i] == a;
      assert PlacedAt(t, host, a, AssertsIn(t.body)[i]);
    }
    if exists a | a in AssertsIn(t.body) :: MechanismCall(a.test) == Some(n) {
      var a :| a in AssertsIn(t.body) && MechanismCall(a.test) == Some(n);
      var i :| 0 <= i < |AssertsIn(t.body)| && AssertsIn(t.body)[i] == a;
      assert PlacedAt(t, host, found.asserts[i], a);
    }
  }

  lemma {:induction false} UndeclaredIs(asserts: seq<Info>, c: Contract, n: string)
    ensures n in UndeclaredIn(asserts, c) <==> !Declared(n, c) && exists a | a in asserts :: a.helper == Some(n)
  {
  }

  lemma {:induction false} UnknownIs(c: Contract, t: Test, n: string)
    ensures n in Unknown(c, t) <==> !Declared(n, c) && exists a | a in AssertsIn(t.body) :: MechanismCall(a.test) == Some(n)
  {
    if n in Unknown(c, t) {
      var a :| a in AssertsIn(t.body) && UnknownCall(c, a) && MechanismCall(a.test).value == n;
    }
    if !Declared(n, c) && exists a | a in AssertsIn(t.body) :: MechanismCall(a.test) == Some(n) {
      var a :| a in AssertsIn(t.body) && MechanismCall(a.test) == Some(n);
      assert UnknownCall(c, a);
    }
  }

  lemma {:induction false} UnknownExactly(c: Contract, t: Test, host: Host, found: Found)
    requires Placed(t, host, found)
    ensures UndeclaredIn(found.asserts, c) == Unknown(c, t)
  {
    forall n ensures n in UndeclaredIn(found.asserts, c) <==> n in Unknown(c, t) {
      CallsExactly(t, host, found, n);
      UndeclaredIs(found.asserts, c, n);
      UnknownIs(c, t, n);
    }
  }

  /** A requirement is met by what the analysis found exactly if the test answers it. */
  lemma {:induction false} MetExactly(q: Requirement, t: Test, host: Host, found: Found)
    requires Placed(t, host, found)
    ensures Met(q, found) <==> Answered(q, t, host)
  {
    RaisesExactly(q, t, found);
    WitnessedExactly(q, t, host, found);
  }

  lemma {:induction false} StandsExactly(q: Requirement, t: Test, host: Host, found: Found, i: nat)
    requires Placed(t, host, found) && i < |found.asserts|
    ensures Stands(found.asserts[i], q, found) <==> AnsweredBy(q, t, host, i)
  {
    PositionsCounted(t, host, found, REACHABLE);
    assert PlacedAt(t, host, found.asserts[i], AssertsIn(t.body)[i]);
  }

  lemma {:induction false} WitnessedExactly(q: Requirement, t: Test, host: Host, found: Found)
    requires Placed(t, host, found)
    ensures Witnessed(q, found) <==> exists i :: AnsweredBy(q, t, host, i)
  {
    if Witnessed(q, found) {
      var a :| a in found.asserts && Stands(a, q, found);
      var i :| 0 <= i < |found.asserts| && found.asserts[i] == a;
      StandsExactly(q, t, host, found, i);
    }
    if exists i :: AnsweredBy(q, t, host, i) {
      var i: nat :| AnsweredBy(q, t, host, i);
      StandsExactly(q, t, host, found, i);
    }
  }

  lemma {:induction false} RaisesExactly(q: Requirement, t: Test, found: Found)
    requires found.raises == t.raises
    ensures ByRaises(q, found) <==> q.klass == "EXPECTED_EXCEPTION" && exists k | 0 <= k < |t.raises| :: !t.raises[k]
  {
  }

  // ---------------------------------------------------------------- the problems of a contract

  lemma {:induction false} ReportedUnusable(cid: string, asserts: seq<Info>, p: Problem)
    ensures p in Unusable(cid, asserts) <==> exists a | a in asserts :: Useless(cid, a, p)
  {
    if asserts != [] {
      ReportedUnusable(cid, asserts[1..], p);
      assert asserts == [asserts[0]] + asserts[1..] && asserts[0] in asserts;
    }
  }

  ghost predicate Useless(cid: string, a: Info, p: Problem) {
    || (a.reachability == UNREACHABLE && !a.trivial && a.classes != {} && p == NeverRuns(cid, a.id))
    || (a.reachability == UNRESOLVED && p == Undetermined(cid, a.id))
  }

  lemma {:induction false} UnusableExactly(t: Test, host: Host, found: Found, cid: string, p: Problem)
    requires Placed(t, host, found)
    ensures p in Unusable(cid, found.asserts) <==> p.NeverRuns? && p.cid == cid && Idle(t, host, p.id)
  {
    ReportedUnusable(cid, found.asserts, p);
    if p in Unusable(cid, found.asserts) {
      var a :| a in found.asserts && Useless(cid, a, p);
      var i :| 0 <= i < |found.asserts| && found.asserts[i] == a;
      assert PlacedAt(t, host, a, AssertsIn(t.body)[i]) && AssertsIn(t.body)[i] in AssertsIn(t.body);
    }
    if p.NeverRuns? && p.cid == cid && Idle(t, host, p.id) {
      var a :| a in AssertsIn(t.body) && a.id == p.id && !IsAlwaysTrue(a.test, host) && a.classes != {};
      var i :| 0 <= i < |AssertsIn(t.body)| && AssertsIn(t.body)[i] == a;
      assert PlacedAt(t, host, found.asserts[i], a) && Useless(cid, found.asserts[i], p);
    }
  }

  lemma {:induction false} MissingExactly(c: Contract, reqs: seq<Requirement>, found: Found, p: Problem)
    ensures p in Missing(c.cid, Classes(reqs, found, false)) <==>
            p.MissingClass? && p.cid == c.cid && exists q | q in reqs :: q.klass == p.klass && !Met(q, found)
  {
    if reqs != [] {
      var rest := Classes(reqs[1..], found, false);
      MissingExactly(c, reqs[1..], found, p);
      assert reqs == [reqs[0]] + reqs[1..];
      assert ([reqs[0].klass] + rest)[1..] == rest && [] + rest == rest;
    }
  }

  lemma {:induction false} UnansweredExactly(c: Contract, t: Test, host: Host, found: Found, klass: string)
    requires Placed(t, host, found)
    ensures Unanswered(c, t, host, klass) <==> exists q | q in c.required :: q.klass == klass && !Met(q, found)
  {
    forall q | q in c.required ensures Met(q, found) <==> Answered(q, t, host) { MetExactly(q, t, host, found); }
  }

  lemma {:induction false} HasInExactly(c: Contract, t: Test, host: Host, found: Found, p: Problem)
    requires Placed(t, host, found)
    ensures p in ProblemsFor(c, found) <==> p.cid == c.cid && HasIn(c, t, host, p)
  {
    MinimumExactly(c, t, host, found);
    TrivialExactly(t, host, found);
    UnknownExactly(c, t, host, found);
    UnusableExactly(t, host, found, c.cid, p);
    MissingExactly(c, c.required, found, p);
    if p.MissingClass? { UnansweredExactly(c, t, host, found, p.klass); }
  }

  /** The report on a contract holds the problems it has, and no others. */
  lemma {:induction false} HasExactly(c: Contract, seen: set<string>, host: Host, p: Problem)
    requires Distinguished(c)
    ensures p in OutcomeOf(c, seen, host).1 <==> Has(c, c.cid in seen, host, p)
  {
    if c.source.Present? {
      AnalysisPlaced(c.source.test, host);
      HasInExactly(c, c.source.test, host, Analysis(c.source.test, host), p);
    }
  }

  // ---------------------------------------------------------------- the whole report

  ghost predicate Again(cs: seq<Contract>, seen: set<string>, i: nat)
    requires i < |cs|
  {
    cs[i].cid in seen || exists j | 0 <= j < i :: cs[j].cid == cs[i].cid
  }

  ghost predicate SomeHas(cs: seq<Contract>, seen: set<string>, host: Host, p: Problem) {
    exists i: nat | i < |cs| :: Has(cs[i], Again(cs, seen, i), host, p)
  }

  lemma {:induction false} AgainRest(cs: seq<Contract>, seen: set<string>, i: nat)
    requires 0 < i < |cs|
    ensures Again(cs, seen, i) <==> Again(cs[1..], seen + {cs[0].cid}, i - 1)
  {
    var rest := cs[1..];
    if exists j | 0 <= j < i :: cs[j].cid == cs[i].cid {
      var j :| 0 <= j < i && cs[j].cid == cs[i].cid;
      if j > 0 { assert rest[j - 1].cid == rest[i - 1].cid; }
    }
  }

  lemma {:induction false} SomeHasSplit(cs: seq<Contract>, seen: set<string>, host: Host, p: Problem)
    requires cs != []
    ensures SomeHas(cs, seen, host, p) <==>
            Has(cs[0], cs[0].cid in seen, host, p) || SomeHas(cs[1..], seen + {cs[0].cid}, host, p)
  {
    assert Again(cs, seen, 0) == (cs[0].cid in seen);
    if SomeHas(cs, seen, host, p) {
      var i: nat :| i < |cs| && Has(cs[i], Again(cs, seen, i), host, p);
      if i > 0 {
        AgainRest(cs, seen, i);
        assert cs[1..][i - 1] == cs[i];
      }
    }
    if SomeHas(cs[1..], seen + {cs[0].cid}, host, p) {
      var i: nat :| i < |cs[1..]| && Has(cs[1..][i], Again(cs[1..], seen + {cs[0].cid}, i), host, p);
      AgainRest(cs, seen, i + 1);
      assert cs[1..][i] == cs[i + 1];
    }
  }

  lemma {:induction false} ReportedFrom(cs: seq<Contract>, seen: set<string>, host: Host, p: Problem)
    requires forall c | c in cs :: Distinguished(c)
    ensures p in Outcomes(cs, seen, host).1 <==> SomeHas(cs, seen, host, p)
  {
    if cs != [] {
      assert forall c | c in cs[1..] :: c in cs;
      ReportedFrom(cs[1..], seen + {cs[0].cid}, host, p);
      HasExactly(cs[0], seen, host, p);
      SomeHasSplit(cs, seen, host, p);
      OutcomesStep(cs, 0, seen, host, OutcomeOf(cs[0], seen, host));
      assert cs[0..] == cs;
    }
  }

  /** The report holds a problem exactly if some contract has it. */
  lemma {:induction false} ReportedExactly(cs: seq<Contract>, host: Host, p: Problem)
    requires forall c | c in cs :: Distinguished(c)
    ensures p in Outcomes(cs, {}, host).1 <==>
            exists i: nat | i < |cs| :: Has(cs[i], exists j | 0 <= j < i :: cs[j].cid == cs[i].cid, host, p)
  {
    ReportedFrom(cs, {}, host, p);
    forall i: nat | i < |cs| ensures Again(cs, {}, i) == exists j | 0 <= j < i :: cs[j].cid == cs[i].cid { }
  }

  lemma {:induction false} KeptExactly(c: Contract, host: Host)
    ensures Kept(c, host) <==> forall p :: !Has(c, false, host, p)
  {
    if c.source.Present? {
      var t := c.source.test;
      if forall p :: !Has(c, false, host, p) {
        assert !Has(c, false, host, BelowMinimum(c.cid)) && !Has(c, false, host, AllTrivial(c.cid));
        assert !Has(c, false, host, Undeclared(c.cid, Unknown(c, t)));
        forall id ensures !Idle(t, host, id) { assert !Has(c, false, host, NeverRuns(c.cid, id)); }
        forall q | q in c.required ensures Answered(q, t, host) { assert !Has(c, false, host, MissingClass(c.cid, q.klass)); }
      }
    } else {
      assert Has(c, false, host, Absent(c.cid));
    }
  }

  ghost predicate DistinctContracts(cs: seq<Contract>) { forall i, j | 0 <= j < i < |cs| :: cs[j].cid != cs[i].cid }

  /** The report is clean exactly if no two contracts share an id and every one of them is kept. */
  lemma {:induction false} CleanExactly(cs: seq<Contract>, host: Host)
    requires forall c | c in cs :: Distinguished(c)
    ensures Outcomes(cs, {}, host).1 == [] <==> DistinctContracts(cs) && forall c | c in cs :: Kept(c, host)
  {
    var problems := Outcomes(cs, {}, host).1;
    if problems == [] {
      forall i: nat | i < |cs| ensures !Again(cs, {}, i) && Kept(cs[i], host) {
        forall p ensures !Has(cs[i], Again(cs, {}, i), host, p) { ReportedFrom(cs, {}, host, p); }
        assert !Has(cs[i], Again(cs, {}, i), host, DuplicateId(cs[i].cid));
        KeptExactly(cs[i], host);
      }
      forall i, j | 0 <= j < i < |cs| ensures cs[j].cid != cs[i].cid { assert !Again(cs, {}, i); }
    } else if DistinctContracts(cs) && forall c | c in cs :: Kept(c, host) {
      ReportedFrom(cs, {}, host, problems[0]);
      var i: nat :| i < |cs| && Has(cs[i], Again(cs, {}, i), host, problems[0]);
      KeptExactly(cs[i], host);
      assert false;
    }
  }

  lemma {:induction false} NoneMissing(reqs: seq<Requirement>, t: Test, host: Host, found: Found)
    requires Placed(t, host, found)
    ensures Classes(reqs, found, false) == [] <==> forall q | q in reqs :: Answered(q, t, host)
  {
    forall q ensures Met(q, found) <==> Answered(q, t, host) { MetExactly(q, t, host, found); }
    if Classes(reqs, found, false) == [] { NothingMissing(reqs, found); } else { SomethingMissing(reqs, found); }
  }

  /** A contract is satisfied exactly if its test is there and answers every requirement. */
  lemma {:induction false} SatisfiedExactly(cs: seq<Contract>, seen: set<string>, host: Host, i: nat)
    requires i < |cs| && Distinguished(cs[i])
    ensures Outcomes(cs, seen, host).0[i].satisfied <==>
            cs[i].source.Present? && forall q | q in cs[i].required :: Answered(q, cs[i].source.test, host)
    decreases i
  {
    if i > 0 {
      SatisfiedExactly(cs[1..], seen + {cs[0].cid}, host, i - 1);
    } else if cs[0].source.Present? {
      AnalysisPlaced(cs[0].source.test, host);
      NoneMissing(cs[0].required, cs[0].source.test, host, Analysis(cs[0].source.test, host));
    }
  }

  lemma {:induction false} SomethingMissing(reqs: seq<Requirement>, found: Found)
    requires Classes(reqs, found, false) != []
    ensures exists q | q in reqs :: !Met(q, found)
  {
    if Met(reqs[0], found) { SomethingMissing(reqs[1..], found); } else { assert reqs[0] in reqs; }
  }

  // ---------------------------------------------------------------- the call that is an assertion

  ghost predicate EndsWith(name: string, bare: string) { exists front :: name == front + "." + bare }

  lemma {:induction false} EndsWithTail(name: string, bare: string)
    requires name != ""
    ensures EndsWith(name, bare) <==> (name[0] == '.' && name[1..] == bare) || EndsWith(name[1..], bare)
  {
    if EndsWith(name, bare) {
      var front :| name == front + "." + bare;
      if front == "" { assert name[1..] == bare; } else { assert name[1..] == front[1..] + "." + bare; }
    }
    if name[0] == '.' && name[1..] == bare { assert name == "" + "." + bare; }
    if EndsWith(name[1..], bare) {
      var front :| name[1..] == front + "." + bare;
      assert name == ([name[0]] + front) + "." + bare;
    }
  }

  /** The name after the last dot. */
  lemma {:induction false} BareExactly(name: string, bare: string)
    ensures Bare(name) == bare <==> '.' !in bare && (name == bare || EndsWith(name, bare))
  {
    if '.' in name {
      BareExactly(name[1..], bare);
      EndsWithTail(name, bare);
    } else {
      forall front: string ensures name != front + "." + bare { assert (front + "." + bare)[|front|] == '.'; }
    }
  }

  /** A helper is declared by the contract, by pytest, by Python, or because it ends in a known predicate method. */
  lemma {:induction false} DeclaredExactly(name: string, c: Contract)
    ensures Declared(name, c) <==>
      || name in c.helpers || name == "pytest.raises" || name == "pytest.fail" || name == "pytest.approx" || name in BUILTINS
      || exists m | m in KNOWN_PREDICATE_METHODS :: name == m || EndsWith(name, m)
  {
    BareExactly(name, Bare(name));
    forall m | m in KNOWN_PREDICATE_METHODS ensures (name == m || EndsWith(name, m)) <==> Bare(name) == m {
      NoDots(m);
      BareExactly(name, m);
    }
  }

  lemma {:induction false} NoDots(m: string)
    requires m in KNOWN_PREDICATE_METHODS
    ensures '.' !in m
  {
  }

  /** `not not ... e`. */
  function Nots(n: nat, e: Expr): Expr { if n == 0 then e else Not(Nots(n - 1, e)) }

  /** The expression is a call of this name. */
  ghost predicate IsCall(e: Expr, name: string) {
    match e
    case Call(f, _, _) => (f != "" && name == f) || (f == "" && name == "<dynamic>")
    case AttrCall(base, attr, _) => (base != "" && name == base + "." + attr) || (base == "" && name == attr)
    case _ => false
  }

  ghost predicate CallUnder(e: Expr, n: nat, x: Expr, name: string) { e == Nots(n, x) && IsCall(x, name) }

  /** The name found is that of the call under any number of negations. */
  lemma {:induction false} MechanismExactly(e: Expr, name: string)
    ensures MechanismCall(e) == Some(name) <==> exists n: nat, x :: CallUnder(e, n, x, name)
  {
    if e.Not? {
      MechanismExactly(e.operand, name);
      if MechanismCall(e) == Some(name) {
        var n: nat, x :| CallUnder(e.operand, n, x, name);
        assert CallUnder(e, n + 1, x, name);
      }
      if exists n: nat, x :: CallUnder(e, n, x, name) {
        var n: nat, x :| CallUnder(e, n, x, name);
        assert CallUnder(e.operand, n - 1, x, name);
      }
    } else {
      assert forall n: nat, x :: CallUnder(e, n, x, name) ==> n == 0;
      if MechanismCall(e) == Some(name) { assert CallUnder(e, 0, e, name); }
    }
  }

  // ---------------------------------------------------------------- functions nobody calls

  /**
   An assertion in a function that no call in the test names counts for nothing: it can neither meet
   a requirement nor help to reach the minimum.
   */
  lemma {:induction false} UncalledCountsForNothing(t: Test, host: Host, name: string, body: seq<Stmt>, i: nat)
    requires Inside(FunctionDef(name, body), t.body) && !CallsIn(t.body, name)
    requires i < |AssertsIn(t.body)| && AssertsIn(t.body)[i].id in Ids(body)
    ensures i !in Counted(t, host, REACHABLE) && i !in Counted(t, host, CONDITIONAL)
    ensures var a := AssertsIn(t.body)[i];
            !IsAlwaysTrue(a.test, host) && a.classes != {} ==> Idle(t, host, a.id)
  {
    UncalledDead(t.body, name, body, AssertsIn(t.body)[i].id);
    assert AssertsIn(t.body)[i] in AssertsIn(t.body);
  }

  /** So no contract is kept by a test with such an assertion that checks something. */
  lemma {:induction false} UncalledNeverClean(c: Contract, host: Host, name: string, body: seq<Stmt>, a: Stmt)
    requires c.source.Present? && Inside(FunctionDef(name, body), c.source.test.body) && !CallsIn(c.source.test.body, name)
    requires a in AssertsIn(c.source.test.body) && a.id in Ids(body) && !IsAlwaysTrue(a.test, host) && a.classes != {}
    ensures !Kept(c, host)
  {
    var t := c.source.test;
    var i :| 0 <= i < |AssertsIn(t.body)| && AssertsIn(t.body)[i] == a;
    UncalledCountsForNothing(t, host, name, body, i);
  }
}
