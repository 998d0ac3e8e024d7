/**
 `analyse_function` and `validate`: which contracts a test meets, and what that guarantees about
 its runs.
 */
module Contracts {
  import opened Common
  import opened PyExpr
  import opened PyStmt
  import opened Triviality
  import opened Reachability
  import opened ReachabilitySound
  import opened PassingRuns

  // ---------------------------------------------------------------- analyse_function

  /** The assertions of a body, nested ones included, in source order. */
  function AssertsIn(b: seq<Stmt>): (r: seq<Stmt>)
    ensures forall s | s in r :: s.Assert?
    decreases b, 1
  {
    if b == [] then [] else AssertsOf(b[0]) + AssertsIn(b[1..])
  }

  function AssertsOf(s: Stmt): (r: seq<Stmt>)
    ensures forall s | s in r :: s.Assert?
    decreases s, 0
  {
    match s
    case Assert(_, _, _, _) => [s]
    case If(_, body, orelse) => AssertsIn(body) + AssertsIn(orelse)
    case For(_, body, orelse) => AssertsIn(body) + AssertsIn(orelse)
    case While(_, body, orelse) => AssertsIn(body) + AssertsIn(orelse)
    case Try(body, handlers, orelse, final) =>
      AssertsIn(body) + AssertsEach(handlers) + AssertsIn(orelse) + AssertsIn(final)
    case With(_, body) => AssertsIn(body)
    case FunctionDef(_, body) => AssertsIn(body)
    case _ => []
  }

  function AssertsEach(hs: seq<Handler>): (r: seq<Stmt>)
    ensures forall s | s in r :: s.Assert?
    decreases hs, 1
  {
    if hs == [] then [] else AssertsIn(hs[0].body) + AssertsEach(hs[1..])
  }

  /** Assertion nodes are distinct objects, so their identities differ. */
  ghost predicate UniqueIds(b: seq<Stmt>) {
    var a := AssertsIn(b);
    forall i, j | 0 <= i < j < |a| :: a[i].id != a[j].id
  }

  /** `helper` is the call that is the whole assertion, if it is one. */
  datatype Info = Info(id: nat, reachability: Disposition, trivial: bool, classes: set<string>, tokens: set<string>,
                       helper: Option<string>)

  /** `_mechanism_call`: the name of the call that the expression, under any number of `not`, is. */
  function MechanismCall(e: Expr): Option<string> {
    match e
    case Not(x) => MechanismCall(x)
    case Call(f, _, _) => Some(if f == "" then "<dynamic>" else f)
    case AttrCall(base, attr, _) => Some(if base == "" then attr else base + "." + attr)
    case _ => None
  }

  /** `raises` holds, for each `pytest.raises` block, whether its body is empty. */
  datatype Found = Found(asserts: seq<Info>, raises: seq<bool>, fails: nat)

  datatype Test = Test(body: seq<Stmt>, raises: seq<bool>, fails: nat)

  function Describe(a: Stmt, reach: map<nat, Disposition>, host: Host): Info
    requires a.Assert?
  {
    Info(a.id, if a.id in reach then reach[a.id] else UNRESOLVED, IsAlwaysTrue(a.test, host), a.classes, a.tokens,
         MechanismCall(a.test))
  }

  function DescribeAll(asserts: seq<Stmt>, reach: map<nat, Disposition>, host: Host): (r: seq<Info>)
    requires forall s | s in asserts :: s.Assert?
    ensures |r| == |asserts|
    ensures forall i | 0 <= i < |r| :: r[i] == Describe(asserts[i], reach, host)
  {
    if asserts == [] then [] else [Describe(asserts[0], reach, host)] + DescribeAll(asserts[1..], reach, host)
  }

  function Reach(body: seq<Stmt>): map<nat, Disposition> {
    Record(map[], Visits(body, REACHABLE, Invoked(body)))
  }

  function Analysis(t: Test, host: Host): Found {
    Found(DescribeAll(AssertsIn(t.body), Reach(t.body), host), t.raises, t.fails)
  }

  method DescribeNodes(nodes: seq<Stmt>, reach: map<nat, Disposition>, host: Host) returns (asserts: seq<Info>)
    requires forall s | s in nodes :: s.Assert?
    ensures asserts == DescribeAll(nodes, reach, host)
  {
    asserts := [];
    for i := 0 to |nodes|
      invariant |asserts| == i && forall j | 0 <= j < i :: asserts[j] == Describe(nodes[j], reach, host)
    {
      asserts := asserts + [Describe(nodes[i], reach, host)];
    }
  }

  method AnalyseFunction(t: Test, host: Host) returns (found: Found)
    ensures found == Analysis(t, host)
  {
    var analyser := new Analyser(t.body);
    var _ := analyser.Walk(t.body, REACHABLE);
    var asserts := DescribeNodes(AssertsIn(t.body), analyser.out, host);
    found := Found(asserts, t.raises, t.fails);
  }

  /** `reachable_meaningful_assert_count` and its CONDITIONAL counterpart. */
  function Meaningful(asserts: seq<Info>, d: Disposition): nat {
    if asserts == [] then 0
    else (if !asserts[0].trivial && asserts[0].reachability == d then 1 else 0) + Meaningful(asserts[1..], d)
  }

  // ---------------------------------------------------------------- what the analysis found

  ghost predicate Aligned(vs: seq<Visit>, asserts: seq<Stmt>)
    requires forall s | s in asserts :: s.Assert?
  {
    |vs| == |asserts| && forall i | 0 <= i < |vs| :: vs[i].0 == asserts[i].id
  }

  lemma {:induction false} AlignedConcat(vs: seq<Visit>, asserts: seq<Stmt>, ws: seq<Visit>, more: seq<Stmt>)
    requires (forall s | s in asserts :: s.Assert?) && (forall s | s in more :: s.Assert?)
    requires Aligned(vs, asserts) && Aligned(ws, more)
    ensures Aligned(vs + ws, asserts + more)
  {
  }

  lemma {:induction false} VisitsAligned(b: seq<Stmt>, live: Disposition, names: set<string>)
    ensures Aligned(Visits(b, live, names), AssertsIn(b))
    decreases b, 2
  {
    if b != [] {
      VisitsAlignedOf(b[0], live, names);
      VisitsAligned(b[1..], Next(b[0], live), names);
    }
  }

  lemma {:induction false} VisitsAlignedOf(s: Stmt, live: Disposition, names: set<string>)
    ensures Aligned(VisitsOf(s, live, names), AssertsOf(s))
    decreases s, 1
  {
    match s {
      case If(test, body, orelse) =>
        VisitsAligned(body, Guarded(test, live), names);
        VisitsAligned(orelse, Negated(test, live), names);
      case For(iter, body, orelse) =>
        VisitsAligned(body, Guarded(iter, live), names);
        VisitsAligned(orelse, live, names);
      case While(test, body, orelse) =>
        VisitsAligned(body, Guarded(test, live), names);
        VisitsAligned(orelse, live, names);
      case Try(_, _, _, _) => VisitsAlignedTry(s, live, names);
      case With(_, body) => VisitsAligned(body, live, names);
      case FunctionDef(name, body) => VisitsAligned(body, if name in names then live else UNREACHABLE, names);
      case _ =>
    }
  }

  lemma {:induction false} VisitsAlignedTry(s: Stmt, live: Disposition, names: set<string>)
    requires s.Try?
    ensures Aligned(VisitsOf(s, live, names), AssertsOf(s))
    decreases s, 0
  {
    var soft := Merge(live, CONDITIONAL);
    VisitsAligned(s.body, live, names);
    VisitsAlignedEach(s.handlers, soft, names);
    VisitsAligned(s.orelse, soft, names);
    VisitsAligned(s.finalbody, live, names);
    var v, a := Visits(s.body, live, names), AssertsIn(s.body);
    var w, c := VisitsEach(s.handlers, soft, names), AssertsEach(s.handlers);
    var x, d := Visits(s.orelse, soft, names), AssertsIn(s.orelse);
    AlignedConcat(v, a, w, c);
    AlignedConcat(v + w, a + c, x, d);
    AlignedConcat(v + w + x, a + c + d, Visits(s.finalbody, live, names), AssertsIn(s.finalbody));
  }

  lemma {:induction false} VisitsAlignedEach(hs: seq<Handler>, live: Disposition, names: set<string>)
    ensures Aligned(VisitsEach(hs, live, names), AssertsEach(hs))
    decreases hs, 1
  {
    if hs != [] {
      VisitsAligned(hs[0].body, live, names);
      VisitsAlignedEach(hs[1..], live, names);
    }
  }

  lemma {:induction false} RecordLookup(out: map<nat, Disposition>, vs: seq<Visit>)
    requires forall i, j | 0 <= i < j < |vs| :: vs[i].0 != vs[j].0
    ensures forall i | 0 <= i < |vs| :: vs[i].0 in Record(out, vs) && Record(out, vs)[vs[i].0] == vs[i].1
    ensures forall k | k in out && (forall i | 0 <= i < |vs| :: vs[i].0 != k) ::
              k in Record(out, vs) && Record(out, vs)[k] == out[k]
    decreases vs
  {
    if vs != [] {
      var next := out[vs[0].0 := vs[0].1];
      RecordLookup(next, vs[1..]);
      assert vs[0].0 in next && forall i | 0 <= i < |vs[1..]| :: vs[1..][i].0 != vs[0].0;
    }
  }

  /** The dictionary holds the disposition the walk gave each assertion, so none is UNRESOLVED. */
  lemma {:induction false} AnalysisFaithful(t: Test, host: Host, i: nat)
    requires UniqueIds(t.body) && i < |AssertsIn(t.body)|
    ensures var info := Analysis(t, host).asserts[i];
            && (info.id, info.reachability) in Visits(t.body, REACHABLE, Invoked(t.body))
            && info.id == AssertsIn(t.body)[i].id
            && forall v | v in Visits(t.body, REACHABLE, Invoked(t.body)) && v.0 == info.id :: v.1 == info.reachability
  {
    var vs := Visits(t.body, REACHABLE, Invoked(t.body));
    VisitsAligned(t.body, REACHABLE, Invoked(t.body));
    RecordLookup(map[], vs);
    assert vs[i] in vs;
  }

  lemma {:induction false} NoneUnresolved(b: seq<Stmt>, live: Disposition, names: set<string>)
    requires live != UNRESOLVED
    ensures forall v | v in Visits(b, live, names) :: v.1 != UNRESOLVED
    decreases b, 1
  {
    if b != [] {
      NoneUnresolvedOf(b[0], live, names);
      NoneUnresolved(b[1..], Next(b[0], live), names);
    }
  }

  lemma {:induction false} NoneUnresolvedOf(s: Stmt, live: Disposition, names: set<string>)
    requires live != UNRESOLVED
    ensures forall v | v in VisitsOf(s, live, names) :: v.1 != UNRESOLVED
    decreases s, 0
  {
    var soft := Merge(live, CONDITIONAL);
    match s {
      case If(test, body, orelse) =>
        NoneUnresolved(body, Guarded(test, live), names);
        NoneUnresolved(orelse, Negated(test, live), names);
      case For(iter, body, orelse) =>
        NoneUnresolved(body, Guarded(iter, live), names);
        NoneUnresolved(orelse, live, names);
      case While(test, body, orelse) =>
        NoneUnresolved(body, Guarded(test, live), names);
        NoneUnresolved(orelse, live, names);
      case Try(body, handlers, orelse, final) =>
        NoneUnresolved(body, live, names);
        NoneUnresolvedEach(handlers, soft, names);
        NoneUnresolved(orelse, soft, names);
        NoneUnresolved(final, live, names);
      case With(_, body) => NoneUnresolved(body, live, names);
      case FunctionDef(name, body) => NoneUnresolved(body, if name in names then live else UNREACHABLE, names);
      case _ =>
    }
  }

  lemma {:induction false} NoneUnresolvedEach(hs: seq<Handler>, live: Disposition, names: set<string>)
    requires live != UNRESOLVED
    ensures forall v | v in VisitsEach(hs, live, names) :: v.1 != UNRESOLVED
    decreases hs, 1
  {
    if hs != [] {
      NoneUnresolved(hs[0].body, live, names);
      NoneUnresolvedEach(hs[1..], live, names);
    }
  }

  // ---------------------------------------------------------------- validate

  datatype Requirement = Requirement(klass: string, mustReference: set<string>, allowConditional: bool)

  datatype Lookup = NoFile | NoParse | NoTest | Present(test: Test)

  datatype Contract = Contract(cid: string, source: Lookup, required: seq<Requirement>, minimum: nat, helpers: set<string>)

  datatype Problem =
    | DuplicateId(cid: string)
    | Absent(cid: string)                                   // no file, no parse, or no such test
    | BelowMinimum(cid: string)
    | AllTrivial(cid: string)
    | Undeclared(cid: string, names: set<string>)
    | MissingClass(cid: string, klass: string)
    | NeverRuns(cid: string, id: nat)
    | Undetermined(cid: string, id: nat)

  datatype ContractResult = ContractResult(cid: string, satisfied: bool, satisfiedClasses: seq<string>,
                                           missingClasses: seq<string>)

  type ContractOutcome = (ContractResult, seq<Problem>)

  datatype Report = Report(results: seq<ContractResult>, problems: seq<Problem>, clean: bool)

  const ASSERTION_CLASSES := {
    "EXACT_IDENTITY_EQUALITY", "SET_EQUALITY", "HASH_EQUALITY", "COUNT_EQUALITY", "MEMBERSHIP",
    "NONMEMBERSHIP", "EXPECTED_EXCEPTION", "EXPECTED_NONZERO_EXIT", "EXPECTED_ZERO_EXIT",
    "MUTATION_CHANGES_RESULT", "INERT_MUTATION_PRESERVES_RESULT", "BASELINE_GREEN_BEFORE_MUTATION",
    "MUTATION_CONSUMPTION_PROOF", "FIRST_REJECTING_CONTROL_PROOF", "MISSING_TO_MISSING_REJECTION",
    "CANDIDATE_OR_PACKET_BINDING_EQUALITY", "IDENTITY_COMPARISON", "INEQUALITY", "MEANINGFUL_TRUTHINESS" }

  const BUILTINS := {
    "len", "set", "sorted", "any", "all", "list", "dict", "str", "int", "bool", "tuple", "frozenset", "isinstance",
    "getattr", "hasattr", "type", "repr", "abs", "min", "max", "sum", "range", "enumerate", "zip", "open", "print",
    "float", "round", "next", "iter" }

  const REGISTERED_HELPERS := {"pytest.raises", "pytest.fail", "pytest.approx"}

  const KNOWN_PREDICATE_METHODS := {
    "startswith", "endswith", "isdigit", "isalpha", "isupper", "islower", "isspace", "isidentifier", "isnumeric",
    "isalnum", "issubset", "issuperset", "isdisjoint", "is_file", "is_dir", "exists", "is_absolute", "is_relative_to",
    "samefile", "match", "search", "fullmatch", "__contains__" }

  /** The name after the last dot. */
  function Bare(name: string): string {
    if name == "" then "" else if '.' in name then Bare(name[1..]) else name
  }

  /** What the helper checks is known: to Python, to pytest, or because the contract declares it. */
  predicate Declared(name: string, c: Contract) {
    name in BUILTINS || name in REGISTERED_HELPERS || Bare(name) in KNOWN_PREDICATE_METHODS || name in c.helpers
  }

  /** The helpers that assertions consist of and nobody has declared. */
  function UndeclaredIn(asserts: seq<Info>, c: Contract): set<string> {
    set a | a in asserts && a.helper.Some? && !Declared(a.helper.value, c) :: a.helper.value
  }

  method UndeclaredHelpers(c: Contract, found: Found) returns (names: set<string>)
    ensures names == UndeclaredIn(found.asserts, c)
  {
    names := {};
    for i := 0 to |found.asserts|
      invariant names == UndeclaredIn(found.asserts[..i], c)
    {
      var a := found.asserts[i];
      assert found.asserts[..i + 1] == found.asserts[..i] + [a];
      if a.helper.Some? && !Declared(a.helper.value, c) { names := names + {a.helper.value}; }
    }
    assert found.asserts[..|found.asserts|] == found.asserts;
  }

  /** The assertion `a` can stand for the requirement. */
  predicate Stands(a: Info, req: Requirement, found: Found) {
    && !a.trivial && req.klass in a.classes && req.mustReference <= a.tokens
    && (a.reachability == REACHABLE ||
        (a.reachability == CONDITIONAL && req.allowConditional && Meaningful(found.asserts, REACHABLE) >= 1))
  }

  predicate Witnessed(req: Requirement, found: Found) {
    exists a | a in found.asserts :: Stands(a, req, found)
  }

  /** An EXPECTED_EXCEPTION requirement is also met by a `pytest.raises` block that does something. */
  predicate ByRaises(req: Requirement, found: Found) {
    req.klass == "EXPECTED_EXCEPTION" && false in found.raises
  }

  predicate Met(req: Requirement, found: Found) { Witnessed(req, found) || ByRaises(req, found) }

  function Classes(reqs: seq<Requirement>, found: Found, met: bool): seq<string> {
    if reqs == [] then []
    else (if Met(reqs[0], found) == met then [reqs[0].klass] else []) + Classes(reqs[1..], found, met)
  }

  /** The requirement loop for one assertion after another, until one will do. */
  method MeetsRequirement(req: Requirement, found: Found) returns (ok: bool)
    ensures ok == Met(req, found)
  {
    ok := false;
    var i := 0;
    while i < |found.asserts| && !ok
      invariant i <= |found.asserts|
      invariant ok ==> Witnessed(req, found)
      invariant !ok ==> forall j | 0 <= j < i :: !Stands(found.asserts[j], req, found)
    {
      var a := found.asserts[i];
      if a.trivial || req.klass !in a.classes {
      } else if a.reachability == UNREACHABLE {
      } else if a.reachability == CONDITIONAL && !req.allowConditional {
      } else if a.reachability == CONDITIONAL && Meaningful(found.asserts, REACHABLE) < 1 {
      } else if a.reachability == UNRESOLVED {
      } else if req.mustReference <= a.tokens {
        ok := true;
        assert Stands(a, req, found) && a in found.asserts;
      }
      i := i + 1;
    }
    if !ok && req.klass == "EXPECTED_EXCEPTION" {
      ok := false in found.raises;
    }
  }

  /** Every assertion that can run is one that cannot fail, and nothing else could. */
  predicate OnlyTrivial(found: Found) {
    var reachable := set a | a in found.asserts && a.reachability == REACHABLE;
    reachable != {} && (forall a | a in reachable :: a.trivial) && found.raises == [] && found.fails == 0
  }

  function Countable(c: Contract, found: Found): nat {
    var reachable := Meaningful(found.asserts, REACHABLE);
    var guarded := reachable >= 1 && exists r | r in c.required :: r.allowConditional;
    reachable + (if guarded then Meaningful(found.asserts, CONDITIONAL) else 0)
  }

  /** What the contract loop reports about assertions that cannot run or be placed. */
  function Unusable(cid: string, asserts: seq<Info>): seq<Problem> {
    if asserts == [] then []
    else
      var a := asserts[0];
      (if a.reachability == UNREACHABLE && !a.trivial && a.classes != {} then [NeverRuns(cid, a.id)]
       else if a.reachability == UNRESOLVED then [Undetermined(cid, a.id)] else []) +
      Unusable(cid, asserts[1..])
  }

  function Missing(cid: string, classes: seq<string>): seq<Problem> {
    if classes == [] then [] else [MissingClass(cid, classes[0])] + Missing(cid, classes[1..])
  }

  function ResultFor(c: Contract, found: Found): ContractResult {
    ContractResult(c.cid, Classes(c.required, found, false) == [], Classes(c.required, found, true),
          Classes(c.required, found, false))
  }

  function Undeclareds(c: Contract, names: set<string>): seq<Problem> {
    if names == {} then [] else [Undeclared(c.cid, names)]
  }

  function ProblemsFor(c: Contract, found: Found): seq<Problem> {
    (if Countable(c, found) + |found.raises| + found.fails < c.minimum then [BelowMinimum(c.cid)] else []) +
    (if OnlyTrivial(found) then [AllTrivial(c.cid)] else []) +
    Undeclareds(c, UndeclaredIn(found.asserts, c)) +
    Unusable(c.cid, found.asserts) +
    Missing(c.cid, Classes(c.required, found, false))
  }

  predicate KnownClasses(c: Contract) { forall r | r in c.required :: r.klass in ASSERTION_CLASSES }

  /** The requirement loop: the classes met and the classes missing, in order. */
  method CheckRequirements(c: Contract, found: Found) returns (known: bool, satisfied: seq<string>, missing: seq<string>)
    ensures known == KnownClasses(c)
    ensures known ==> satisfied == Classes(c.required, found, true) && missing == Classes(c.required, found, false)
  {
    satisfied, missing := [], [];
    for i := 0 to |c.required|
      invariant forall j | 0 <= j < i :: c.required[j].klass in ASSERTION_CLASSES
      invariant satisfied + Classes(c.required[i..], found, true) == Classes(c.required, found, true)
      invariant missing + Classes(c.required[i..], found, false) == Classes(c.required, found, false)
    {
      var req := c.required[i];
      assert c.required[i..][1..] == c.required[i + 1..];
      if req.klass !in ASSERTION_CLASSES {
        assert req in c.required;
        return false, [], [];
      }
      var ok := MeetsRequirement(req, found);
      if ok { satisfied := satisfied + [req.klass]; } else { missing := missing + [req.klass]; }
    }
    known := true;
  }

  /** What one contract contributes to the report. */
  function OutcomeOf(c: Contract, seen: set<string>, host: Host): ContractOutcome {
    var dup := if c.cid in seen then [DuplicateId(c.cid)] else [];
    match c.source
    case Present(test) => var found := Analysis(test, host); (ResultFor(c, found), dup + ProblemsFor(c, found))
    case _ => (ContractResult(c.cid, false, [], []), dup + [Absent(c.cid)])
  }

  predicate Acceptable(c: Contract) { c.source.Present? ==> KnownClasses(c) }

  method ProblemsOf(c: Contract, found: Found, missing: seq<string>) returns (own: seq<Problem>)
    requires missing == Classes(c.required, found, false)
    ensures own == ProblemsFor(c, found)
  {
    own := [];
    if Countable(c, found) + |found.raises| + found.fails < c.minimum { own := own + [BelowMinimum(c.cid)]; }
    if OnlyTrivial(found) { own := own + [AllTrivial(c.cid)]; }
    var names := UndeclaredHelpers(c, found);
    if names != {} { own := own + [Undeclared(c.cid, names)]; }
    own := own + Unusable(c.cid, found.asserts) + Missing(c.cid, missing);
  }

  /** An unknown class in the contract of an existing test is an error, whatever the test contains. */
  method CheckContract(c: Contract, seen: set<string>, host: Host) returns (ok: bool, r: ContractOutcome)
    ensures ok <==> Acceptable(c)
    ensures ok ==> r == OutcomeOf(c, seen, host)
  {
    var problems: seq<Problem> := [];
    if c.cid in seen { problems := problems + [DuplicateId(c.cid)]; }
    assert problems == if c.cid in seen then [DuplicateId(c.cid)] else [];
    if !c.source.Present? {
      return true, (ContractResult(c.cid, false, [], []), problems + [Absent(c.cid)]);
    }
    var found := AnalyseFunction(c.source.test, host);
    var known, satisfied, missing := CheckRequirements(c, found);
    if !known { return false, (ContractResult(c.cid, false, [], []), []); }
    var own := ProblemsOf(c, found, missing);
    ok, r := true, (ContractResult(c.cid, missing == [], satisfied, missing), problems + own);
  }

  /** The contracts in order, each with the ids seen before it. */
  function Each(cs: seq<Contract>, seen: set<string>, one: (Contract, set<string>) -> ContractOutcome)
    : (r: (seq<ContractResult>, seq<Problem>))
    ensures |r.0| == |cs|
  {
    if cs == [] then ([], [])
    else
      var first, rest := one(cs[0], seen), Each(cs[1..], seen + {cs[0].cid}, one);
      ([first.0] + rest.0, first.1 + rest.1)
  }

  /** The report on all contracts. */
  function Outcomes(cs: seq<Contract>, seen: set<string>, host: Host): (r: (seq<ContractResult>, seq<Problem>))
    ensures |r.0| == |cs|
  {
    Each(cs, seen, (c, s) => OutcomeOf(c, s, host))
  }

  lemma {:induction false} OutcomesStep(cs: seq<Contract>, i: nat, seen: set<string>, host: Host,
                                        one: ContractOutcome)
    requires i < |cs| && one == OutcomeOf(cs[i], seen, host)
    ensures var rest := Outcomes(cs[i + 1..], seen + {cs[i].cid}, host);
            Outcomes(cs[i..], seen, host) == ([one.0] + rest.0, one.1 + rest.1)
  {
    assert cs[i..][1..] == cs[i + 1..];
  }

  /** The results and problems so far, completed by those of the remaining contracts. */
  ghost predicate Completes(results: seq<ContractResult>, problems: seq<Problem>,
                            rest: (seq<ContractResult>, seq<Problem>), all: (seq<ContractResult>, seq<Problem>))
  {
    results + rest.0 == all.0 && problems + rest.1 == all.1
  }

  lemma {:induction false} CompletesStep(results: seq<ContractResult>, problems: seq<Problem>,
                      one: ContractOutcome,
                      rest: (seq<ContractResult>, seq<Problem>), all: (seq<ContractResult>, seq<Problem>))
    requires Completes(results, problems, ([one.0] + rest.0, one.1 + rest.1), all)
    ensures Completes(results + [one.0], problems + one.1, rest, all)
  {
  }

  method Validate(contracts: seq<Contract>, host: Host) returns (r: Result<Report, string>)
    ensures r.Ok? <==> forall c | c in contracts :: Acceptable(c)
    ensures r.Ok? ==> r.value.results == Outcomes(contracts, {}, host).0
    ensures r.Ok? ==> r.value.problems == Outcomes(contracts, {}, host).1
    ensures r.Ok? ==> r.value.clean == (r.value.problems == [])
  {
    var problems: seq<Problem>, results: seq<ContractResult> := [], [];
    var seen: set<string> := {};
    ghost var all := Outcomes(contracts, {}, host);
    assert contracts[0..] == contracts;
    for i := 0 to |contracts|
      invariant forall j | 0 <= j < i :: Acceptable(contracts[j])
      invariant Completes(results, problems, Outcomes(contracts[i..], seen, host), all)
    {
      var c := contracts[i];
      var ok, one := CheckContract(c, seen, host);
      if !ok {
        assert c in contracts;
        return Err(c.cid);
      }
      OutcomesStep(contracts, i, seen, host, one);
      CompletesStep(results, problems, one, Outcomes(contracts[i + 1..], seen + {c.cid}, host), all);
      seen, results, problems := seen + {c.cid}, results + [one.0], problems + one.1;
    }
    r := Ok(Report(results, problems, problems == []));
  }

  // ---------------------------------------------------------------- what a satisfied contract guarantees

  /** Every statement of the run completed normally, or the run passes and the function can miss nothing in such a run. */
  ghost predicate Telling(t: Test, r: Run) {
    Undisturbed(RunOf(t.body, r)) || (SecureBody(t.body) && Passes(RunOf(t.body, r)))
  }

  /** The run evaluates the assertion with this identity, or the assertion sits in a nested function. */
  ghost predicate Evaluates(t: Test, id: nat, r: Run) {
    id in RunOf(t.body, r).seen || id in Nested(t.body)
  }

  /** `a`, as written, checks something, has the class and tokens asked for, and may run. */
  ghost predicate Answers(t: Test, req: Requirement, a: Stmt, host: Host) {
    && a in AssertsIn(t.body) && req.klass in a.classes && req.mustReference <= a.tokens
    && !IsAlwaysTrue(a.test, host)
  }

  lemma {:induction false} ReachableEvaluates(t: Test, host: Host, i: nat, r: Run)
    requires UniqueIds(t.body) && i < |AssertsIn(t.body)|
    requires Analysis(t, host).asserts[i].reachability == REACHABLE && Telling(t, r)
    ensures Evaluates(t, AssertsIn(t.body)[i].id, r)
  {
    AnalysisFaithful(t, host, i);
    var id := AssertsIn(t.body)[i].id;
    if id !in Nested(t.body) {
      if Undisturbed(RunOf(t.body, r)) { AlwaysEvaluated(t.body, r, id); } else { PassingRunEvaluates(t.body, r, id); }
    }
  }

  lemma {:induction false} MeaningfulWitness(asserts: seq<Info>, d: Disposition) returns (i: nat)
    requires Meaningful(asserts, d) >= 1
    ensures i < |asserts| && !asserts[i].trivial && asserts[i].reachability == d
  {
    if !asserts[0].trivial && asserts[0].reachability == d {
      i := 0;
    } else {
      i := MeaningfulWitness(asserts[1..], d);
      i := i + 1;
    }
  }

  /** One and the same assertion is evaluated by every telling run, or sits in a nested function. */
  ghost predicate Guard(t: Test, g: Stmt, host: Host) {
    g in AssertsIn(t.body) && !IsAlwaysTrue(g.test, host) && forall r | Telling(t, r) :: Evaluates(t, g.id, r)
  }

  lemma {:induction false} ReachableGuards(t: Test, host: Host, i: nat)
    requires UniqueIds(t.body) && i < |AssertsIn(t.body)|
    requires Analysis(t, host).asserts[i].reachability == REACHABLE && !Analysis(t, host).asserts[i].trivial
    ensures Guard(t, AssertsIn(t.body)[i], host)
  {
    forall r | Telling(t, r) ensures Evaluates(t, AssertsIn(t.body)[i].id, r) { ReachableEvaluates(t, host, i, r); }
  }

  /**
   A requirement that is met, and not merely by a `pytest.raises` block, has an assertion that
   checks something and carries the class and tokens; every telling run evaluates that assertion,
   or, when the requirement allows a conditional one, some other meaningful assertion, the same for
   all runs, unless that is inside a nested function.
   */
  lemma {:induction false} MetRequirementIsEvaluated(t: Test, host: Host, req: Requirement) returns (a: Stmt, g: Stmt)
    requires UniqueIds(t.body) && Met(req, Analysis(t, host)) && !ByRaises(req, Analysis(t, host))
    ensures a.Assert? && g.Assert? && Answers(t, req, a, host) && Guard(t, g, host)
    ensures a == g || req.allowConditional
  {
    var found := Analysis(t, host);
    var nodes := AssertsIn(t.body);
    var i :| 0 <= i < |found.asserts| && Stands(found.asserts[i], req, found);
    a := nodes[i];
    if found.asserts[i].reachability == REACHABLE {
      ReachableGuards(t, host, i);
      g := a;
    } else {
      var j := MeaningfulWitness(found.asserts, REACHABLE);
      ReachableGuards(t, host, j);
      g := nodes[j];
    }
  }

  lemma {:induction false} NothingMissing(reqs: seq<Requirement>, found: Found)
    requires Classes(reqs, found, false) == []
    ensures forall q | q in reqs :: Met(q, found)
  {
    if reqs != [] { NothingMissing(reqs[1..], found); }
  }

  /** End to end: so it is for every requirement of every contract that `validate` marks satisfied. */
  lemma {:induction false} SatisfiedContract(cs: seq<Contract>, seen: set<string>, host: Host, i: nat, req: Requirement)
    returns (a: Stmt, g: Stmt)
    requires i < |cs| && Outcomes(cs, seen, host).0[i].satisfied && req in cs[i].required
    requires cs[i].source.Present? ==>
               UniqueIds(cs[i].source.test.body) && !ByRaises(req, Analysis(cs[i].source.test, host))
    ensures cs[i].source.Present?
    ensures a.Assert? && g.Assert? && Answers(cs[i].source.test, req, a, host)
    ensures Guard(cs[i].source.test, g, host) && (a == g || req.allowConditional)
    decreases i
  {
    if i > 0 {
      a, g := SatisfiedContract(cs[1..], seen + {cs[0].cid}, host, i - 1, req);
    } else {
      var found := Analysis(cs[0].source.test, host);
      NothingMissing(cs[0].required, found);
      a, g := MetRequirementIsEvaluated(cs[0].source.test, host, req);
    }
  }

  lemma {:induction false} NothingUnusable(cid: string, asserts: seq<Info>, i: nat)
    requires i < |asserts| && Unusable(cid, asserts) == []
    ensures asserts[i].reachability == UNREACHABLE ==> asserts[i].trivial || asserts[i].classes == {}
  {
    if i > 0 { NothingUnusable(cid, asserts[1..], i - 1); }
  }

  lemma {:induction false} NoneOfBoth<T>(xs: seq<T>, ys: seq<T>)
    requires xs + ys == []
    ensures xs == [] && ys == []
  {
    assert |xs + ys| == |xs| + |ys|;
  }

  /** In a report without problems every contract is without problems. */
  lemma {:induction false} CleanEach(cs: seq<Contract>, seen: set<string>, one: (Contract, set<string>) -> ContractOutcome,
                                     i: nat)
    returns (before: set<string>)
    requires i < |cs| && Each(cs, seen, one).1 == []
    ensures one(cs[i], before) == (Each(cs, seen, one).0[i], [])
    ensures seen <= before && forall j | 0 <= j < i :: cs[j].cid in before
    decreases i
  {
    var first, rest := one(cs[0], seen), Each(cs[1..], seen + {cs[0].cid}, one);
    NoneOfBoth(first.1, rest.1);
    if i == 0 { before := seen; } else { before := CleanEach(cs[1..], seen + {cs[0].cid}, one, i - 1); }
  }

  /** Nothing is wrong with the contract or its test. */
  predicate Faultless(c: Contract, host: Host) {
    c.source.Present? &&
    var found := Analysis(c.source.test, host);
    UndeclaredIn(found.asserts, c) == {} && Unusable(c.cid, found.asserts) == []
  }

  lemma {:induction false} CleanOne(c: Contract, seen: set<string>, host: Host)
    requires OutcomeOf(c, seen, host).1 == []
    ensures Faultless(c, host) && c.cid !in seen && OutcomeOf(c, seen, host).0.satisfied
  {
    if c.source.Present? {
      var found := Analysis(c.source.test, host);
      assert ProblemsFor(c, found) == [];
      assert Missing(c.cid, Classes(c.required, found, false)) == [];
    }
  }

  lemma {:induction false} CleanContract(cs: seq<Contract>, seen: set<string>, host: Host, i: nat)
    requires i < |cs| && Outcomes(cs, seen, host).1 == []
    ensures Faultless(cs[i], host) && Outcomes(cs, seen, host).0[i].satisfied
    ensures cs[i].cid !in seen && forall j | 0 <= j < i :: cs[j].cid != cs[i].cid
  {
    var before := CleanEach(cs, seen, (c, s) => OutcomeOf(c, s, host), i);
    CleanOne(cs[i], before, host);
  }

  /** A clean report leaves no meaningful assertion in code that cannot run. */
  lemma {:induction false} CleanMeansLive(cs: seq<Contract>, seen: set<string>, host: Host, i: nat, a: Stmt)
    requires i < |cs| && Outcomes(cs, seen, host).1 == []
    ensures cs[i].source.Present? && Outcomes(cs, seen, host).0[i].satisfied
    ensures cs[i].cid !in seen && forall j | 0 <= j < i :: cs[j].cid != cs[i].cid
    ensures UniqueIds(cs[i].source.test.body) && a in AssertsIn(cs[i].source.test.body) &&
            !IsAlwaysTrue(a.test, host) && a.classes != {} ==>
              exists d :: d != UNREACHABLE &&
                (a.id, d) in Visits(cs[i].source.test.body, REACHABLE, Invoked(cs[i].source.test.body))
  {
    CleanContract(cs, seen, host, i);
    var t := cs[i].source.test;
    if a in AssertsIn(t.body) && UniqueIds(t.body) && !IsAlwaysTrue(a.test, host) && a.classes != {} {
      var j :| 0 <= j < |AssertsIn(t.body)| && AssertsIn(t.body)[j] == a;
      NothingUnusable(cs[i].cid, Analysis(t, host).asserts, j);
      AnalysisFaithful(t, host, j);
    }
  }

  lemma {:induction false} UndeclaredFound(asserts: seq<Info>, c: Contract, i: nat)
    requires i < |asserts| && asserts[i].helper.Some? && !Declared(asserts[i].helper.value, c)
    ensures asserts[i].helper.value in UndeclaredIn(asserts, c)
  {
    assert asserts[i] in asserts;
  }

  /** In a clean report an assertion that is nothing but a call, negated or not, calls a helper somebody declared. */
  lemma {:induction false} CleanMeansDeclared(cs: seq<Contract>, seen: set<string>, host: Host, i: nat, a: Stmt)
    requires i < |cs| && Outcomes(cs, seen, host).1 == []
    requires cs[i].source.Present? && a in AssertsIn(cs[i].source.test.body)
    ensures MechanismCall(a.test).Some? ==> Declared(MechanismCall(a.test).value, cs[i])
  {
    CleanContract(cs, seen, host, i);
    var t := cs[i].source.test;
    var j :| 0 <= j < |AssertsIn(t.body)| && AssertsIn(t.body)[j] == a;
    var info := Analysis(t, host).asserts[j];
    assert info.helper == MechanismCall(a.test);
    if info.helper.Some? && !Declared(info.helper.value, cs[i]) { UndeclaredFound(Analysis(t, host).asserts, cs[i], j); }
  }
}
