module Availability {
  // `model`, `check` and `_workflow_env_values`: which variables a workflow step can see.
  //
  // The structural model and the harness are compared with a runner that executes the steps of a job
  // in order, where a `$GITHUB_ENV` write reaches only later steps.

  import opened Common

  /** A write to `$GITHUB_ENV`. */
  datatype Write = Write(name: string, value: string)

  /** `id` is the step's id, if it has one; such a step is graded. `consumes` are the variables its scripts read. */
  datatype Step = Step(id: Option<string>, env: map<string, string>, writes: seq<Write>, exports: set<string>,
                       consumes: set<string>)

  datatype Job = Job(env: map<string, string>, steps: seq<Step>)

  /** The runner's own expression expansion, applied to declared values. */
  type Expand = string -> string

  // ---------------------------------------------------------------- the runner

  function Declared(env: map<string, string>, expand: Expand): map<string, string> {
    map k | k in env :: expand(env[k])
  }

  function Written(carried: map<string, string>, writes: seq<Write>): map<string, string>
    decreases writes
  {
    if writes == [] then carried else Written(carried[writes[0].name := writes[0].value], writes[1..])
  }

  /** What `$GITHUB_ENV` has accumulated when step `i` starts. */
  function Carried(job: Job, i: nat): map<string, string>
    requires i <= |job.steps|
  {
    if i == 0 then map[] else Written(Carried(job, i - 1), job.steps[i - 1].writes)
  }

  /** The environment the runner starts step `i` in. */
  function Started(job: Job, i: nat, expand: Expand): map<string, string>
    requires i < |job.steps|
  {
    Declared(job.env, expand) + Carried(job, i) + Declared(job.steps[i].env, expand)
  }

  /** `v` is set for the scripts of step `i`, which may also export it themselves. */
  predicate IsSet(job: Job, i: nat, v: string)
    requires i < |job.steps|
  {
    v in Started(job, i, x => x) || v in job.steps[i].exports
  }

  // ---------------------------------------------------------------- the model

  datatype Row = Row(job: nat, order: nat, id: string, jobEnv: set<string>, stepEnv: set<string>, writes: set<string>,
                     exports: set<string>, available: set<string>, consumes: set<string>, missing: set<string>)

  function WriteNames(writes: seq<Write>): set<string> { set w | w in writes :: w.name }

  function CarriedNames(job: Job, i: nat): set<string>
    requires i <= |job.steps|
  {
    if i == 0 then {} else CarriedNames(job, i - 1) + WriteNames(job.steps[i - 1].writes)
  }

  function RowFor(jobs: seq<Job>, j: nat, i: nat): Row
    requires j < |jobs| && i < |jobs[j].steps| && jobs[j].steps[i].id.Some?
  {
    var step := jobs[j].steps[i];
    var available := jobs[j].env.Keys + step.env.Keys + CarriedNames(jobs[j], i) + step.exports;
    Row(j, i, step.id.value, jobs[j].env.Keys, step.env.Keys, WriteNames(step.writes), step.exports, available,
        step.consumes, step.consumes - available)
  }

  predicate Graded(jobs: seq<Job>, j: int, i: int) {
    0 <= j < |jobs| && 0 <= i < |jobs[j].steps| && jobs[j].steps[i].id.Some?
  }

  /** The rows are those of the graded steps among the first `i` steps of job `j` and all earlier jobs. */
  ghost predicate RowsUpTo(jobs: seq<Job>, j: nat, i: nat, rows: seq<Row>) {
    && (forall r | r in rows :: Graded(jobs, r.job, r.order) && r == RowFor(jobs, r.job, r.order) &&
                                (r.job < j || (r.job == j && r.order < i)))
    && forall a, b | Graded(jobs, a, b) && (a < j || (a == j && b < i)) :: RowFor(jobs, a, b) in rows
  }

  method Model(jobs: seq<Job>) returns (rows: seq<Row>)
    ensures RowsUpTo(jobs, |jobs|, 0, rows)
  {
    rows := [];
    for j := 0 to |jobs|
      invariant RowsUpTo(jobs, j, 0, rows)
    {
      var job := jobs[j];
      var carried: set<string> := {};
      for i := 0 to |job.steps|
        invariant carried == CarriedNames(job, i)
        invariant RowsUpTo(jobs, j, i, rows)
      {
        var step := job.steps[i];
        var available := job.env.Keys + step.env.Keys + carried + step.exports;
        if step.id.Some? {
          rows := rows + [Row(j, i, step.id.value, job.env.Keys, step.env.Keys, WriteNames(step.writes), step.exports,
                              available, step.consumes, step.consumes - available)];
        }
        carried := carried + WriteNames(step.writes);
      }
    }
  }

  lemma {:induction false} WrittenKeys(carried: map<string, string>, writes: seq<Write>)
    ensures Written(carried, writes).Keys == carried.Keys + WriteNames(writes)
    decreases writes
  {
    if writes != [] {
      WrittenKeys(carried[writes[0].name := writes[0].value], writes[1..]);
      assert WriteNames(writes) == {writes[0].name} + WriteNames(writes[1..]) by {
        assert writes == [writes[0]] + writes[1..];
      }
    }
  }

  lemma {:induction false} CarriedKeys(job: Job, i: nat)
    requires i <= |job.steps|
    ensures Carried(job, i).Keys == CarriedNames(job, i)
  {
    if i > 0 {
      CarriedKeys(job, i - 1);
      WrittenKeys(Carried(job, i - 1), job.steps[i - 1].writes);
    }
  }

  /** What the model calls available is what is set when the runner gets to the step. */
  lemma {:induction false} AvailableIsSet(jobs: seq<Job>, j: nat, i: nat, v: string)
    requires Graded(jobs, j, i)
    ensures v in RowFor(jobs, j, i).available <==> IsSet(jobs[j], i, v)
  {
    CarriedKeys(jobs[j], i);
  }

  // ---------------------------------------------------------------- check

  /** A graded step writes `v` or declares it in its own environment. */
  ghost predicate Supplies(jobs: seq<Job>, v: string) {
    exists j, i :: Graded(jobs, j, i) && (v in WriteNames(jobs[j].steps[i].writes) || v in jobs[j].steps[i].env)
  }

  /** A graded step or its job produces `v`. */
  ghost predicate Produces(jobs: seq<Job>, v: string) {
    Supplies(jobs, v) || exists j, i :: Graded(jobs, j, i) && v in jobs[j].env
  }

  datatype Problem = Laundered(v: string) | TooLate(step: Row, v: string) | Unknown(step: Row, v: string)

  /** Every variable the step consumes is set when it runs, or ambient and supplied by no step. */
  ghost predicate Fed(jobs: seq<Job>, j: int, i: int, ambient: set<string>)
    requires Graded(jobs, j, i)
  {
    forall v | v in jobs[j].steps[i].consumes :: IsSet(jobs[j], i, v) || (v in ambient && !Supplies(jobs, v))
  }

  ghost predicate Clean(jobs: seq<Job>, ambient: set<string>) {
    && (forall v | v in ambient :: !Produces(jobs, v))
    && forall j, i | Graded(jobs, j, i) :: Fed(jobs, j, i, ambient)
  }

  method FindProducer(rows: seq<Row>, v: string) returns (p: Option<Row>)
    ensures p.None? <==> forall r | r in rows :: v !in r.writes && v !in r.stepEnv
    ensures p.Some? ==> p.value in rows && (v in p.value.writes || v in p.value.stepEnv)
  {
    for k := 0 to |rows|
      invariant forall r | r in rows[..k] :: v !in r.writes && v !in r.stepEnv
    {
      if v in rows[k].writes || v in rows[k].stepEnv { return Some(rows[k]); }
      assert rows[..k + 1] == rows[..k] + [rows[k]];
    }
    assert rows[..|rows|] == rows;
    p := None;
  }

  ghost predicate RowProduces(rows: seq<Row>, v: string) {
    exists r | r in rows :: v in r.writes || v in r.stepEnv || v in r.jobEnv
  }

  /** The variables of `vs` that a row produces. */
  method ProducedAmong(rows: seq<Row>, vs: set<string>) returns (both: set<string>)
    ensures forall v :: v in both <==> v in vs && RowProduces(rows, v)
  {
    both := {};
    for k := 0 to |rows|
      invariant forall v :: v in both <==> v in vs && RowProduces(rows[..k], v)
    {
      assert rows[..k + 1] == rows[..k] + [rows[k]];
      both := both + vs * (rows[k].writes + rows[k].stepEnv + rows[k].jobEnv);
    }
    assert rows[..|rows|] == rows;
  }

  ghost predicate SomeRowSupplies(rows: seq<Row>, v: string) { exists r | r in rows :: v in r.writes || v in r.stepEnv }

  /** Of a variable in `vs`: too late if some row supplies it, unknown if none does and it is not ambient. */
  ghost predicate Reported(rows: seq<Row>, step: Row, ambient: set<string>, vs: set<string>, p: Problem) {
    match p
    case TooLate(at, v) => at == step && v in vs && SomeRowSupplies(rows, v)
    case Unknown(at, v) => at == step && v in vs && !SomeRowSupplies(rows, v) && v !in ambient
    case Laundered(_) => false
  }

  /** The problems of one graded step. */
  method CheckStep(rows: seq<Row>, step: Row, ambient: set<string>) returns (found: seq<Problem>)
    ensures forall p :: p in found <==> Reported(rows, step, ambient, step.missing, p)
  {
    found := [];
    var todo := step.missing;
    while todo != {}
      invariant todo <= step.missing
      invariant forall p :: p in found <==> Reported(rows, step, ambient, step.missing - todo, p)
    {
      var v :| v in todo;
      var producer := FindProducer(rows, v);
      if producer.None? {
        if v !in ambient { found := found + [Unknown(step, v)]; }
      } else {
        found := found + [TooLate(step, v)];
      }
      todo := todo - {v};
    }
  }

  /** Step `i` of job `j` consumes a variable that is not set when it runs. */
  ghost predicate Lacks(jobs: seq<Job>, j: int, i: int, v: string)
    requires Graded(jobs, j, i)
  {
    v in jobs[j].steps[i].consumes && !IsSet(jobs[j], i, v)
  }

  /** What is to be reported about the workflow. */
  ghost predicate Deserved(jobs: seq<Job>, ambient: set<string>, p: Problem) {
    match p
    case Laundered(v) => v in ambient && Produces(jobs, v)
    case TooLate(row, v) => LackingRow(jobs, row, v) && Supplies(jobs, v)
    case Unknown(row, v) => LackingRow(jobs, row, v) && !Supplies(jobs, v) && v !in ambient
  }

  ghost predicate LackingRow(jobs: seq<Job>, row: Row, v: string) {
    exists j, i :: Graded(jobs, j, i) && row == RowFor(jobs, j, i) && Lacks(jobs, j, i, v)
  }

  ghost predicate SomeReported(rows: seq<Row>, from: seq<Row>, ambient: set<string>, p: Problem) {
    exists r | r in from :: Reported(rows, r, ambient, r.missing, p)
  }

  /** One problem for each variable. */
  method LaunderedIn(both: set<string>) returns (problems: seq<Problem>)
    ensures forall p :: p in problems <==> p.Laundered? && p.v in both
  {
    problems := [];
    var todo := both;
    while todo != {}
      invariant todo <= both
      invariant forall p :: p in problems <==> p.Laundered? && p.v in both - todo
    {
      var v :| v in todo;
      problems := problems + [Laundered(v)];
      todo := todo - {v};
    }
  }

  method CheckSteps(rows: seq<Row>, ambient: set<string>) returns (problems: seq<Problem>)
    ensures forall p :: p in problems <==> SomeReported(rows, rows, ambient, p)
  {
    problems := [];
    for k := 0 to |rows|
      invariant forall p :: p in problems <==> SomeReported(rows, rows[..k], ambient, p)
    {
      var found := CheckStep(rows, rows[k], ambient);
      problems := problems + found;
      assert rows[..k + 1] == rows[..k] + [rows[k]];
    }
    assert rows[..|rows|] == rows;
  }

  /** What is reported is what deserves it; so the report is clean exactly when every step finds what it consumes. */
  method Check(jobs: seq<Job>, ambient: set<string>) returns (problems: seq<Problem>, clean: bool)
    ensures forall p :: p in problems <==> Deserved(jobs, ambient, p)
    ensures clean == (problems == [])
    ensures clean <==> Clean(jobs, ambient)
  {
    var rows := Model(jobs);
    var laundered := ProducedAmong(rows, ambient);
    var first := LaunderedIn(laundered);
    var second := CheckSteps(rows, ambient);
    problems := first + second;
    clean := problems == [];
    forall p ensures p in problems <==> Deserved(jobs, ambient, p) { DeservedRows(jobs, rows, ambient, p); }
    NothingDeserved(jobs, ambient);
    assert problems != [] ==> problems[0] in problems;
  }

  /** The workflow is clean exactly if nothing is to be reported. */
  lemma {:induction false} NothingDeserved(jobs: seq<Job>, ambient: set<string>)
    ensures Clean(jobs, ambient) <==> forall p :: !Deserved(jobs, ambient, p)
  {
    if forall p :: !Deserved(jobs, ambient, p) {
      forall v | v in ambient ensures !Produces(jobs, v) { assert !Deserved(jobs, ambient, Laundered(v)); }
      forall j, i | Graded(jobs, j, i) ensures Fed(jobs, j, i, ambient) {
        forall v | v in jobs[j].steps[i].consumes ensures IsSet(jobs[j], i, v) || (v in ambient && !Supplies(jobs, v)) {
          assert !Deserved(jobs, ambient, TooLate(RowFor(jobs, j, i), v));
          assert !Deserved(jobs, ambient, Unknown(RowFor(jobs, j, i), v));
        }
      }
    }
  }

  lemma {:induction false} LackingRows(jobs: seq<Job>, rows: seq<Row>, row: Row, v: string)
    requires RowsUpTo(jobs, |jobs|, 0, rows)
    ensures row in rows && v in row.missing <==> LackingRow(jobs, row, v)
  {
    if row in rows && v in row.missing { AvailableIsSet(jobs, row.job, row.order, v); }
    if LackingRow(jobs, row, v) {
      var j, i :| Graded(jobs, j, i) && row == RowFor(jobs, j, i) && Lacks(jobs, j, i, v);
      AvailableIsSet(jobs, j, i, v);
    }
  }

  lemma {:induction false} DeservedRows(jobs: seq<Job>, rows: seq<Row>, ambient: set<string>, p: Problem)
    requires RowsUpTo(jobs, |jobs|, 0, rows)
    ensures Deserved(jobs, ambient, p) <==>
            (p.Laundered? && p.v in ambient && RowProduces(rows, p.v)) || SomeReported(rows, rows, ambient, p)
  {
    SuppliesRows(jobs, rows, p.v);
    match p {
      case TooLate(row, v) => LackingRows(jobs, rows, row, v);
      case Unknown(row, v) => LackingRows(jobs, rows, row, v);
      case Laundered(_) =>
    }
  }

  lemma {:induction false} SuppliesRows(jobs: seq<Job>, rows: seq<Row>, v: string)
    requires RowsUpTo(jobs, |jobs|, 0, rows)
    ensures Supplies(jobs, v) <==> SomeRowSupplies(rows, v)
    ensures Produces(jobs, v) <==> RowProduces(rows, v)
  {
    forall j, i | Graded(jobs, j, i) ensures RowFor(jobs, j, i) in rows {}
  }

  // ---------------------------------------------------------------- the harness

  /** Step `i` of job `j` is the last graded step, in workflow order, with its id. */
  ghost predicate LastWithId(jobs: seq<Job>, j: int, i: int) {
    Graded(jobs, j, i) &&
    forall a, b | Graded(jobs, a, b) && (a > j || (a == j && b > i)) :: jobs[a].steps[b].id != jobs[j].steps[i].id
  }

  /** The same, among the steps before step `n` of job `m`. */
  ghost predicate LastBefore(jobs: seq<Job>, m: nat, n: nat, j: int, i: int) {
    Graded(jobs, j, i) && (j < m || (j == m && i < n)) &&
    forall a, b | Graded(jobs, a, b) && (a > j || (a == j && b > i)) && (a < m || (a == m && b < n)) ::
      jobs[a].steps[b].id != jobs[j].steps[i].id
  }

  /** The values the harness runs each graded step with are those the runner starts it with. */
  method WorkflowEnvValues(jobs: seq<Job>, expand: Expand) returns (values: map<string, map<string, string>>)
    ensures forall j, i | LastWithId(jobs, j, i) ::
              jobs[j].steps[i].id.value in values && values[jobs[j].steps[i].id.value] == Started(jobs[j], i, expand)
    ensures forall id | id in values :: exists j, i :: Graded(jobs, j, i) && jobs[j].steps[i].id == Some(id)
  {
    values := map[];
    for m := 0 to |jobs|
      invariant forall j, i | LastBefore(jobs, m, 0, j, i) ::
                  jobs[j].steps[i].id.value in values && values[jobs[j].steps[i].id.value] == Started(jobs[j], i, expand)
      invariant forall id | id in values :: exists j, i :: Graded(jobs, j, i) && jobs[j].steps[i].id == Some(id)
    {
      var job := jobs[m];
      var jobEnv := Declared(job.env, expand);
      var carried: map<string, string> := map[];
      for n := 0 to |job.steps|
        invariant carried == Carried(job, n)
        invariant forall j, i | LastBefore(jobs, m, n, j, i) ::
                    jobs[j].steps[i].id.value in values && values[jobs[j].steps[i].id.value] == Started(jobs[j], i, expand)
        invariant forall id | id in values :: exists j, i :: Graded(jobs, j, i) && jobs[j].steps[i].id == Some(id)
      {
        var step := job.steps[n];
        var merged := jobEnv + carried + Declared(step.env, expand);
        if step.id.Some? {
          assert Graded(jobs, m, n);
          values := values[step.id.value := merged];
        }
        forall j, i | LastBefore(jobs, m, n + 1, j, i) && !(j == m && i == n)
          ensures LastBefore(jobs, m, n, j, i) && (step.id.Some? ==> jobs[j].steps[i].id != step.id)
        {
          if step.id.Some? { assert Graded(jobs, m, n); }
        }
        carried := ApplyWrites(carried, step.writes);
      }
      forall j, i | LastBefore(jobs, m + 1, 0, j, i) ensures LastBefore(jobs, m, |job.steps|, j, i) {}
    }
    forall j, i | LastWithId(jobs, j, i) ensures LastBefore(jobs, |jobs|, 0, j, i) {}
  }

  method ApplyWrites(carried: map<string, string>, writes: seq<Write>) returns (r: map<string, string>)
    ensures r == Written(carried, writes)
  {
    r := carried;
    for k := 0 to |writes|
      invariant Written(r, writes[k..]) == Written(carried, writes)
    {
      assert writes[k..][1..] == writes[k + 1..];
      r := r[writes[k].name := writes[k].value];
    }
  }

  /** The harness gives a step what the model calls available, except what the step exports itself. */
  lemma {:induction false} HarnessAgrees(jobs: seq<Job>, j: nat, i: nat, expand: Expand)
    requires Graded(jobs, j, i)
    ensures RowFor(jobs, j, i).available == Started(jobs[j], i, expand).Keys + RowFor(jobs, j, i).exports
  {
    CarriedKeys(jobs[j], i);
  }

  lemma {:induction false} WrittenLast(carried: map<string, string>, writes: seq<Write>, v: string)
    ensures v in WriteNames(writes) ==> v in Written(carried, writes) && exists k ::
              0 <= k < |writes| && writes[k].name == v && writes[k].value == Written(carried, writes)[v] &&
              forall l | k < l < |writes| :: writes[l].name != v
    ensures v !in WriteNames(writes) ==>
              ((v in Written(carried, writes) <==> v in carried) &&
               (v in carried ==> Written(carried, writes)[v] == carried[v]))
    decreases writes
  {
    if writes != [] {
      var w := writes[0];
      WrittenLast(carried[w.name := w.value], writes[1..], v);
      assert writes == [w] + writes[1..];
      if v in WriteNames(writes[1..]) {
        var k :| 0 <= k < |writes[1..]| && writes[1..][k].name == v && writes[1..][k].value == Written(carried, writes)[v] &&
                 forall l | k < l < |writes[1..]| :: writes[1..][l].name != v;
        assert forall l | k + 1 < l < |writes| :: writes[l] == writes[1..][l - 1];
        assert writes[k + 1].name == v;
      } else if v == w.name {
        assert forall l | 0 < l < |writes| :: writes[l] in writes[1..];
        assert writes[0].name == v;
      }
    }
  }

  /** The last step before `i` that writes `v`, if any, decides its carried value. */
  lemma {:induction false} CarriedLast(job: Job, i: nat, k: nat, v: string)
    requires k < i <= |job.steps| && v in WriteNames(job.steps[k].writes)
    requires forall l | k < l < i :: v !in WriteNames(job.steps[l].writes)
    ensures v in Carried(job, i) && v in Written(map[], job.steps[k].writes)
    ensures Carried(job, i)[v] == Written(map[], job.steps[k].writes)[v]
    decreases i
  {
    WrittenLast(Carried(job, i - 1), job.steps[i - 1].writes, v);
    if k == i - 1 {
      WrittenSame(Carried(job, k), map[], job.steps[k].writes, v);
    } else {
      CarriedLast(job, i - 1, k, v);
    }
  }

  lemma {:induction false} WrittenSame(a: map<string, string>, b: map<string, string>, writes: seq<Write>, v: string)
    requires v in WriteNames(writes) || (v in a && v in b && a[v] == b[v])
    ensures v in Written(a, writes) && v in Written(b, writes) && Written(a, writes)[v] == Written(b, writes)[v]
    decreases writes
  {
    if writes != [] {
      assert writes == [writes[0]] + writes[1..];
      WrittenSame(a[writes[0].name := writes[0].value], b[writes[0].name := writes[0].value], writes[1..], v);
    }
  }

  /** Precedence: the step's own environment, then the last earlier write, then the job's. */
  lemma {:induction false} Precedence(job: Job, i: nat, expand: Expand, v: string)
    requires i < |job.steps| && v in Started(job, i, expand)
    ensures v in job.steps[i].env ==> Started(job, i, expand)[v] == expand(job.steps[i].env[v])
    ensures v !in job.steps[i].env && (forall l | 0 <= l < i :: v !in WriteNames(job.steps[l].writes)) ==>
              v in job.env && Started(job, i, expand)[v] == expand(job.env[v])
    ensures forall k | 0 <= k < i && v in WriteNames(job.steps[k].writes) && v !in job.steps[i].env &&
                       (forall l | k < l < i :: v !in WriteNames(job.steps[l].writes)) ::
              v in Written(map[], job.steps[k].writes) &&
              Started(job, i, expand)[v] == Written(map[], job.steps[k].writes)[v]
  {
    CarriedKeys(job, i);
    NotCarried(job, i, v);
    forall k | 0 <= k < i && v in WriteNames(job.steps[k].writes) && v !in job.steps[i].env &&
               (forall l | k < l < i :: v !in WriteNames(job.steps[l].writes))
      ensures v in Written(map[], job.steps[k].writes)
      ensures Started(job, i, expand)[v] == Written(map[], job.steps[k].writes)[v]
    { CarriedLast(job, i, k, v); }
  }

  lemma {:induction false} NotCarried(job: Job, i: nat, v: string)
    requires i <= |job.steps|
    ensures (forall l | 0 <= l < i :: v !in WriteNames(job.steps[l].writes)) ==> v !in Carried(job, i)
  {
    if i > 0 {
      NotCarried(job, i - 1, v);
      WrittenKeys(Carried(job, i - 1), job.steps[i - 1].writes);
    }
  }
}
