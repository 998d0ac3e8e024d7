module CanonicalSteps {
  // `canonical_steps`: the canonical form of a lifecycle graph, from which its identity is computed.
  // Serialising the form to bytes is not part of this model.

  import opened Sorting

  datatype Val =
    | NoneVal | StrVal(s: string) | IntVal(n: int) | BoolVal(b: bool)
    | ListVal(elems: seq<string>) | TupleVal(elems: seq<string>)

  datatype Field =
    | StepId | Sequence | Owner | Action | Resource | DependsOn | ReadBack | Evidence | TimeoutSeconds
    | RollbackOwner | IsMutation | RetiresPrincipalAfter | RequiresAssignment | ExpiryDependent
    | Commentary(name: string)                       // `note`, `actor_class`, or any other key

  type Step = map<Field, Val>

  const SEMANTIC_FIELDS := [
    StepId, Sequence, Owner, Action, Resource, DependsOn, ReadBack, Evidence, TimeoutSeconds,
    RollbackOwner, IsMutation, RetiresPrincipalAfter, RequiresAssignment, ExpiryDependent ]

  /** The results below hold for any list of semantic fields that includes the sequence number. */
  lemma {:induction false} SequenceIsSemantic()
    ensures Sequence in SEMANTIC_FIELDS && forall name :: Commentary(name) !in SEMANTIC_FIELDS
  {
    assert SEMANTIC_FIELDS[1] == Sequence;
  }

  const SORTED_LIST_FIELDS := [DependsOn]

  /** `step.get(field)`. */
  function Get(s: Step, field: Field): Val { if field in s then s[field] else NoneVal }

  /** The explicit order of the steps; every step is required to have an integral one. */
  predicate Sequenced(s: Step) { Get(s, Sequence).IntVal? }

  function Number(s: Step): int { if Sequenced(s) then Get(s, Sequence).n else 0 }

  predicate BySequence(s: Step, t: Step) { Number(s) <= Number(t) }

  predicate IsList(v: Val) { v.ListVal? || v.TupleVal? }

  function Normal(field: Field, v: Val): Val {
    if field in SORTED_LIST_FIELDS && IsList(v) then ListVal(Sort(v.elems, StringLe))
    else if v.TupleVal? then ListVal(v.elems) else v
  }

  function RowOver(s: Step, fields: seq<Field>, row: Step): Step
    decreases fields
  {
    if fields == [] then row else RowOver(s, fields[1..], row[fields[0] := Normal(fields[0], Get(s, fields[0]))])
  }

  function Row(s: Step, fields: seq<Field>): Step { RowOver(s, fields, map[]) }

  function CanonicalForm(steps: seq<Step>, fields: seq<Field>): seq<Step> {
    Map(Sort(steps, BySequence), s => Row(s, fields))
  }

  method Canonical(steps: seq<Step>, fields: seq<Field>) returns (out: seq<Step>)
    requires forall s | s in steps :: Sequenced(s)
    ensures out == CanonicalForm(steps, fields)
  {
    var ordered := Sort(steps, BySequence);
    out := [];
    for i := 0 to |ordered|
      invariant |out| == i && forall j | 0 <= j < i :: out[j] == Row(ordered[j], fields)
    {
      var step := ordered[i];
      var row: Step := map[];
      for f := 0 to |fields|
        invariant RowOver(step, fields[f..], row) == Row(step, fields)
      {
        var field := fields[f];
        assert fields[f..][0] == field && fields[f..][1..] == fields[f + 1..];
        var value := Get(step, field);
        if field in SORTED_LIST_FIELDS && IsList(value) {
          value := ListVal(Sort(value.elems, StringLe));
        } else if value.TupleVal? {
          value := ListVal(value.elems);
        }
        row := row[field := value];
      }
      out := out + [row];
    }
  }

  // ---------------------------------------------------------------- the same graph

  /** The values mean the same: dependencies in any order, other lists in order, tuples as lists. */
  ghost predicate FieldAgrees(field: Field, v: Val, w: Val) {
    if IsList(v) && IsList(w) then
      if field in SORTED_LIST_FIELDS then multiset(v.elems) == multiset(w.elems) else v.elems == w.elems
    else v == w
  }

  ghost predicate Agrees(fields: seq<Field>, s: Step, t: Step) {
    forall f | f in fields :: FieldAgrees(f, Get(s, f), Get(t, f))
  }

  lemma {:induction false} NormalAgrees(field: Field, v: Val, w: Val)
    ensures Normal(field, v) == Normal(field, w) <==> FieldAgrees(field, v, w)
  {
    if IsList(v) && IsList(w) && field in SORTED_LIST_FIELDS {
      StringLeOrder();
      if multiset(v.elems) == multiset(w.elems) {
        SortPermutation(v.elems, w.elems, StringLe);
      } else {
        assert multiset(Sort(v.elems, StringLe)) == multiset(v.elems);
        assert multiset(Sort(w.elems, StringLe)) == multiset(w.elems);
      }
    }
  }

  lemma {:induction false} RowOverFields(s: Step, fields: seq<Field>, row: Step)
    ensures RowOver(s, fields, row).Keys == row.Keys + set f | f in fields
    ensures forall f | f in fields :: RowOver(s, fields, row)[f] == Normal(f, Get(s, f))
    ensures forall f | f in row && f !in fields :: RowOver(s, fields, row)[f] == row[f]
    decreases fields
  {
    if fields != [] {
      var next := row[fields[0] := Normal(fields[0], Get(s, fields[0]))];
      RowOverFields(s, fields[1..], next);
      assert fields == [fields[0]] + fields[1..];
    }
  }

  /** Two steps have the same row exactly when all their semantic fields mean the same. */
  lemma {:induction false} RowAgrees(fields: seq<Field>, s: Step, t: Step)
    ensures Row(s, fields) == Row(t, fields) <==> Agrees(fields, s, t)
  {
    RowOverFields(s, fields, map[]);
    RowOverFields(t, fields, map[]);
    forall f | f in fields { NormalAgrees(f, Get(s, f), Get(t, f)); }
    if Agrees(fields, s, t) {
      forall f | f in fields ensures Row(s, fields)[f] == Row(t, fields)[f] {}
      assert Row(s, fields).Keys == Row(t, fields).Keys;
    } else {
      var f :| f in fields && !FieldAgrees(f, Get(s, f), Get(t, f));
      assert Row(s, fields)[f] != Row(t, fields)[f];
    }
  }

  /** The rows keep the order of the steps. */
  lemma {:induction false} RowNumber(fields: seq<Field>, s: Step)
    requires Sequenced(s) && Sequence in fields
    ensures Sequenced(Row(s, fields)) && Number(Row(s, fields)) == Number(s)
  {
    RowOverFields(s, fields, map[]);
  }

  ghost predicate UniqueSequences(steps: seq<Step>) {
    && (forall s | s in steps :: Sequenced(s))
    && forall i, j | 0 <= i < j < |steps| :: Number(steps[i]) != Number(steps[j])
  }

  function Rows(steps: seq<Step>, fields: seq<Field>): seq<Step> { Map(steps, s => Row(s, fields)) }

  lemma {:induction false} FormSortsRows(steps: seq<Step>, fields: seq<Field>)
    requires Sequence in fields && forall s | s in steps :: Sequenced(s)
    ensures CanonicalForm(steps, fields) == Sort(Rows(steps, fields), BySequence)
  {
    forall s | s in steps { RowNumber(fields, s); }
    SortMap(steps, s => Row(s, fields), BySequence, BySequence);
  }

  /** Only a row is level with itself. */
  lemma {:induction false} RowsStrict(steps: seq<Step>, fields: seq<Field>)
    requires Sequence in fields && UniqueSequences(steps)
    ensures Strict(Rows(steps, fields), BySequence)
  {
    var rows := Rows(steps, fields);
    forall a, b | a in rows && b in rows && BySequence(a, b) && BySequence(b, a) ensures a == b {
      var i :| 0 <= i < |rows| && rows[i] == a;
      var j :| 0 <= j < |rows| && rows[j] == b;
      RowNumber(fields, steps[i]);
      RowNumber(fields, steps[j]);
      assert Number(steps[i]) == Number(steps[j]);
    }
  }

  /** The canonical form is determined by, and determines, the steps' rows in any order. */
  lemma {:induction false} FormIsBagOfRows(xs: seq<Step>, ys: seq<Step>, fields: seq<Field>)
    requires Sequence in fields && UniqueSequences(xs) && UniqueSequences(ys)
    ensures CanonicalForm(xs, fields) == CanonicalForm(ys, fields) <==> multiset(Rows(xs, fields)) == multiset(Rows(ys, fields))
  {
    FormSortsRows(xs, fields);
    FormSortsRows(ys, fields);
    if multiset(Rows(xs, fields)) == multiset(Rows(ys, fields)) {
      RowsStrict(xs, fields);
      SortPermutation(Rows(xs, fields), Rows(ys, fields), BySequence);
    } else {
      assert multiset(CanonicalForm(xs, fields)) == multiset(Rows(xs, fields));
      assert multiset(CanonicalForm(ys, fields)) == multiset(Rows(ys, fields));
    }
  }

  /** Reordering the steps, and replacing each by one that means the same, leaves the form unchanged. */
  lemma {:induction false} SameGraphSameForm(xs: seq<Step>, mid: seq<Step>, ys: seq<Step>, fields: seq<Field>)
    requires Sequence in fields && UniqueSequences(xs) && UniqueSequences(ys) && multiset(xs) == multiset(mid)
    requires |mid| == |ys| && forall i | 0 <= i < |mid| :: Agrees(fields, mid[i], ys[i])
    ensures CanonicalForm(xs, fields) == CanonicalForm(ys, fields)
  {
    forall i | 0 <= i < |mid| ensures Rows(mid, fields)[i] == Rows(ys, fields)[i] { RowAgrees(fields, mid[i], ys[i]); }
    assert Rows(mid, fields) == Rows(ys, fields);
    MapBag(xs, mid, s => Row(s, fields));
    FormIsBagOfRows(xs, ys, fields);
  }

  /** Equal forms come from the same graph: each step has a counterpart with its number and meaning. */
  lemma {:induction false} SameFormSameGraph(xs: seq<Step>, ys: seq<Step>, i: nat, fields: seq<Field>) returns (j: nat)
    requires Sequence in fields && UniqueSequences(xs) && UniqueSequences(ys) && i < |xs|
    requires CanonicalForm(xs, fields) == CanonicalForm(ys, fields)
    ensures |xs| == |ys| && j < |ys| && Number(ys[j]) == Number(xs[i]) && Agrees(fields, xs[i], ys[j])
  {
    FormIsBagOfRows(xs, ys, fields);
    assert |Rows(xs, fields)| == |multiset(Rows(xs, fields))| == |multiset(Rows(ys, fields))| == |Rows(ys, fields)|;
    assert Rows(xs, fields)[i] in multiset(Rows(ys, fields));
    j :| 0 <= j < |Rows(ys, fields)| && Rows(ys, fields)[j] == Rows(xs, fields)[i];
    RowAgrees(fields, xs[i], ys[j]);
    RowNumber(fields, xs[i]);
    RowNumber(fields, ys[j]);
  }

  /** Fields outside the list, such as `note`, do not take part. */
  lemma {:induction false} CommentaryIgnored(fields: seq<Field>, s: Step, field: Field, v: Val)
    requires field !in fields
    ensures Agrees(fields, s, s[field := v])
  {
  }

  // ---------------------------------------------------------------- what is semantic

  /** The semantic fields are the fourteen that are not commentary. */
  lemma {:induction false} SemanticExactly(f: Field)
    ensures f in SEMANTIC_FIELDS <==> !f.Commentary?
  {
    var all := SEMANTIC_FIELDS;
    if !f.Commentary? {
      assert f == all[0] || f == all[1] || f == all[2] || f == all[3] || f == all[4] || f == all[5] || f == all[6] ||
             f == all[7] || f == all[8] || f == all[9] || f == all[10] || f == all[11] || f == all[12] || f == all[13];
    }
  }

  /** The values are the same, or lists of the same elements: in any order for what a step depends on, in order otherwise. */
  ghost predicate SameValue(f: Field, v: Val, w: Val) {
    v == w || (IsList(v) && IsList(w) && (v.elems == w.elems || (f == DependsOn && multiset(v.elems) == multiset(w.elems))))
  }

  /** The steps differ in commentary at most. */
  ghost predicate SameStep(s: Step, t: Step) { forall f: Field | !f.Commentary? :: SameValue(f, Get(s, f), Get(t, f)) }

  lemma {:induction false} AgreesExactly(s: Step, t: Step)
    ensures Agrees(SEMANTIC_FIELDS, s, t) <==> SameStep(s, t)
  {
    forall f: Field ensures f in SEMANTIC_FIELDS <==> !f.Commentary? { SemanticExactly(f); }
    assert forall f, v, w :: FieldAgrees(f, v, w) <==> SameValue(f, v, w);
  }

  ghost predicate Different<T>(xs: seq<T>) { forall i, j | 0 <= i < j < |xs| :: xs[i] != xs[j] }

  lemma {:induction false} SameBag<T>(xs: seq<T>, ys: seq<T>)
    requires Different(xs) && |xs| == |ys| && forall x | x in xs :: x in ys
    ensures multiset(xs) == multiset(ys)
  {
    if xs != [] {
      assert xs[0] in xs;
      var i :| 0 <= i < |ys| && ys[i] == xs[0];
      var rest := ys[..i] + ys[i + 1..];
      assert ys == ys[..i] + [ys[i]] + ys[i + 1..] && xs == [xs[0]] + xs[1..];
      forall x | x in xs[1..] ensures x in rest {
        assert x in xs && x in ys && x != xs[0];
      }
      SameBag(xs[1..], rest);
    }
  }

  ghost predicate Counterparts(xs: seq<Step>, ys: seq<Step>) {
    |xs| == |ys| && forall i | 0 <= i < |xs| :: HasCounterpart(xs[i], ys)
  }

  ghost predicate HasCounterpart(s: Step, ys: seq<Step>) { exists j | 0 <= j < |ys| :: SameStep(s, ys[j]) }

  lemma {:induction false} RowsDifferent(xs: seq<Step>, fields: seq<Field>)
    requires UniqueSequences(xs) && Sequence in fields
    ensures Different(Rows(xs, fields))
  {
    forall i, j | 0 <= i < j < |xs| ensures Rows(xs, fields)[i] != Rows(xs, fields)[j] {
      RowNumber(fields, xs[i]);
      RowNumber(fields, xs[j]);
    }
  }

  lemma {:induction false} CounterpartRow(s: Step, ys: seq<Step>)
    requires HasCounterpart(s, ys)
    ensures Row(s, SEMANTIC_FIELDS) in Rows(ys, SEMANTIC_FIELDS)
  {
    var j :| 0 <= j < |ys| && SameStep(s, ys[j]);
    AgreesExactly(s, ys[j]);
    RowAgrees(SEMANTIC_FIELDS, s, ys[j]);
    assert Rows(ys, SEMANTIC_FIELDS)[j] == Row(ys[j], SEMANTIC_FIELDS);
  }

  /** Two graphs have the same form exactly if they have the same steps, in any order and up to commentary. */
  lemma {:induction false} GraphExactly(xs: seq<Step>, ys: seq<Step>)
    requires UniqueSequences(xs) && UniqueSequences(ys)
    ensures CanonicalForm(xs, SEMANTIC_FIELDS) == CanonicalForm(ys, SEMANTIC_FIELDS) <==> Counterparts(xs, ys)
  {
    SequenceIsSemantic();
    if CanonicalForm(xs, SEMANTIC_FIELDS) == CanonicalForm(ys, SEMANTIC_FIELDS) {
      SameSize(xs, ys, SEMANTIC_FIELDS);
      forall i | 0 <= i < |xs| ensures HasCounterpart(xs[i], ys) {
        var j := SameFormSameGraph(xs, ys, i, SEMANTIC_FIELDS);
        AgreesExactly(xs[i], ys[j]);
      }
    }
    if Counterparts(xs, ys) {
      RowsDifferent(xs, SEMANTIC_FIELDS);
      forall i | 0 <= i < |xs| ensures Rows(xs, SEMANTIC_FIELDS)[i] in Rows(ys, SEMANTIC_FIELDS) { CounterpartRow(xs[i], ys); }
      SameBag(Rows(xs, SEMANTIC_FIELDS), Rows(ys, SEMANTIC_FIELDS));
      FormIsBagOfRows(xs, ys, SEMANTIC_FIELDS);
    }
  }

  lemma {:induction false} SameSize(xs: seq<Step>, ys: seq<Step>, fields: seq<Field>)
    requires CanonicalForm(xs, fields) == CanonicalForm(ys, fields)
    ensures |xs| == |ys|
  {
    assert |Sort(xs, BySequence)| == |multiset(Sort(xs, BySequence))| == |multiset(xs)|;
    assert |Sort(ys, BySequence)| == |multiset(Sort(ys, BySequence))| == |multiset(ys)|;
  }

  /** Changing a semantic field of one step, beyond the order of what it depends on, changes the form. */
  lemma {:induction false} ChangeShows(xs: seq<Step>, i: nat, f: Field, v: Val)
    requires i < |xs| && UniqueSequences(xs) && UniqueSequences(xs[i := xs[i][f := v]])
    requires !f.Commentary? && !SameValue(f, Get(xs[i], f), v)
    ensures CanonicalForm(xs, SEMANTIC_FIELDS) != CanonicalForm(xs[i := xs[i][f := v]], SEMANTIC_FIELDS)
  {
    var ys := xs[i := xs[i][f := v]];
    forall j | 0 <= j < |ys| ensures !SameStep(xs[i], ys[j]) {
      if j == i {
        assert Get(ys[j], f) == v;
      } else {
        assert ys[j] == xs[j] && Number(xs[i]) != Number(xs[j]);
        assert !SameValue(Sequence, Get(xs[i], Sequence), Get(xs[j], Sequence));
      }
    }
    assert !HasCounterpart(xs[i], ys);
    GraphExactly(xs, ys);
  }

  /** The graph identity is computed from this form. */
  method CanonicalGraph(steps: seq<Step>) returns (out: seq<Step>)
    requires forall s | s in steps :: Sequenced(s)
    ensures out == CanonicalForm(steps, SEMANTIC_FIELDS)
  {
    out := Canonical(steps, SEMANTIC_FIELDS);
  }
}
