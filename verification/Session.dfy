/** The end of a session: a state derived afresh is set against the baseline bound when it started. */
module Session {
  import opened Common
  import opened Frozen
  import opened DockerState
  import opened DockerThaw
  import opened DockerValid
  import opened StateShape
  import opened GovernedCache
  import opened StateOrder

  // ---------------------------------------------------------------- Python's == on canonical forms

  function LooseAtom(a: Atom): Atom {
    match a
    case BoolAtom(b) => FloatAtom(if b then 1.0 else 0.0)
    case IntAtom(n) => FloatAtom(n as real)
    case _ => a
  }

  /** What `==` can see of a canonical form: `True`, `1` and `1.0` are the same to it. */
  function LooseCanon(c: Canon): Canon
    decreases c, 0
  {
    match c
    case CAtom(a) => CAtom(LooseAtom(a))
    case CTuple(es) => CTuple(LooseAll(es))
  }

  function LooseAll(cs: seq<Canon>): (r: seq<Canon>)
    ensures |r| == |cs|
    decreases cs, 1
  {
    if cs == [] then [] else [LooseCanon(cs[0])] + LooseAll(cs[1..])
  }

  predicate Equal(c: Canon, d: Canon) { LooseCanon(c) == LooseCanon(d) }

  /** The number that an atom stands for in a comparison. */
  ghost predicate StandsFor(a: Atom, r: real) {
    match a
    case BoolAtom(b) => r == if b then 1.0 else 0.0
    case IntAtom(n) => r == n as real
    case FloatAtom(x) => r == x
    case _ => false
  }

  /** Equality in Python: of tuples place by place, of numbers by value, whatever their kinds. */
  ghost predicate PyEqual(c: Canon, d: Canon)
    decreases c
  {
    match c
    case CAtom(a) => d.CAtom? && (a == d.a || exists r :: StandsFor(a, r) && StandsFor(d.a, r))
    case CTuple(es) => d.CTuple? && |es| == |d.elems| && forall i | 0 <= i < |es| :: PyEqual(es[i], d.elems[i])
  }

  lemma {:induction false} LooseAt(cs: seq<Canon>, i: nat)
    requires i < |cs|
    ensures LooseAll(cs)[i] == LooseCanon(cs[i])
  {
    if i > 0 { LooseAt(cs[1..], i - 1); }
  }

  lemma {:induction false} LooseAtoms(a: Atom, b: Atom)
    ensures LooseAtom(a) == LooseAtom(b) <==> a == b || exists r :: StandsFor(a, r) && StandsFor(b, r)
  {
    if LooseAtom(a) == LooseAtom(b) && a != b { assert StandsFor(a, LooseAtom(a).r) && StandsFor(b, LooseAtom(a).r); }
  }

  /** What `==` compares is what Python's equality compares. */
  lemma {:induction false} EqualExactly(c: Canon, d: Canon)
    ensures Equal(c, d) <==> PyEqual(c, d)
    decreases c
  {
    if c.CAtom? && d.CAtom? {
      LooseAtoms(c.a, d.a);
    } else if c.CTuple? && d.CTuple? && |c.elems| == |d.elems| {
      var xs, ys := LooseAll(c.elems), LooseAll(d.elems);
      forall i | 0 <= i < |xs| ensures xs[i] == ys[i] <==> PyEqual(c.elems[i], d.elems[i]) {
        LooseAt(c.elems, i);
        LooseAt(d.elems, i);
        EqualExactly(c.elems[i], d.elems[i]);
      }
      assert xs == ys <==> forall i | 0 <= i < |xs| :: xs[i] == ys[i];
    } else if c.CTuple? && d.CTuple? {
      assert |LooseAll(c.elems)| != |LooseAll(d.elems)|;
    }
  }

  /** The two forms have the same kind of number wherever both have one. */
  predicate SameKinds(c: Canon, d: Canon)
    decreases c, 0
  {
    match c
    case CAtom(a) => d.CAtom? ==> a.BoolAtom? == d.a.BoolAtom? && a.IntAtom? == d.a.IntAtom?
    case CTuple(es) => d.CTuple? ==> KindsAll(es, d.elems)
  }

  predicate KindsAll(cs: seq<Canon>, ds: seq<Canon>)
    decreases cs, 1
  {
    cs == [] || ds == [] || (SameKinds(cs[0], ds[0]) && KindsAll(cs[1..], ds[1..]))
  }

  /** `==` misses a difference only where the kinds of two numbers differ. */
  lemma {:induction false} EqualKinds(c: Canon, d: Canon)
    ensures c == d <==> Equal(c, d) && SameKinds(c, d)
    decreases c, 0
  {
    if c.CTuple? && d.CTuple? { EqualKindsAll(c.elems, d.elems); }
  }

  lemma {:induction false} EqualKindsAll(cs: seq<Canon>, ds: seq<Canon>)
    ensures cs == ds <==> LooseAll(cs) == LooseAll(ds) && KindsAll(cs, ds)
    decreases cs, 1
  {
    if cs != [] && ds != [] {
      EqualKinds(cs[0], ds[0]);
      EqualKindsAll(cs[1..], ds[1..]);
      assert cs == ds <==> cs[0] == ds[0] && cs[1..] == ds[1..] by { SplitEqual(cs, ds); }
      SplitEqual(LooseAll(cs), LooseAll(ds));
    }
  }

  lemma {:induction false} SplitEqual<T>(xs: seq<T>, ys: seq<T>)
    requires xs != [] && ys != []
    ensures xs == ys <==> xs[0] == ys[0] && xs[1..] == ys[1..]
  {
    assert xs == [xs[0]] + xs[1..] && ys == [ys[0]] + ys[1..];
  }

  // ---------------------------------------------------------------- compare_states

  predicate SectionEqual(b: Py, a: Py, section: string, h: Host)
    requires b.Dict? && a.Dict?
  {
    Equal(Canonical(At(b, section), h), Canonical(At(a, section), h))
  }

  /** The sections that compare unequal. */
  function Changes(b: Py, a: Py, sections: seq<string>, h: Host): seq<string>
    requires b.Dict? && a.Dict?
  {
    if sections == [] then []
    else (if SectionEqual(b, a, sections[0], h) then [] else [sections[0]]) + Changes(b, a, sections[1..], h)
  }

  /** Every section compares equal. */
  ghost predicate SectionsEqual(b: Py, a: Py, sections: seq<string>, h: Host)
    requires b.Dict? && a.Dict?
  {
    forall f | f in sections :: SectionEqual(b, a, f, h)
  }

  /** Exactly the sections that compare unequal are named. */
  lemma {:induction false} ChangesAre(b: Py, a: Py, sections: seq<string>, f: string, h: Host)
    requires b.Dict? && a.Dict?
    ensures f in Changes(b, a, sections, h) <==> f in sections && !SectionEqual(b, a, f, h)
  {
    if sections != [] { ChangesAre(b, a, sections[1..], f, h); }
  }

  lemma {:induction false} NoChanges(b: Py, a: Py, sections: seq<string>, h: Host)
    requires b.Dict? && a.Dict?
    ensures Changes(b, a, sections, h) == [] <==> SectionsEqual(b, a, sections, h)
  {
    var changes := Changes(b, a, sections, h);
    forall f ensures f in changes <==> f in sections && !SectionEqual(b, a, f, h) { ChangesAre(b, a, sections, f, h); }
    if changes != [] { assert changes[0] in changes; }
  }

  /** `compare_states`: the sections are only looked at when the digests differ. */
  function Compared(before: Py, after: Py, h: Host, sha: Sha): Out<seq<string>> {
    var b, a := Thaw(before, h), Thaw(after, h);
    var x :- StateDigest(b, h, sha);
    var y :- StateDigest(a, h, sha);
    if x == y then Fine([])
    else if !b.Dict? || !a.Dict? then Crash
    else Fine(Changes(b, a, STATE_TOP_FIELDS, h))
  }

  lemma {:induction false} ChangesStep(b: Py, a: Py, sections: seq<string>, i: nat, before: seq<string>, h: Host)
    requires b.Dict? && a.Dict? && i < |sections|
    ensures before + Changes(b, a, sections[i..], h) ==
            (if SectionEqual(b, a, sections[i], h) then before else before + [sections[i]]) + Changes(b, a, sections[i + 1..], h)
  {
    assert sections[i..][1..] == sections[i + 1..];
  }

  method ChangedSections(b: Py, a: Py, sections: seq<string>, h: Host) returns (problems: seq<string>)
    requires b.Dict? && a.Dict?
    ensures problems == Changes(b, a, sections, h)
  {
    problems := [];
    for i := 0 to |sections|
      invariant problems + Changes(b, a, sections[i..], h) == Changes(b, a, sections, h)
    {
      ChangesStep(b, a, sections, i, problems, h);
      if !SectionEqual(b, a, sections[i], h) { problems := problems + [sections[i]]; }
    }
  }

  /** The two states have the same digest. */
  predicate SameDigest(b: Py, a: Py, h: Host, sha: Sha) {
    StateDigest(b, h, sha).Fine? && StateDigest(b, h, sha) == StateDigest(a, h, sha)
  }

  /** Nothing is reported about equal digests; otherwise the sections that compare unequal, if both states are mappings. */
  method CompareStates(before: Py, after: Py, h: Host, sha: Sha) returns (r: Out<seq<string>>)
    ensures r == Compared(before, after, h, sha)
    ensures var b, a := Thaw(before, h), Thaw(after, h);
      r.Crash? <==>
        StateDigest(b, h, sha).Crash? || StateDigest(a, h, sha).Crash? || (!SameDigest(b, a, h, sha) && !(b.Dict? && a.Dict?))
    ensures var b, a := Thaw(before, h), Thaw(after, h);
      r.Fine? && !SameDigest(b, a, h, sha) ==>
        (b.Dict? && a.Dict? &&
         (r.value == [] <==> SectionsEqual(b, a, STATE_TOP_FIELDS, h)) &&
         (forall f :: f in r.value <==> f in STATE_TOP_FIELDS && !SectionEqual(b, a, f, h)))
    ensures r.Fine? && SameDigest(Thaw(before, h), Thaw(after, h), h, sha) ==> r.value == []
  {
    var b, a := Thaw(before, h), Thaw(after, h);
    var x, y := StateDigest(b, h, sha), StateDigest(a, h, sha);
    if x.Crash? || y.Crash? { return Crash; }
    if x == y { return Fine([]); }
    if !b.Dict? || !a.Dict? { return Crash; }
    var problems := ChangedSections(b, a, STATE_TOP_FIELDS, h);
    NoChanges(b, a, STATE_TOP_FIELDS, h);
    forall f { ChangesAre(b, a, STATE_TOP_FIELDS, f, h); }
    return Fine(problems);
  }

  // ---------------------------------------------------------------- reverify_state

  datatype SessionProblem = Underived | Invalid(problem: Problem) | Unbound | Changed(section: string)

  datatype Verdict = Verdict(clean: bool, problems: seq<SessionProblem>)

  /** The same comparison, as problems of the session. */
  method ChangedSince(before: Py, after: Py, h: Host, sha: Sha) returns (r: Out<seq<SessionProblem>>)
    ensures r.Crash? <==> Compared(before, after, h, sha).Crash?
    ensures r.Fine? ==> (r.value == [] <==> Compared(before, after, h, sha).value == [])
    ensures r.Fine? ==> forall p: SessionProblem :: p in r.value <==> p.Changed? && p.section in Compared(before, after, h, sha).value
  {
    var changed := CompareStates(before, after, h, sha);
    if changed.Crash? { return Crash; }
    r := Fine(seq(|changed.value|, i requires 0 <= i < |changed.value| => Changed(changed.value[i])));
    forall p: SessionProblem | p.Changed? && p.section in changed.value ensures p in r.value {
      var i :| 0 <= i < |changed.value| && changed.value[i] == p.section;
      assert r.value[i] == p;
    }
  }

  /** The problems of the fresh state, as problems of the session. */
  method InvalidFor(invalid: seq<Problem>) returns (r: seq<SessionProblem>)
    ensures (r == [] <==> invalid == []) && forall p: SessionProblem :: p in r <==> p.Invalid? && p.problem in invalid
  {
    r := seq(|invalid|, i requires 0 <= i < |invalid| => Invalid(invalid[i]));
    forall p: SessionProblem | p.Invalid? && p.problem in invalid ensures p in r {
      var i :| 0 <= i < |invalid| && invalid[i] == p.problem;
      assert r[i] == p;
    }
  }

  /**
   `bound` is the state the baseline carries, if it carries one, and `derived` the fresh derivation.
   No cache is among the inputs, so no cache can have a part in the answer.
   */
  method ReverifyState(bound: Option<Py>, derived: Out<Py>, h: Host, sha: Sha) returns (r: Out<Verdict>)
    ensures r.Fine? ==> (r.value.clean <==> r.value.problems == [])
    ensures r.Fine? ==> (r.value.clean <==>
              derived.Fine? && ValidState(derived.value, h, sha) && bound.Some? && Compared(bound.value, derived.value, h, sha) == Fine([]))
    ensures r.Fine? && r.value.clean ==> derived.Fine? && Described(derived.value, h, sha)
    ensures r.Crash? <==> derived.Fine? && (ValidateState(derived.value, h, sha).Crash? ||
                                             (bound.Some? && Compared(bound.value, derived.value, h, sha).Crash?))
    ensures r.Fine? && derived.Fine? ==>
              (forall p :: Invalid(p) in r.value.problems <==> p in ValidateState(derived.value, h, sha).value) &&
              (Unbound in r.value.problems <==> bound.None?) &&
              (forall f :: Changed(f) in r.value.problems <==> bound.Some? && f in Compared(bound.value, derived.value, h, sha).value)
  {
    if derived.Crash? { return Fine(Verdict(false, [Underived])); }
    var invalid := ValidateState(derived.value, h, sha);
    if invalid.Crash? { return Crash; }
    ValidExactly(derived.value, h, sha);
    var problems := InvalidFor(invalid.value);
    if bound.None? {
      problems := problems + [Unbound];
    } else {
      var changed := ChangedSince(bound.value, derived.value, h, sha);
      if changed.Crash? { return Crash; }
      problems := problems + changed.value;
    }
    return Fine(Verdict(problems == [], problems));
  }

  // ---------------------------------------------------------------- what a clean finish means

  lemma {:induction false} IdsDistinct(rs: seq<Py>)
    requires Records(rs) && Column(rs, "id").Fine? && Distinct(Column(rs, "id").value)
    ensures DistinctIds(rs)
  {
    var ids := Column(rs, "id").value;
    forall i, j | 0 <= i < j < |rs| ensures RecordId(rs[i]) != RecordId(rs[j]) {
      ColumnAt(rs, "id", i);
      ColumnAt(rs, "id", j);
      assert Record(rs[i]) && Record(rs[j]);
      assert ids[i] == Str(RecordId(rs[i])) && ids[j] == Str(RecordId(rs[j]));
      assert Loose(ids[i]) != Loose(ids[j]);
    }
  }

  lemma {:induction false} ValidDistinct(s: Py, h: Host, sha: Sha)
    requires ValidState(s, h, sha) && Ordinary(s)
    ensures DistinctIds(At(s, "per_site").elems)
  {
    ValidMeans(s, h, sha);
    IdsDistinct(At(s, "per_site").elems);
  }

  lemma {:induction false} OrdinaryDigest(s: Py, h: Host, sha: Sha)
    requires Ordinary(s) && Thaw(s, h) == s
    ensures StateDigest(s, h, sha) == Fine(sha(Canonical(SortedState(s), h)))
  {
    NormalForm(s, h);
  }

  /**
   Session finish is clean about a baseline and a fresh state exactly when they are the same but for the
   order of records and site ids, or when every section passes for equal under `==`.
   */
  lemma {:induction false} ComparedExactly(b: Py, a: Py, h: Host, sha: Sha)
    requires ValidState(b, h, sha) && Thaw(b, h) == b && Ordinary(b) && Raw(a) && Ordinary(Thaw(a, h))
    requires NoCollision(sha, Canonical(SortedState(b), h), Canonical(SortedState(Thaw(a, h)), h))
    ensures Compared(b, a, h, sha) == Fine([]) <==>
            SameUpToOrder(b, Thaw(a, h), h) || SectionsEqual(b, Thaw(a, h), STATE_TOP_FIELDS, h)
  {
    var a' := Thaw(a, h);
    ThawRaw(a, h);
    OrdinaryDigest(b, h, sha);
    OrdinaryDigest(a', h, sha);
    ValidDistinct(b, h, sha);
    StatesAgree(b, a', h);
    NoChanges(b, a', STATE_TOP_FIELDS, h);
  }

  /** What establishment binds is valid by itself and has the digest on record. */
  lemma {:induction false} EstablishedBaseline(b: Baseline, s: Py, contract: string, h: Host, sha: Sha)
    requires Raw(s) && PlainIds(s) && Bound(b, s, contract, h, sha)
    ensures ValidState(b.state, h, sha) && Raw(b.state) && Thaw(b.state, h) == b.state
    ensures StateDigest(b.state, h, sha) == Fine(b.stateDigest)
  {
    ThawValid(s, h, sha);
    ThawRaw(s, h);
    ThawDigest(s, h, sha);
  }

  /** A session in which nothing changed finishes clean. */
  lemma {:induction false} NothingChanged(b: Baseline, s: Py, contract: string, h: Host, sha: Sha)
    requires Raw(s) && Bound(b, s, contract, h, sha)
    ensures Compared(b.state, s, h, sha) == Fine([])
  {
    ThawRaw(s, h);
    ThawDigest(s, h, sha);
  }
}
