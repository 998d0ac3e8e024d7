/**
 Final-defender exhaustion: defenders are removed one at a time until the decision flips.

 A statement is named by its Sid, or by its position when it has none, so a name taken earlier can
 go stale as statements are removed, and several statements can share one. The loop is proved to
 terminate all the same, and what it reports is tied to replaying the removals it lists.
 */
module DenyExhaustion {
  datatype Statement = Statement(sid: string, deny: bool, key: nat)

  /** How one statement answers a request: it applies, it does not, or it cannot be evaluated. */
  datatype Match = Applies | Skips | Fails

  type Doc = seq<Statement>

  datatype Policy = Policy(name: string, doc: Doc)

  /** The evaluator's judgement of each statement, for one action, resource and context. */
  type Judge = (string, Statement) -> Match

  datatype Defender = Defender(policy: string, sid: string)

  function Decimal(n: nat): (r: string)
    ensures |r| > 0 && (|r| == 1 <==> n < 10)
  {
    if n < 10 then [('0' as int + n) as char] else Decimal(n / 10) + [('0' as int + n % 10) as char]
  }

  /** The name of the statement at position `i`. */
  function Name(s: Statement, i: nat): string {
    if s.sid != "" then s.sid else "<statement " + Decimal(i) + ">"
  }

  // ---------------------------------------------------------------- the evaluator

  /** One statement that cannot be evaluated makes the whole policy undecided. */
  predicate Evaluable(p: Policy, judge: Judge) {
    forall s | s in p.doc :: judge(p.name, s) != Fails
  }

  predicate Denies(p: Policy, s: Statement, judge: Judge) { s.deny && judge(p.name, s) == Applies }

  function DenySids(p: Policy, i: nat, judge: Judge): seq<string>
    requires i <= |p.doc|
    decreases |p.doc| - i
  {
    if i == |p.doc| then []
    else (if Denies(p, p.doc[i], judge) then [Name(p.doc[i], i)] else []) + DenySids(p, i + 1, judge)
  }

  predicate ExplicitDeny(p: Policy, judge: Judge) { Evaluable(p, judge) && exists s | s in p.doc :: Denies(p, s, judge) }

  // ---------------------------------------------------------------- removing a statement

  /** The statements from position `i` on that do not go by the name `sid`. */
  function StripFrom(doc: Doc, i: nat, sid: string): Doc
    requires i <= |doc|
    decreases |doc| - i
  {
    if i == |doc| then []
    else (if Name(doc[i], i) != sid then [doc[i]] else []) + StripFrom(doc, i + 1, sid)
  }

  function Strip(doc: Doc, sid: string): Doc { StripFrom(doc, 0, sid) }

  function Remove(ps: seq<Policy>, d: Defender): seq<Policy> {
    if ps == [] then []
    else [if ps[0].name == d.policy then Policy(ps[0].name, Strip(ps[0].doc, d.sid)) else ps[0]] + Remove(ps[1..], d)
  }

  function Defenders(ps: seq<Policy>, judge: Judge): seq<Defender> {
    if ps == [] then []
    else
      (if ExplicitDeny(ps[0], judge) then Tag(ps[0].name, DenySids(ps[0], 0, judge)) else []) + Defenders(ps[1..], judge)
  }

  function Tag(name: string, sids: seq<string>): seq<Defender> {
    if sids == [] then [] else [Defender(name, sids[0])] + Tag(name, sids[1..])
  }

  // ---------------------------------------------------------------- sizes

  function Total(ps: seq<Policy>): nat { if ps == [] then 0 else |ps[0].doc| + Total(ps[1..]) }

  lemma {:induction false} StripSize(doc: Doc, i: nat, sid: string)
    requires i <= |doc|
    ensures |StripFrom(doc, i, sid)| <= |doc| - i
    ensures |StripFrom(doc, i, sid)| == |doc| - i <==> StripFrom(doc, i, sid) == doc[i..]
    ensures |StripFrom(doc, i, sid)| == |doc| - i <==> forall j | i <= j < |doc| :: Name(doc[j], j) != sid
    decreases |doc| - i
  {
    if i < |doc| {
      StripSize(doc, i + 1, sid);
      assert doc[i..] == [doc[i]] + doc[i + 1..];
    }
  }

  /** A statement that goes by another name is kept. */
  lemma {:induction false} StripKeeps(doc: Doc, i: nat, sid: string, j: nat)
    requires i <= j < |doc| && Name(doc[j], j) != sid
    ensures doc[j] in StripFrom(doc, i, sid)
    decreases |doc| - i
  {
    if i < j { StripKeeps(doc, i + 1, sid, j); }
  }

  /** Every statement that is kept goes by another name. */
  lemma {:induction false} StripRemoves(doc: Doc, i: nat, sid: string, t: Statement) returns (j: nat)
    requires i <= |doc| && t in StripFrom(doc, i, sid)
    ensures i <= j < |doc| && doc[j] == t && Name(doc[j], j) != sid
    decreases |doc| - i
  {
    if Name(doc[i], i) != sid && doc[i] == t { j := i; } else { j := StripRemoves(doc, i + 1, sid, t); }
  }

  lemma {:induction false} DecimalInjective(m: nat, n: nat)
    requires Decimal(m) == Decimal(n)
    ensures m == n
    decreases m
  {
    var a, b := Decimal(m), Decimal(n);
    assert Decimal(m % 10) == [('0' as int + m % 10) as char] && a[|a| - 1] == ('0' as int + m % 10) as char;
    assert b[|b| - 1] == ('0' as int + n % 10) as char;
    if m >= 10 && n >= 10 {
      assert a[..|a| - 1] == Decimal(m / 10) && b[..|b| - 1] == Decimal(n / 10);
      DecimalInjective(m / 10, n / 10);
    }
  }

  /** The name of a nameless statement says where it stands. */
  lemma {:induction false} PositionNamesDistinct(s: Statement, i: nat, t: Statement, j: nat)
    requires s.sid == "" && t.sid == "" && Name(s, i) == Name(t, j)
    ensures i == j
  {
    var n := |"<statement "|;
    assert Name(s, i)[n..|Name(s, i)| - 1] == Decimal(i);
    assert Name(t, j)[n..|Name(t, j)| - 1] == Decimal(j);
    DecimalInjective(i, j);
  }

  /** Removing a name either shortens some policy or changes nothing. */
  lemma {:induction false} RemoveSize(ps: seq<Policy>, d: Defender)
    ensures Total(Remove(ps, d)) <= Total(ps)
    ensures Total(Remove(ps, d)) == Total(ps) ==> Remove(ps, d) == ps
    ensures Total(Remove(ps, d)) == Total(ps) ==>
              forall p | p in ps && p.name == d.policy :: forall j | 0 <= j < |p.doc| :: Name(p.doc[j], j) != d.sid
  {
    if ps != [] {
      RemoveSize(ps[1..], d);
      StripSize(ps[0].doc, 0, d.sid);
      assert ps == [ps[0]] + ps[1..];
    }
  }

  lemma {:induction false} DenySidsHave(p: Policy, i: nat, judge: Judge, j: nat)
    requires i <= j < |p.doc| && Denies(p, p.doc[j], judge)
    ensures Name(p.doc[j], j) in DenySids(p, i, judge)
    decreases |p.doc| - i
  {
    if i < j { DenySidsHave(p, i + 1, judge, j); }
  }

  lemma {:induction false} DenySidsFrom(p: Policy, i: nat, judge: Judge, sid: string) returns (j: nat)
    requires i <= |p.doc| && sid in DenySids(p, i, judge)
    ensures i <= j < |p.doc| && Denies(p, p.doc[j], judge) && Name(p.doc[j], j) == sid
    decreases |p.doc| - i
  {
    if Denies(p, p.doc[i], judge) && Name(p.doc[i], i) == sid { j := i; } else { j := DenySidsFrom(p, i + 1, judge, sid); }
  }

  /** The names are those of the applicable Deny statements, each of them once and in order. */
  ghost predicate NamesAt(p: Policy, judge: Judge, from: nat, sids: seq<string>, places: seq<nat>) {
    && |sids| == |places| && (forall i, j | 0 <= i < j < |places| :: places[i] < places[j])
    && (forall k :: k in places <==> from <= k < |p.doc| && Denies(p, p.doc[k], judge))
    && forall k | 0 <= k < |sids| :: places[k] < |p.doc| && sids[k] == Name(p.doc[places[k]], places[k])
  }

  lemma {:induction false} DenySidsExactly(p: Policy, from: nat, judge: Judge) returns (places: seq<nat>)
    requires from <= |p.doc|
    ensures NamesAt(p, judge, from, DenySids(p, from, judge), places)
    decreases |p.doc| - from
  {
    if from == |p.doc| {
      places := [];
    } else {
      var rest := DenySidsExactly(p, from + 1, judge);
      NamesAtCons(p, judge, from, DenySids(p, from + 1, judge), rest);
      places := if Denies(p, p.doc[from], judge) then [from] + rest else rest;
    }
  }

  lemma {:induction false} NamesAtCons(p: Policy, judge: Judge, from: nat, sids: seq<string>, places: seq<nat>)
    requires from < |p.doc| && NamesAt(p, judge, from + 1, sids, places)
    ensures if Denies(p, p.doc[from], judge) then NamesAt(p, judge, from, [Name(p.doc[from], from)] + sids, [from] + places)
            else NamesAt(p, judge, from, sids, places)
  {
    assert forall k | 0 <= k < |places| :: places[k] in places;
    if Denies(p, p.doc[from], judge) {
      var all := [from] + places;
      forall k ensures k in all <==> from <= k < |p.doc| && Denies(p, p.doc[k], judge) { }
    }
  }

  /** An applicable Deny statement of the policy goes by this name. */
  ghost predicate DeniesAs(p: Policy, sid: string, judge: Judge) {
    exists j :: 0 <= j < |p.doc| && Denies(p, p.doc[j], judge) && Name(p.doc[j], j) == sid
  }

  lemma {:induction false} DenySidsIn(p: Policy, judge: Judge, sid: string)
    ensures sid in DenySids(p, 0, judge) <==> DeniesAs(p, sid, judge)
  {
    if sid in DenySids(p, 0, judge) {
      var j := DenySidsFrom(p, 0, judge, sid);
    } else if DeniesAs(p, sid, judge) {
      var j :| 0 <= j < |p.doc| && Denies(p, p.doc[j], judge) && Name(p.doc[j], j) == sid;
      DenySidsHave(p, 0, judge, j);
    }
  }

  lemma {:induction false} TagIn(name: string, sids: seq<string>, d: Defender)
    ensures d in Tag(name, sids) <==> d.policy == name && d.sid in sids
  {
    if sids != [] { TagIn(name, sids[1..], d); }
  }

  lemma {:induction false} DeniesAsDenies(p: Policy, sid: string, judge: Judge)
    ensures DeniesAs(p, sid, judge) ==> exists s | s in p.doc :: Denies(p, s, judge)
  {
  }

  /** The defenders are the applicable Deny statements of the policies that can be evaluated, by name. */
  lemma {:induction false} DefendersIn(ps: seq<Policy>, judge: Judge, d: Defender)
    ensures d in Defenders(ps, judge) <==>
            exists p | p in ps :: p.name == d.policy && Evaluable(p, judge) && DeniesAs(p, d.sid, judge)
  {
    if ps != [] {
      var p := ps[0];
      DefendersIn(ps[1..], judge, d);
      TagIn(p.name, DenySids(p, 0, judge), d);
      DenySidsIn(p, judge, d.sid);
      DeniesAsDenies(p, d.sid, judge);
      assert forall q | q in ps :: q == p || q in ps[1..];
    }
  }

  /** A capability has a defender exactly when some policy explicitly denies it. */
  lemma {:induction false} DefendedIff(ps: seq<Policy>, judge: Judge)
    ensures Defenders(ps, judge) != [] <==> exists p | p in ps :: ExplicitDeny(p, judge)
  {
    if Defenders(ps, judge) != [] {
      var d := Defenders(ps, judge)[0];
      DefendersIn(ps, judge, d);
      forall p | p in ps { DeniesAsDenies(p, d.sid, judge); }
    }
    if exists p | p in ps :: ExplicitDeny(p, judge) {
      var p :| p in ps && ExplicitDeny(p, judge);
      var s :| s in p.doc && Denies(p, s, judge);
      var j :| 0 <= j < |p.doc| && p.doc[j] == s;
      assert DeniesAs(p, Name(s, j), judge);
      DefendersIn(ps, judge, Defender(p.name, Name(s, j)));
    }
  }

  // ---------------------------------------------------------------- exhaust

  datatype Removal = Removal(removed: Defender, left: nat, stillDenied: bool)

  datatype Verdict = UNDEFENDED | EXHAUSTIBLE_AND_DECISIVE | NOT_DECISIVE

  datatype Report = Report(initial: nat, sequence: seq<Removal>, flipped: bool, verdict: Verdict)

  /** The policies after the listed removals. */
  function Replay(ps: seq<Policy>, removals: seq<Removal>): seq<Policy>
    decreases |removals|
  {
    if removals == [] then ps
    else Remove(Replay(ps, removals[..|removals| - 1]), removals[|removals| - 1].removed)
  }

  /** Entry `k` records how many defenders were left at that point. */
  ghost predicate RecordedAt(ps: seq<Policy>, removals: seq<Removal>, k: nat, judge: Judge)
    requires k < |removals|
  {
    && removals[k].left == |Defenders(Replay(ps, removals[..k + 1]), judge)|
    && (removals[k].stillDenied <==> removals[k].left > 0)
  }

  ghost predicate Recorded(ps: seq<Policy>, removals: seq<Removal>, judge: Judge) {
    forall k | 0 <= k < |removals| :: RecordedAt(ps, removals, k, judge)
  }

  ghost predicate AllLeft(removals: seq<Removal>) { forall k | 0 <= k < |removals| :: removals[k].left > 0 }

  ghost predicate AllBut(removals: seq<Removal>) {
    forall k | 0 <= k < |removals| - 1 :: removals[k].left > 0
  }

  /** `d` was a defender at some point of the replayed removals. */
  ghost predicate Exposed(ps: seq<Policy>, removals: seq<Removal>, d: Defender, judge: Judge) {
    exists j | 0 <= j <= |removals| :: d in Defenders(Replay(ps, removals[..j]), judge)
  }

  /** Nothing is removed that had not shown up as a defender by then. */
  ghost predicate OnlyDefenders(ps: seq<Policy>, removals: seq<Removal>, judge: Judge) {
    forall k | 0 <= k < |removals| :: Exposed(ps, removals[..k], removals[k].removed, judge)
  }

  lemma {:induction false} ExposedLater(ps: seq<Policy>, removals: seq<Removal>, entry: Removal, d: Defender, judge: Judge)
    requires Exposed(ps, removals, d, judge) || d in Defenders(Replay(ps, removals + [entry]), judge)
    ensures Exposed(ps, removals + [entry], d, judge)
  {
    var all := removals + [entry];
    if Exposed(ps, removals, d, judge) {
      var j :| 0 <= j <= |removals| && d in Defenders(Replay(ps, removals[..j]), judge);
      assert all[..j] == removals[..j];
    } else {
      assert all[..|all|] == all;
    }
  }

  ghost predicate AllExposed(ps: seq<Policy>, removals: seq<Removal>, ds: seq<Defender>, judge: Judge) {
    forall d | d in ds :: Exposed(ps, removals, d, judge)
  }

  lemma {:induction false} InitiallyExposed(ps: seq<Policy>, ds: seq<Defender>, judge: Judge)
    requires forall d | d in ds :: d in Defenders(ps, judge)
    ensures Progress(ps, [], ds, judge)
  {
    var none: seq<Removal> := [];
    assert none[..0] == none;
  }

  lemma {:induction false} ExposedStep(ps: seq<Policy>, removals: seq<Removal>, entry: Removal, rest: seq<Defender>, ds: seq<Defender>, judge: Judge)
    requires AllExposed(ps, removals, rest, judge)
    requires forall d | d in ds :: d in rest || d in Defenders(Replay(ps, removals + [entry]), judge)
    ensures AllExposed(ps, removals + [entry], ds, judge)
  {
    forall d | d in ds ensures Exposed(ps, removals + [entry], d, judge) { ExposedLater(ps, removals, entry, d, judge); }
  }

  lemma {:induction false} OnlyDefendersStep(ps: seq<Policy>, removals: seq<Removal>, entry: Removal, judge: Judge)
    requires OnlyDefenders(ps, removals, judge) && Exposed(ps, removals, entry.removed, judge)
    ensures OnlyDefenders(ps, removals + [entry], judge)
  {
    var all := removals + [entry];
    forall k | 0 <= k < |all| ensures Exposed(ps, all[..k], all[k].removed, judge) {
      if k < |removals| {
        assert all[..k] == removals[..k] && all[k] == removals[k];
        assert Exposed(ps, removals[..k], removals[k].removed, judge);
      } else {
        assert all[..k] == removals;
      }
    }
  }

  lemma {:induction false} RecordedStep(ps: seq<Policy>, removals: seq<Removal>, entry: Removal, judge: Judge)
    requires Recorded(ps, removals, judge)
    requires entry.left == |Defenders(Remove(Replay(ps, removals), entry.removed), judge)|
    requires entry.stillDenied <==> entry.left > 0
    ensures Recorded(ps, removals + [entry], judge)
    ensures Replay(ps, removals + [entry]) == Remove(Replay(ps, removals), entry.removed)
  {
    var all := removals + [entry];
    assert all[..|removals|] == removals && all[..|all|] == all;
    forall k | 0 <= k < |all| ensures RecordedAt(ps, all, k, judge) {
      if k < |removals| {
        assert RecordedAt(ps, removals, k, judge) && all[..k + 1] == removals[..k + 1];
      } else {
        assert all[..k + 1] == all;
      }
    }
  }

  /** The removals so far are on record, and those still to come have been seen as defenders. */
  ghost predicate Progress(ps: seq<Policy>, removals: seq<Removal>, remaining: seq<Defender>, judge: Judge) {
    Recorded(ps, removals, judge) && OnlyDefenders(ps, removals, judge) && AllExposed(ps, removals, remaining, judge)
  }

  lemma {:induction false} ProgressStep(ps: seq<Policy>, removals: seq<Removal>, before: seq<Defender>, entry: Removal, after: seq<Defender>, judge: Judge)
    requires Progress(ps, removals, before, judge) && entry.removed in before
    requires entry.left == |Defenders(Remove(Replay(ps, removals), entry.removed), judge)| && (entry.stillDenied <==> entry.left > 0)
    requires forall d | d in after :: d in before || d in Defenders(Remove(Replay(ps, removals), entry.removed), judge)
    ensures Progress(ps, removals + [entry], after, judge)
    ensures Replay(ps, removals + [entry]) == Remove(Replay(ps, removals), entry.removed)
  {
    RecordedStep(ps, removals, entry, judge);
    OnlyDefendersStep(ps, removals, entry, judge);
    ExposedStep(ps, removals, entry, before, after, judge);
  }

  /** The defenders found at the start are removed first, in the order in which they were found. */
  ghost predicate InTurn(removals: seq<Removal>, initial: seq<Defender>) {
    forall k | 0 <= k < |removals| && k < |initial| :: removals[k].removed == initial[k]
  }

  /** So far they were, and the rest of them is at the head of the list. */
  ghost predicate Queued(removals: seq<Removal>, initial: seq<Defender>, remaining: seq<Defender>) {
    InTurn(removals, initial) && (|removals| <= |initial| ==> initial[|removals|..] <= remaining)
  }

  ghost predicate Listed(ds: seq<Defender>, remaining: seq<Defender>) { forall d | d in ds :: d in remaining }

  /** One turn of the loop. If the name was stale, nothing changes but the list, which gets shorter. */
  method RemoveNext(working: seq<Policy>, remaining: seq<Defender>, judge: Judge)
    returns (next: seq<Policy>, left: seq<Defender>, entry: Removal)
    requires remaining != []
    ensures next == Remove(working, remaining[0]) && entry.removed == remaining[0]
    ensures entry.left == |Defenders(next, judge)| && (entry.stillDenied <==> entry.left > 0)
    ensures forall d :: d in left <==> d in remaining[1..] || d in Defenders(next, judge)
    ensures remaining[1..] <= left
    ensures Total(next) < Total(working) || next == working
    ensures Listed(Defenders(next, judge), left)
    ensures next == working && Listed(Defenders(working, judge), remaining) ==> |left| < |remaining|
  {
    var d, rest := remaining[0], remaining[1..];
    assert remaining == [d] + rest;
    RemovalProgress(working, d, judge);
    next := Remove(working, d);
    var still := Defenders(next, judge);
    left := AddMissing(rest, still);
    entry := Removal(d, |still|, still != []);
  }

  lemma {:induction false} AllLeftStep(removals: seq<Removal>, entry: Removal)
    requires AllLeft(removals)
    ensures AllBut(removals + [entry]) && (entry.left > 0 ==> AllLeft(removals + [entry]))
  {
  }

  lemma {:induction false} QueuedStep(removals: seq<Removal>, initial: seq<Defender>, before: seq<Defender>, entry: Removal,
                                      after: seq<Defender>)
    requires Queued(removals, initial, before) && before != [] && entry.removed == before[0] && before[1..] <= after
    ensures Queued(removals + [entry], initial, after)
  {
    var n := |removals|;
    if n < |initial| {
      assert before[0] == initial[n..][0];
      assert initial[n + 1..] == initial[n..][1..] && initial[n..][1..] <= before[1..];
    }
  }

  /** Every turn is on record, the last one leaves no defender, and the ones before it do. */
  ghost predicate Drained(policies: seq<Policy>, removals: seq<Removal>, judge: Judge) {
    && removals != [] && AllBut(removals) && removals[|removals| - 1].left == 0
    && Recorded(policies, removals, judge) && OnlyDefenders(policies, removals, judge)
    && InTurn(removals, Defenders(policies, judge))
  }

  lemma {:induction false} SomeListed(ds: seq<Defender>, remaining: seq<Defender>)
    requires Listed(ds, remaining) && ds != []
    ensures remaining != []
  {
    assert ds[0] in remaining;
  }

  /** The loop: removals until there is no defender left. */
  method Drain(policies: seq<Policy>, judge: Judge) returns (working: seq<Policy>, sequence: seq<Removal>)
    requires Defenders(policies, judge) != []
    ensures Drained(policies, sequence, judge)
    ensures working == Replay(policies, sequence) && Defenders(working, judge) == []
  {
    working := policies;
    var remaining := Defenders(working, judge);
    sequence := [];
    ghost var defenders := remaining;
    InitiallyExposed(policies, remaining, judge);
    while remaining != []
      invariant working == Replay(policies, sequence)
      invariant Progress(policies, sequence, remaining, judge)
      invariant Queued(sequence, defenders, remaining) && AllLeft(sequence)
      invariant remaining != [] && Listed(Defenders(working, judge), remaining)
      decreases Total(working), |remaining|
    {
      ghost var before := remaining;
      var entry;
      working, remaining, entry := RemoveNext(working, remaining, judge);
      ProgressStep(policies, sequence, before, entry, remaining, judge);
      QueuedStep(sequence, defenders, before, entry, remaining);
      AllLeftStep(sequence, entry);
      sequence := sequence + [entry];
      if !entry.stillDenied { break; }
      SomeListed(Defenders(working, judge), remaining);
    }
  }

  method Exhaust(policies: seq<Policy>, judge: Judge) returns (r: Report)
    ensures r.initial == |Defenders(policies, judge)|
    ensures r.verdict == if Defenders(policies, judge) == [] then UNDEFENDED else EXHAUSTIBLE_AND_DECISIVE
    ensures r.flipped <==> Defenders(policies, judge) != []
    ensures Defenders(policies, judge) == [] ==> r.sequence == []
    ensures Defenders(policies, judge) != [] ==> Drained(policies, r.sequence, judge)
    ensures Defenders(policies, judge) != [] ==> forall p | p in Replay(policies, r.sequence) :: !ExplicitDeny(p, judge)
  {
    var defenders := Defenders(policies, judge);
    if defenders == [] { return Report(0, [], false, UNDEFENDED); }
    var working, sequence := Drain(policies, judge);
    DefendedIff(working, judge);
    var flipped := !exists p | p in working :: ExplicitDeny(p, judge);
    r := Report(|defenders|, sequence, flipped, if flipped then EXHAUSTIBLE_AND_DECISIVE else NOT_DECISIVE);
  }

  /** A removal either shortens some policy, or its name was stale: no current defender has it. */
  lemma {:induction false} RemovalProgress(ps: seq<Policy>, d: Defender, judge: Judge)
    ensures Total(Remove(ps, d)) < Total(ps) || (Remove(ps, d) == ps && d !in Defenders(ps, judge))
  {
    RemoveSize(ps, d);
    DefendersIn(ps, judge, d);
  }

  /** Appends the entries not yet listed. */
  method AddMissing(rest: seq<Defender>, still: seq<Defender>) returns (remaining: seq<Defender>)
    ensures forall x :: x in remaining <==> x in still || x in rest
    ensures (forall x | x in still :: x in rest) ==> remaining == rest
    ensures rest <= remaining
  {
    remaining := rest;
    for i := 0 to |still|
      invariant rest <= remaining
      invariant forall x :: x in remaining <==> x in rest || x in still[..i]
      invariant (forall x | x in still[..i] :: x in rest) ==> remaining == rest
    {
      assert still[..i + 1] == still[..i] + [still[i]];
      if still[i] !in remaining { remaining := remaining + [still[i]]; }
    }
    assert still[..|still|] == still;
  }

  // ---------------------------------------------------------------- run

  datatype Summary = Summary(results: seq<Report>, failing: nat, clean: bool)

  /** `judges` gives the evaluator's judgements for each mandatory capability. */
  method Run(policies: seq<Policy>, judges: seq<Judge>) returns (s: Summary)
    ensures |s.results| == |judges|
    ensures forall i | 0 <= i < |judges| :: s.results[i].initial == |Defenders(policies, judges[i])|
    ensures s.failing == |Undefended(policies, judges)|
    ensures s.clean <==> judges != [] && forall i | 0 <= i < |judges| :: Defenders(policies, judges[i]) != []
  {
    var results: seq<Report> := [];
    var failing := 0;
    for i := 0 to |judges|
      invariant |results| == i && Tallied(policies, judges, results, failing)
    {
      var r := Exhaust(policies, judges[i]);
      TalliedStep(policies, judges, results, failing, r);
      results := results + [r];
      if r.verdict != EXHAUSTIBLE_AND_DECISIVE { failing := failing + 1; }
    }
    assert judges[..|judges|] == judges;
    AllDefended(policies, judges);
    s := Summary(results, failing, results != [] && failing == 0);
  }

  /** The capabilities that nothing denies. */
  ghost function Undefended(policies: seq<Policy>, judges: seq<Judge>): set<nat> {
    set i: nat | i < |judges| && Defenders(policies, judges[i]) == []
  }

  ghost predicate Tallied(policies: seq<Policy>, judges: seq<Judge>, results: seq<Report>, failing: nat) {
    && |results| <= |judges| && failing == |Undefended(policies, judges[..|results|])|
    && forall j | 0 <= j < |results| :: results[j].initial == |Defenders(policies, judges[j])|
  }

  lemma {:induction false} TalliedStep(policies: seq<Policy>, judges: seq<Judge>, results: seq<Report>, failing: nat, r: Report)
    requires Tallied(policies, judges, results, failing) && |results| < |judges|
    requires r.initial == |Defenders(policies, judges[|results|])|
    ensures Tallied(policies, judges, results + [r], failing + if r.initial == 0 then 1 else 0)
  {
    UndefendedNext(policies, judges, |results|);
  }

  lemma {:induction false} AllDefended(policies: seq<Policy>, judges: seq<Judge>)
    ensures |Undefended(policies, judges)| == 0 <==> forall i | 0 <= i < |judges| :: Defenders(policies, judges[i]) != []
  {
    if |Undefended(policies, judges)| == 0 {
      forall i | 0 <= i < |judges| ensures Defenders(policies, judges[i]) != [] { assert i !in Undefended(policies, judges); }
    } else {
      var i :| i in Undefended(policies, judges);
    }
  }

  lemma {:induction false} UndefendedNext(policies: seq<Policy>, judges: seq<Judge>, i: nat)
    requires i < |judges|
    ensures |Undefended(policies, judges[..i + 1])| ==
            |Undefended(policies, judges[..i])| + if Defenders(policies, judges[i]) == [] then 1 else 0
  {
    var more := if Defenders(policies, judges[i]) == [] then {i} else {};
    assert Undefended(policies, judges[..i + 1]) == Undefended(policies, judges[..i]) + more;
  }

  /** Names do go stale: with two nameless Deny statements, removing the first renames the second. */
  lemma {:induction false} NameGoesStale()
    ensures var s, t := Statement("", true, 0), Statement("", true, 1);
            var ps := [Policy("p", [s, t])];
            var always: Judge := (p, x) => Applies;
            && Defenders(ps, always) == [Defender("p", "<statement 0>"), Defender("p", "<statement 1>")]
            && Defenders(Remove(ps, Defender("p", "<statement 0>")), always) == [Defender("p", "<statement 0>")]
  {
    var s, t := Statement("", true, 0), Statement("", true, 1);
    var p := Policy("p", [s, t]);
    var always: Judge := (p, x) => Applies;
    assert Name(s, 0) == "<statement 0>" && Name(t, 1) == "<statement 1>" && Name(t, 0) == "<statement 0>";
    assert StripFrom(p.doc, 2, "<statement 0>") == [];
    assert StripFrom(p.doc, 1, "<statement 0>") == [t];
    assert Strip(p.doc, "<statement 0>") == [t];
    var q := Policy("p", [t]);
    assert Remove([p], Defender("p", "<statement 0>")) == [q];
    assert DenySids(q, 1, always) == [];
    assert DenySids(q, 0, always) == ["<statement 0>"];
    assert t in q.doc && Denies(q, t, always) && s in p.doc && Denies(p, s, always);
    assert Tag("p", ["<statement 0>"]) == [Defender("p", "<statement 0>")];
    assert Tag("p", ["<statement 0>"][1..]) == [];
    assert DenySids(p, 2, always) == [];
    assert DenySids(p, 1, always) == ["<statement 1>"];
    assert DenySids(p, 0, always) == ["<statement 0>"] + ["<statement 1>"];
    assert Tag("p", ["<statement 0>", "<statement 1>"][1..]) == [Defender("p", "<statement 1>")];
  }
}
