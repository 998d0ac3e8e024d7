/**
 The governed cache: filled by `store`, questioned by `lookup`, and never believed. What it holds may
 have been written by anybody, so every answer is checked against the entry's own content.
 */
module GovernedCache {
  import opened Common
  import opened Frozen
  import opened DockerState
  import opened DockerThaw
  import opened CacheKey

  const PROVENANCE_SCHEMA_VERSION := "i28bf-b1.1"

  const CACHE_VALUE_FIELDS := ["state", "state_digest", "cache_key_digest", "provenance", "validation_status", "cache_schema_version"]

  const PROVENANCE_FIELDS := ["creation_utc", "owning_callable", "process_identity", "staged_tree", "origin", "provenance_schema_version"]

  datatype ValueProblem =
    | ValueNotMapping | UnknownValueFields | MissingValueFields | StaleCacheSchema | NotValidated | StateInvalid
    | WrongDigest | WrongKey | Misfiled | BadProvenance

  function Refuse(c: bool, p: ValueProblem): seq<ValueProblem> { if c then [p] else [] }

  function CheckNames(ks: seq<Key>): seq<ValueProblem> {
    Refuse(AnyUnknown(ks, CACHE_VALUE_FIELDS), UnknownValueFields) + Refuse(AnyMissing(ks, CACHE_VALUE_FIELDS), MissingValueFields)
  }

  /** The first two checks read labels that anybody can write. */
  function CheckLabels(value: Py): Out<seq<ValueProblem>> {
    var schema :- Item(value, "cache_schema_version");
    var status :- Item(value, "validation_status");
    Fine(Refuse(schema != Str(CACHE_SCHEMA_VERSION), StaleCacheSchema) + Refuse(status != Str(VALIDATION_OK), NotValidated))
  }

  function Claims(digest: Py, ownDigest: string, key: Py, ownKey: string, expected: Option<string>): seq<ValueProblem> {
    Refuse(digest != Str(ownDigest), WrongDigest) + Refuse(key != Str(ownKey), WrongKey) +
    Refuse(expected.Some? && key != Str(expected.value), Misfiled)
  }

  /** The digests the entry claims, against those of the state it holds. */
  function CheckClaims(value: Py, state: Py, expected: Option<string>, contract: string, h: Host, sha: Sha): Out<seq<ValueProblem>> {
    var digest :- Item(value, "state_digest");
    var ownDigest :- StateDigest(state, h, sha);
    var key :- Item(value, "cache_key_digest");
    var ownKey :- KeyDigest(state, contract, h, sha);
    Fine(Claims(digest, ownDigest, key, ownKey, expected))
  }

  predicate ProvenanceFields(prov: Py) {
    IsMap(prov) && !AnyUnknown(prov.keys, PROVENANCE_FIELDS) && !AnyMissing(prov.keys, PROVENANCE_FIELDS)
  }

  /** The checks that need a valid state. */
  function CheckBinding(value: Py, state: Py, expected: Option<string>, contract: string, h: Host, sha: Sha): Out<seq<ValueProblem>> {
    var claims :- CheckClaims(value, state, expected, contract, h, sha);
    var prov :- Item(value, "provenance");
    Fine(claims + Refuse(!ProvenanceFields(prov), BadProvenance))
  }

  /** An invalid state is reported alone: its digests mean nothing. */
  function Judge(labels: seq<ValueProblem>, problems: seq<Problem>, binding: Out<seq<ValueProblem>>): Out<seq<ValueProblem>> {
    if problems != [] then Fine(labels + [StateInvalid])
    else
      var bound :- binding;
      Fine(labels + bound)
  }

  function CheckContents(value: Py, expected: Option<string>, contract: string, h: Host, sha: Sha): Out<seq<ValueProblem>> {
    var labels :- CheckLabels(value);
    var state :- Item(value, "state");
    var problems :- ValidateState(Thaw(state, h), h, sha);
    Judge(labels, problems, CheckBinding(value, Thaw(state, h), expected, contract, h, sha))
  }

  /** `validate_cache_value`. */
  function CheckValue(value: Py, expected: Option<string>, contract: string, h: Host, sha: Sha): Out<seq<ValueProblem>> {
    if !IsMap(value) then Fine([ValueNotMapping])
    else if CheckNames(value.keys) != [] then Fine(CheckNames(value.keys))
    else CheckContents(value, expected, contract, h, sha)
  }

  datatype Answer = Hit(state: Py) | Miss | Rejected(first: ValueProblem) | Raised

  /** What a lookup of `s` answers when the cache holds `cache`. */
  function Answered(cache: map<string, Py>, s: Py, contract: string, h: Host, sha: Sha): Answer {
    match KeyDigest(s, contract, h, sha)
    case Crash => Raised
    case Fine(kd) =>
      if kd !in cache || cache[kd] == NONE_VALUE then Miss
      else
        match CheckValue(cache[kd], Some(kd), contract, h, sha)
        case Crash => Raised
        case Fine(problems) =>
          if problems != [] then Rejected(problems[0])
          else if Item(cache[kd], "state").Fine? then Hit(Item(cache[kd], "state").value) else Raised
  }

  // ---------------------------------------------------------------- a hit is sound, whoever wrote the entry

  /** What a value that passes every check is. */
  ghost predicate Trustworthy(value: Py, key: string, contract: string, h: Host, sha: Sha) {
    && Item(value, "state").Fine?
    && (var s := Thaw(Item(value, "state").value, h);
        && ValidState(s, h, sha)
        && StateDigest(s, h, sha).Fine? && Item(value, "state_digest") == Fine(Str(StateDigest(s, h, sha).value))
        && KeyDigest(s, contract, h, sha) == Fine(key))
  }

  lemma {:induction false} ClaimsHold(digest: Py, ownDigest: string, key: Py, ownKey: string, expected: string)
    ensures Claims(digest, ownDigest, key, ownKey, Some(expected)) == [] <==>
            digest == Str(ownDigest) && key == Str(ownKey) && ownKey == expected
  {
    assert Str(ownKey) == Str(expected) <==> ownKey == expected;
  }

  lemma {:induction false} ClaimsClean(value: Py, state: Py, key: string, contract: string, h: Host, sha: Sha)
    requires CheckClaims(value, state, Some(key), contract, h, sha) == Fine([])
    ensures StateDigest(state, h, sha).Fine? && Item(value, "state_digest") == Fine(Str(StateDigest(state, h, sha).value))
    ensures KeyDigest(state, contract, h, sha) == Fine(key)
  {
    ClaimsHold(Item(value, "state_digest").value, StateDigest(state, h, sha).value, Item(value, "cache_key_digest").value,
               KeyDigest(state, contract, h, sha).value, key);
  }

  lemma {:induction false} JudgeClean(labels: seq<ValueProblem>, problems: seq<Problem>, binding: Out<seq<ValueProblem>>)
    ensures Judge(labels, problems, binding) == Fine([]) <==> labels == [] && problems == [] && binding == Fine([])
  {
    assert |labels + [StateInvalid]| == |labels| + 1;
    if binding.Fine? { assert |labels + binding.value| == |labels| + |binding.value|; }
  }

  lemma {:induction false} BindingClean(value: Py, state: Py, key: string, contract: string, h: Host, sha: Sha)
    requires CheckBinding(value, state, Some(key), contract, h, sha) == Fine([])
    ensures CheckClaims(value, state, Some(key), contract, h, sha) == Fine([])
  {
  }

  lemma {:induction false} CleanContents(value: Py, key: string, contract: string, h: Host, sha: Sha)
    requires CheckContents(value, Some(key), contract, h, sha) == Fine([])
    ensures Trustworthy(value, key, contract, h, sha)
  {
    var labels, state := CheckLabels(value).value, Thaw(Item(value, "state").value, h);
    JudgeClean(labels, ValidateState(state, h, sha).value, CheckBinding(value, state, Some(key), contract, h, sha));
    BindingClean(value, state, key, contract, h, sha);
    ClaimsClean(value, state, key, contract, h, sha);
  }

  /**
   Poisoning resistance: whatever the cache holds, a hit returns a state that is valid, whose digest
   is the one on the entry, and that has the identity of the queried state, complete in both, unless
   the two keys collide.
   */
  lemma {:induction false} HitIsSound(cache: map<string, Py>, s: Py, contract: string, h: Host, sha: Sha)
    requires Answered(cache, s, contract, h, sha).Hit?
    ensures KeyDigest(s, contract, h, sha).Fine? && KeyDigest(s, contract, h, sha).value in cache
    ensures var kd := KeyDigest(s, contract, h, sha).value;
      var t := Answered(cache, s, contract, h, sha).state;
      Item(cache[kd], "state") == Fine(t) && Trustworthy(cache[kd], kd, contract, h, sha)
    ensures var t := Thaw(Answered(cache, s, contract, h, sha).state, h);
      && Complete(t) && Complete(s)
      && (FarApart(KeyForm(t, contract, h), KeyForm(s, contract, h), sha) ==> SameIdentity(t, s, h))
  {
    var kd := KeyDigest(s, contract, h, sha).value;
    var t := Thaw(Answered(cache, s, contract, h, sha).state, h);
    CleanContents(cache[kd], kd, contract, h, sha);
    KeyComplete(s, contract, h, sha);
    KeyComplete(t, contract, h, sha);
    if FarApart(KeyForm(t, contract, h), KeyForm(s, contract, h), sha) { KeyExactly(t, contract, s, contract, h, sha); }
  }

  // ---------------------------------------------------------------- storing

  /** When, where and why an entry was made. */
  datatype Stamp = Stamp(utc: string, process: string, origin: string)

  function AsKeys(fields: seq<string>): (r: seq<Key>)
    ensures |r| == |fields| && forall i | 0 <= i < |r| :: r[i] == StrKey(fields[i])
  {
    seq(|fields|, i requires 0 <= i < |fields| => StrKey(fields[i]))
  }

  const VALUE_KEYS := AsKeys(CACHE_VALUE_FIELDS)

  const PROVENANCE_KEYS := AsKeys(PROVENANCE_FIELDS)

  function Provenance(stamp: Stamp, tree: Py): Py {
    Dict(PROVENANCE_KEYS, [Str(stamp.utc), Str("docker_assurance_state.store"), Str(stamp.process), tree,
                           Str(stamp.origin), Str(PROVENANCE_SCHEMA_VERSION)])
  }

  function Value(state: Py, digest: string, key: string, provenance: Py): Py {
    Dict(VALUE_KEYS, [DeepFreeze(state), Str(digest), Str(key), provenance, Str(VALIDATION_OK), Str(CACHE_SCHEMA_VERSION)])
  }

  /** The key and the entry that `store` files for a state, or the exception it raises. */
  function Filed(s: Py, contract: string, stamp: Stamp, h: Host, sha: Sha): Out<(string, Py)> {
    if !ValidState(s, h, sha) then Crash
    else
      var kd :- KeyDigest(s, contract, h, sha);
      var digest :- StateDigest(s, h, sha);
      var tree :- Component(s, contract, In("repository", "staged_tree"));
      Fine((kd, DeepFreeze(Value(s, digest, kd, Provenance(stamp, tree)))))
  }

  lemma {:induction false} FreezeAt(vs: seq<Py>, i: nat)
    requires i < |vs|
    ensures |FreezeAll(vs)| == |vs| && FreezeAll(vs)[i] == DeepFreeze(vs[i])
  {
    FreezeLength(vs);
    if i > 0 { FreezeAt(vs[1..], i - 1); }
  }

  lemma {:induction false} FreezeLength(vs: seq<Py>)
    ensures |FreezeAll(vs)| == |vs|
  {
    if vs != [] { FreezeLength(vs[1..]); }
  }

  lemma {:induction false} LookupAt(ks: seq<Key>, vs: seq<Py>, i: nat, default: Py)
    requires |ks| == |vs| && i < |ks| && ks[i].StrKey? && DistinctTexts(ks)
    ensures Has(ks, vs, ks[i].text) && Lookup(ks, vs, ks[i].text, default) == vs[i]
  {
    if i > 0 {
      assert ks[0].text != ks[i].text;
      LookupAt(ks[1..], vs[1..], i - 1, default);
    }
  }

  lemma {:induction false} FrozenField(ks: seq<Key>, vs: seq<Py>, i: nat)
    requires |ks| == |vs| && i < |ks| && ks[i].StrKey? && DistinctTexts(ks)
    ensures Item(DeepFreeze(Dict(ks, vs)), ks[i].text) == Fine(DeepFreeze(vs[i]))
  {
    FreezeAt(vs, i);
    LookupAt(ks, FreezeAll(vs), i, NONE_VALUE);
  }

  /** The fields of an entry that `store` made. */
  lemma {:induction false} FiledFields(s: Py, digest: string, kd: string, prov: Py)
    ensures var e := DeepFreeze(Value(s, digest, kd, prov));
      && e.Proxy? && e.keys == VALUE_KEYS
      && Item(e, "state") == Fine(DeepFreeze(DeepFreeze(s))) && Item(e, "state_digest") == Fine(Str(digest))
      && Item(e, "cache_key_digest") == Fine(Str(kd)) && Item(e, "provenance") == Fine(DeepFreeze(prov))
      && Item(e, "validation_status") == Fine(Str(VALIDATION_OK)) && Item(e, "cache_schema_version") == Fine(Str(CACHE_SCHEMA_VERSION))
  {
    var vs := Value(s, digest, kd, prov).vals;
    ValueKeysDistinct();
    FrozenField(VALUE_KEYS, vs, 0);
    FrozenField(VALUE_KEYS, vs, 1);
    FrozenField(VALUE_KEYS, vs, 2);
    FrozenField(VALUE_KEYS, vs, 3);
    FrozenField(VALUE_KEYS, vs, 4);
    FrozenField(VALUE_KEYS, vs, 5);
  }

  lemma {:induction false} KeysMatch(fields: seq<string>)
    ensures !AnyUnknown(AsKeys(fields), fields) && !AnyMissing(AsKeys(fields), fields)
  {
    forall f | f in fields ensures StrKey(f) in AsKeys(fields) {
      var i :| 0 <= i < |fields| && fields[i] == f;
      assert AsKeys(fields)[i] == StrKey(f);
    }
  }

  lemma {:induction false} ValueKeysDistinct()
    ensures DistinctTexts(VALUE_KEYS)
  {
    assert forall i | 0 <= i < 6 :: VALUE_KEYS[i].text == CACHE_VALUE_FIELDS[i];
  }

  lemma {:induction false} FiledLabels(s: Py, digest: string, kd: string, prov: Py)
    ensures CheckLabels(DeepFreeze(Value(s, digest, kd, prov))) == Fine([])
  {
    FiledFields(s, digest, kd, prov);
    var none: seq<ValueProblem> := [];
    assert none + none == none;
  }

  lemma {:induction false} FiledClaims(value: Py, state: Py, kd: string, contract: string, h: Host, sha: Sha)
    requires KeyDigest(state, contract, h, sha) == Fine(kd) && StateDigest(state, h, sha).Fine?
    requires Item(value, "state_digest") == Fine(Str(StateDigest(state, h, sha).value)) && Item(value, "cache_key_digest") == Fine(Str(kd))
    requires Item(value, "provenance").Fine? && ProvenanceFields(Item(value, "provenance").value)
    ensures CheckBinding(value, state, Some(kd), contract, h, sha) == Fine([])
  {
    var digest := StateDigest(state, h, sha).value;
    ClaimsHold(Str(digest), digest, Str(kd), kd, kd);
    assert CheckClaims(value, state, Some(kd), contract, h, sha) == Fine([]);
  }

  lemma {:induction false} FiledProvenance(stamp: Stamp, tree: Py)
    ensures ProvenanceFields(DeepFreeze(Provenance(stamp, tree)))
  {
    KeysMatch(PROVENANCE_FIELDS);
  }

  /** What `store` files passes the checks of `lookup`, as far as its ids survive the copy. */
  lemma {:induction false} FiledIsClean(s: Py, contract: string, stamp: Stamp, h: Host, sha: Sha)
    requires Raw(s) && Filed(s, contract, stamp, h, sha).Fine?
    ensures var (kd, e) := Filed(s, contract, stamp, h, sha).value;
      && KeyDigest(s, contract, h, sha) == Fine(kd) && Item(e, "state") == Fine(DeepFreeze(s))
      && CheckValue(e, Some(kd), contract, h, sha) == if PlainIds(s) then Fine([]) else Crash
  {
    ThawValid(s, h, sha);
    var (kd, e) := Filed(s, contract, stamp, h, sha).value;
    var digest, prov := StateDigest(s, h, sha).value, Provenance(stamp, Component(s, contract, In("repository", "staged_tree")).value);
    FiledFields(s, digest, kd, prov);
    FiledLabels(s, digest, kd, prov);
    FiledProvenance(stamp, Component(s, contract, In("repository", "staged_tree")).value);
    FreezeIdempotent(s);
    RawNested(s);
    ThawFreeze(s, h);
    ThawDigest(s, h, sha);
    ThawKeyDigest(s, contract, h, sha);
    KeysMatch(CACHE_VALUE_FIELDS);
    FiledClaims(e, Thaw(s, h), kd, contract, h, sha);
    JudgeClean([], [], CheckBinding(e, Thaw(s, h), Some(kd), contract, h, sha));
  }

  // ---------------------------------------------------------------- whole histories

  /** Something that happens to the cache; anybody may have written the value of `Written`. */
  datatype Step = Stored(state: Py, contract: string, stamp: Stamp) | Emptied | Written(key: string, value: Py)

  function Apply(cache: map<string, Py>, step: Step, h: Host, sha: Sha): map<string, Py> {
    match step
    case Emptied => map[]
    case Written(key, value) => cache[key := value]
    case Stored(s, contract, stamp) =>
      match Filed(s, contract, stamp, h, sha)
      case Crash => cache
      case Fine((kd, e)) => cache[kd := e]
  }

  function After(cache: map<string, Py>, steps: seq<Step>, h: Host, sha: Sha): map<string, Py>
    decreases steps
  {
    if steps == [] then cache else After(Apply(cache, steps[0], h, sha), steps[1..], h, sha)
  }

  /** The step leaves the entry of `kd` alone. */
  predicate Spares(step: Step, kd: string, h: Host, sha: Sha) {
    match step
    case Emptied => false
    case Written(key, _) => key != kd
    case Stored(s, contract, stamp) => Filed(s, contract, stamp, h, sha).Fine? ==> Filed(s, contract, stamp, h, sha).value.0 != kd
  }

  predicate AllSpare(steps: seq<Step>, kd: string, h: Host, sha: Sha) {
    steps == [] || (Spares(steps[0], kd, h, sha) && AllSpare(steps[1..], kd, h, sha))
  }

  lemma {:induction false} SpareStep(cache: map<string, Py>, step: Step, kd: string, h: Host, sha: Sha)
    requires kd in cache && Spares(step, kd, h, sha)
    ensures kd in Apply(cache, step, h, sha) && Apply(cache, step, h, sha)[kd] == cache[kd]
  {
  }

  lemma {:induction false} EntrySurvives(cache: map<string, Py>, steps: seq<Step>, kd: string, h: Host, sha: Sha)
    requires kd in cache && AllSpare(steps, kd, h, sha)
    ensures kd in After(cache, steps, h, sha) && After(cache, steps, h, sha)[kd] == cache[kd]
    decreases steps
  {
    if steps != [] {
      SpareStep(cache, steps[0], kd, h, sha);
      EntrySurvives(Apply(cache, steps[0], h, sha), steps[1..], kd, h, sha);
    }
  }

  /**
   A stored state, asked for again, is a hit with the same digest, whatever was done to the rest of the
   cache in between. The copy made for checking turns tuples into lists, so if an id is a tuple the
   lookup raises instead.
   */
  lemma {:induction false} StoredIsHit(cache: map<string, Py>, s: Py, contract: string, stamp: Stamp, steps: seq<Step>, h: Host, sha: Sha)
    requires Raw(s) && Filed(s, contract, stamp, h, sha).Fine?
    requires AllSpare(steps, Filed(s, contract, stamp, h, sha).value.0, h, sha)
    ensures var later := After(Apply(cache, Stored(s, contract, stamp), h, sha), steps, h, sha);
      Answered(later, s, contract, h, sha) == if PlainIds(s) then Hit(DeepFreeze(s)) else Raised
    ensures StateDigest(DeepFreeze(s), h, sha) == StateDigest(s, h, sha)
  {
    var (kd, e) := Filed(s, contract, stamp, h, sha).value;
    FiledIsClean(s, contract, stamp, h, sha);
    EntrySurvives(cache[kd := e], steps, kd, h, sha);
    RawNested(s);
    ThawFreeze(s, h);
  }

  /** The step is one of the program's own, on a derived state whose key does not collide with `form`. */
  ghost predicate Honest(step: Step, form: Out<Canon>, h: Host, sha: Sha) {
    match step
    case Emptied => true
    case Written(_, _) => false
    case Stored(s, contract, _) => Raw(s) && FarApart(KeyForm(s, contract, h), form, sha)
  }

  ghost predicate AllHonest(steps: seq<Step>, form: Out<Canon>, h: Host, sha: Sha) {
    steps == [] || (Honest(steps[0], form, h, sha) && AllHonest(steps[1..], form, h, sha))
  }

  /** The value is what `store` filed for some state under this key. */
  ghost predicate HonestEntry(kd: string, e: Py, s: Py, contract: string, stamp: Stamp, form: Out<Canon>, h: Host, sha: Sha) {
    Honest(Stored(s, contract, stamp), form, h, sha) && Filed(s, contract, stamp, h, sha) == Fine((kd, e))
  }

  ghost predicate HonestCache(cache: map<string, Py>, form: Out<Canon>, h: Host, sha: Sha) {
    forall kd | kd in cache :: exists s, contract, stamp :: HonestEntry(kd, cache[kd], s, contract, stamp, form, h, sha)
  }

  lemma {:induction false} HonestPut(cache: map<string, Py>, kd: string, e: Py, s: Py, contract: string, stamp: Stamp,
                                     form: Out<Canon>, h: Host, sha: Sha)
    requires HonestCache(cache, form, h, sha) && HonestEntry(kd, e, s, contract, stamp, form, h, sha)
    ensures HonestCache(cache[kd := e], form, h, sha)
  {
    var later := cache[kd := e];
    forall k | k in later ensures exists s, contract, stamp :: HonestEntry(k, later[k], s, contract, stamp, form, h, sha) {
      if k == kd { assert HonestEntry(k, later[k], s, contract, stamp, form, h, sha); } else { assert later[k] == cache[k]; }
    }
  }

  lemma {:induction false} HonestStep(cache: map<string, Py>, step: Step, form: Out<Canon>, h: Host, sha: Sha)
    requires HonestCache(cache, form, h, sha) && Honest(step, form, h, sha)
    ensures HonestCache(Apply(cache, step, h, sha), form, h, sha)
  {
    if step.Stored? && Filed(step.state, step.contract, step.stamp, h, sha).Fine? {
      var (kd, e) := Filed(step.state, step.contract, step.stamp, h, sha).value;
      HonestPut(cache, kd, e, step.state, step.contract, step.stamp, form, h, sha);
    }
  }

  lemma {:induction false} HonestRun(cache: map<string, Py>, steps: seq<Step>, form: Out<Canon>, h: Host, sha: Sha)
    requires HonestCache(cache, form, h, sha) && AllHonest(steps, form, h, sha)
    ensures HonestCache(After(cache, steps, h, sha), form, h, sha)
    decreases steps
  {
    if steps != [] {
      HonestStep(cache, steps[0], form, h, sha);
      HonestRun(Apply(cache, steps[0], h, sha), steps[1..], form, h, sha);
    }
  }

  lemma {:induction false} FiledMeans(s: Py, contract: string, stamp: Stamp, h: Host, sha: Sha)
    requires Filed(s, contract, stamp, h, sha).Fine?
    ensures ValidState(s, h, sha) && StateDigest(s, h, sha).Fine?
    ensures KeyDigest(s, contract, h, sha) == Fine(Filed(s, contract, stamp, h, sha).value.0)
    ensures Filed(s, contract, stamp, h, sha).value.1 != NONE_VALUE
  {
  }

  /** The entry is what was filed for the state, and the answer is that state, or an exception if its ids are not plain values. */
  ghost predicate AnswersWith(answer: Answer, e: Py, t: Py) {
    Raw(t) && Item(e, "state") == Fine(DeepFreeze(t)) && answer == if PlainIds(t) then Hit(DeepFreeze(t)) else Raised
  }

  /**
   Without interference no lookup is ever refused: a rejection is always evidence of tampering. The answer is
   a miss exactly when nothing is filed, and otherwise the state that was filed, unless its ids are not plain values.
   */
  lemma {:induction false} HonestNeverRejected(steps: seq<Step>, s: Py, contract: string, h: Host, sha: Sha)
    requires KeyDigest(s, contract, h, sha).Fine? && AllHonest(steps, KeyForm(s, contract, h), h, sha)
    ensures var cache, kd := After(map[], steps, h, sha), KeyDigest(s, contract, h, sha).value;
      var answer := Answered(cache, s, contract, h, sha);
      && !answer.Rejected? && (answer.Miss? <==> kd !in cache)
      && (kd in cache ==> exists t :: AnswersWith(answer, cache[kd], t))
  {
    var cache, kd := After(map[], steps, h, sha), KeyDigest(s, contract, h, sha).value;
    HonestRun(map[], steps, KeyForm(s, contract, h), h, sha);
    if kd in cache {
      var t, c, stamp :| HonestEntry(kd, cache[kd], t, c, stamp, KeyForm(s, contract, h), h, sha);
      FiledIsClean(t, c, stamp, h, sha);
      FiledMeans(t, c, stamp, h, sha);
      KeyExactly(t, c, s, contract, h, sha);
      assert AnswersWith(Answered(cache, s, contract, h, sha), cache[kd], t);
    }
  }

  /** The step files nothing for a state with this identity, and what it files does not collide. */
  ghost predicate Differs(step: Step, s: Py, contract: string, h: Host, sha: Sha) {
    match step
    case Emptied => true
    case Written(_, _) => false
    case Stored(t, d, _) =>
      FarApart(KeyForm(t, d, h), KeyForm(s, contract, h), sha) && !(d == contract && SameIdentity(t, s, h))
  }

  ghost predicate AllDiffer(steps: seq<Step>, s: Py, contract: string, h: Host, sha: Sha) {
    steps == [] || (Differs(steps[0], s, contract, h, sha) && AllDiffer(steps[1..], s, contract, h, sha))
  }

  lemma {:induction false} FiledElsewhere(cache: map<string, Py>, step: Step, s: Py, contract: string, h: Host, sha: Sha)
    requires KeyDigest(s, contract, h, sha).Fine? && Differs(step, s, contract, h, sha)
    requires KeyDigest(s, contract, h, sha).value !in cache
    ensures KeyDigest(s, contract, h, sha).value !in Apply(cache, step, h, sha)
  {
    if step.Stored? && Filed(step.state, step.contract, step.stamp, h, sha).Fine? {
      FiledMeans(step.state, step.contract, step.stamp, h, sha);
      KeyExactly(step.state, step.contract, s, contract, h, sha);
    }
  }

  /** States that differ in a single field of the identity, or in the contract, never answer for each other. */
  lemma {:induction false} ChangedIsMiss(cache: map<string, Py>, steps: seq<Step>, s: Py, contract: string, h: Host, sha: Sha)
    requires KeyDigest(s, contract, h, sha).Fine? && AllDiffer(steps, s, contract, h, sha)
    requires KeyDigest(s, contract, h, sha).value !in cache
    ensures Answered(After(cache, steps, h, sha), s, contract, h, sha) == Miss
    decreases steps
  {
    if steps != [] {
      FiledElsewhere(cache, steps[0], s, contract, h, sha);
      ChangedIsMiss(Apply(cache, steps[0], h, sha), steps[1..], s, contract, h, sha);
    }
  }

  lemma {:induction false} ProvenanceKept(s: Py, contract: string, stamp: Stamp, h: Host, sha: Sha)
    requires Filed(s, contract, stamp, h, sha).Fine?
    ensures StateDigest(s, h, sha).Fine? && Item(Thaw(Filed(s, contract, stamp, h, sha).value.1, h), "provenance").Fine?
  {
    var (kd, e) := Filed(s, contract, stamp, h, sha).value;
    var digest, prov := StateDigest(s, h, sha).value, Provenance(stamp, Component(s, contract, In("repository", "staged_tree")).value);
    FiledFields(s, digest, kd, prov);
    ThawHas(e, "provenance", h);
  }

  lemma {:induction false} HasLength(ks: seq<Key>, vs: seq<Py>, ws: seq<Py>, k: string)
    requires |vs| == |ws|
    ensures Has(ks, vs, k) == Has(ks, ws, k)
  {
    if ks != [] && vs != [] { HasLength(ks[1..], vs[1..], ws[1..], k); }
  }

  lemma {:induction false} ThawHas(v: Py, k: string, h: Host)
    requires Item(v, k).Fine?
    ensures Item(Thaw(v, h), k).Fine?
  {
    ThawLength(v.vals, h);
    HasLength(v.keys, v.vals, ThawAll(v.vals, h), k);
  }

  // ---------------------------------------------------------------- the cache itself

  /** What establishment binds: a plain copy, so that changing it cannot reach the cached object. */
  datatype Baseline = Baseline(state: Py, stateDigest: string, key: string, provenance: Py, schema: string)

  /** The baseline is a copy of a valid state with that state's own digest and key. */
  ghost predicate Bound(b: Baseline, s: Py, contract: string, h: Host, sha: Sha) {
    && ValidState(s, h, sha) && b.state == Thaw(s, h)
    && StateDigest(s, h, sha) == Fine(b.stateDigest) && KeyDigest(s, contract, h, sha) == Fine(b.key)
  }

  class Governed {
    var cache: map<string, Py>
    const h: Host
    const sha: Sha

    constructor (h: Host, sha: Sha)
      ensures this.h == h && this.sha == sha && cache == map[]
    {
      this.h := h;
      this.sha := sha;
      cache := map[];
    }

    method Reset()
      modifies this
      ensures cache == map[]
    {
      cache := map[];
    }

    /** An invalid or incomplete state raises and leaves the cache as it was. */
    method Store(s: Py, contract: string, stamp: Stamp) returns (r: Out<string>)
      modifies this
      ensures r.Crash? ==> Filed(s, contract, stamp, h, sha).Crash? && cache == old(cache)
      ensures r.Fine? ==> Filed(s, contract, stamp, h, sha).Fine? &&
                          (var (kd, e) := Filed(s, contract, stamp, h, sha).value; r.value == kd && cache == old(cache)[kd := e])
    {
      var problems := ValidateState(s, h, sha);
      if problems != Fine([]) { return Crash; }
      r := KeyDigest(s, contract, h, sha);
      if r.Crash? { return; }
      var digest, tree := StateDigest(s, h, sha), Component(s, contract, In("repository", "staged_tree"));
      if digest.Crash? || tree.Crash? { return Crash; }
      cache := cache[r.value := DeepFreeze(Value(s, digest.value, r.value, Provenance(stamp, tree.value)))];
    }

    method Ask(s: Py, contract: string) returns (r: Answer)
      ensures r == Answered(cache, s, contract, h, sha)
      ensures r.Hit? ==> var t := Thaw(r.state, h);
                && ValidState(t, h, sha) && KeyDigest(t, contract, h, sha) == KeyDigest(s, contract, h, sha)
                && Complete(s) && Complete(t)
                && (FarApart(KeyForm(t, contract, h), KeyForm(s, contract, h), sha) ==> SameIdentity(t, s, h))
    {
      var kd := KeyDigest(s, contract, h, sha);
      if kd.Crash? { return Raised; }
      if kd.value !in cache || cache[kd.value] == NONE_VALUE { return Miss; }
      var value := cache[kd.value];
      var problems := CheckValue(value, Some(kd.value), contract, h, sha);
      if problems.Crash? { return Raised; }
      if problems.value != [] { return Rejected(problems.value[0]); }
      var state := Item(value, "state");
      r := if state.Fine? then Hit(state.value) else Raised;
      if r.Hit? { HitIsSound(cache, s, contract, h, sha); }
    }

    /** Establishment starts from an empty cache, so nothing that was in it can reach the baseline. */
    method Establish(derived: Out<Py>, contract: string, stamp: Stamp) returns (r: Out<Baseline>)
      modifies this
      ensures r.Fine? <==> derived.Fine? && Filed(derived.value, contract, stamp, h, sha).Fine?
      ensures r.Fine? ==> Bound(r.value, derived.value, contract, h, sha)
      ensures r.Fine? ==> r.value.schema == "i28bf-b1.1"
      ensures r.Fine? ==> cache == map[r.value.key := Filed(derived.value, contract, stamp, h, sha).value.1]
      ensures r.Fine? ==> Item(Thaw(cache[r.value.key], h), "provenance") == Fine(r.value.provenance)
      ensures r.Crash? ==> cache == if derived.Fine? && ValidState(derived.value, h, sha) then map[] else old(cache)
    {
      if derived.Crash? { return Crash; }
      var problems := ValidateState(derived.value, h, sha);
      if problems != Fine([]) { return Crash; }
      Reset();
      var kd := Store(derived.value, contract, stamp);
      if kd.Crash? { return Crash; }
      FiledMeans(derived.value, contract, stamp, h, sha);
      ProvenanceKept(derived.value, contract, stamp, h, sha);
      var digest := StateDigest(derived.value, h, sha);
      var prov := Item(Thaw(cache[kd.value], h), "provenance");
      return Fine(Baseline(Thaw(derived.value, h), digest.value, kd.value, prov.value, STATE_SCHEMA_VERSION));
    }
  }
}
