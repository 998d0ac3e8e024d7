module DockerState {
  // The authoritative Docker assurance state: when a value is one, its digest, and its cache key.
  //
  // Values come from outside, so they may have any shape; an operation that Python would refuse on a
  // value of the wrong shape is a `Crash`. Problems are recorded by kind, without their wording. The
  // digest is any function of the canonical form; a result that needs it assumes that two particular forms
  // do not collide.

  import opened Frozen
  import opened Sorting

  datatype Out<+T> = Fine(value: T) | Crash {
    predicate IsFailure() { Crash? }

    function PropagateFailure<U>(): Out<U>
      requires Crash?
    {
      Crash
    }

    function Extract(): T
      requires Fine?
    {
      value
    }
  }

  type Sha = Canon -> string

  /** These two forms do not share a digest unless they are the same. */
  ghost predicate NoCollision(sha: Sha, a: Canon, b: Canon) { sha(a) == sha(b) ==> a == b }

  const STATE_SCHEMA_VERSION := "i28bf-b1.1"
  const CACHE_SCHEMA_VERSION := "i28bf-b1.1"
  const POLICY_SCHEMA_VERSION := "docker-boundary-policy.v1"
  const PARSER_SCHEMA_VERSION := "i28bf-b1.1"
  const SOURCE_POSITION_VERSION := "i28bf-a3.1"
  const SITE_PASS := "PASS"
  const WORKFLOW_COVERAGE_MARKER := "NOT_ADJUDICATED — deferred to Gate 4N-I28BG (ADV-I28AX-ARCH-01 part B)"
  const VALIDATION_OK := "VALIDATED"

  const STATE_TOP_FIELDS := ["schema_version", "authorization", "repository", "policy", "parser", "universe", "per_site", "aggregate"]

  // ---------------------------------------------------------------- access to values

  function Str(s: string): Py { Atom(StrAtom(s)) }

  const NONE_VALUE: Py := Atom(NoneAtom)

  predicate IsMap(v: Py) { v.Dict? || v.Proxy? }

  predicate Has(ks: seq<Key>, vs: seq<Py>, k: string)
  {
    ks != [] && vs != [] && (ks[0] == StrKey(k) || Has(ks[1..], vs[1..], k))
  }

  function Lookup(ks: seq<Key>, vs: seq<Py>, k: string, default: Py): Py {
    if ks == [] || vs == [] then default else if ks[0] == StrKey(k) then vs[0] else Lookup(ks[1..], vs[1..], k, default)
  }

  /** `v.get(k, default)`. */
  function GetOr(v: Py, k: string, default: Py): Out<Py> {
    if IsMap(v) then Fine(Lookup(v.keys, v.vals, k, default)) else Crash
  }

  function Get(v: Py, k: string): Out<Py> { GetOr(v, k, NONE_VALUE) }

  /** `v[k]`. */
  function Item(v: Py, k: string): Out<Py> {
    if IsMap(v) && Has(v.keys, v.vals, k) then Get(v, k) else Crash
  }

  predicate Truth(v: Py) {
    match v
    case Atom(NoneAtom) => false
    case Atom(BoolAtom(b)) => b
    case Atom(IntAtom(n)) => n != 0
    case Atom(FloatAtom(r)) => r != 0.0
    case Atom(StrAtom(s)) => s != ""
    case Atom(Other(_)) => true
    case Dict(ks, _) => ks != []
    case Proxy(ks, _) => ks != []
    case List(vs) => vs != []
    case Tuple(vs) => vs != []
    case Set(vs) => vs != []
    case FrozenSet(vs) => vs != []
    case ByteArray(t) => t != ""
  }

  function KeyValue(k: Key): Py { if k.StrKey? then Str(k.text) else Atom(Other(k.text)) }

  function KeyValues(ks: seq<Key>): seq<Py> { if ks == [] then [] else [KeyValue(ks[0])] + KeyValues(ks[1..]) }

  function Chars(s: string): seq<Py> { if s == "" then [] else [Str([s[0]])] + Chars(s[1..]) }

  /** The members Python iterates over. */
  function Members(v: Py): Out<seq<Py>> {
    match v
    case List(vs) => Fine(vs)
    case Tuple(vs) => Fine(vs)
    case Set(vs) => Fine(vs)
    case FrozenSet(vs) => Fine(vs)
    case Dict(ks, _) => Fine(KeyValues(ks))
    case Proxy(ks, _) => Fine(KeyValues(ks))
    case Atom(StrAtom(s)) => Fine(Chars(s))
    case _ => Crash
  }

  predicate Hashable(v: Py) {
    match v
    case Atom(_) => true
    case Tuple(vs) => forall x | x in vs :: Hashable(x)
    case FrozenSet(_) => true
    case _ => false
  }

  /** Equality of members in a Python set does not tell `True`, `1` and `1.0` apart. */
  function Loose(v: Py): Py {
    match v
    case Atom(BoolAtom(b)) => Atom(FloatAtom(if b then 1.0 else 0.0))
    case Atom(IntAtom(n)) => Atom(FloatAtom(n as real))
    case _ => v
  }

  function Image(vs: seq<Py>): set<Py> { set x | x in vs :: Loose(x) }

  predicate AllHashable(vs: seq<Py>) { forall x | x in vs :: Hashable(x) }

  /** `set(vs)`. */
  function AsSet(vs: seq<Py>): Out<set<Py>> { if AllHashable(vs) then Fine(Image(vs)) else Crash }

  predicate IsStr(v: Py) { v.Atom? && v.a.StrAtom? }

  predicate IsNumber(v: Py) { v.Atom? && (v.a.BoolAtom? || v.a.IntAtom? || v.a.FloatAtom?) }

  /** `sorted` needs members that can be compared with each other. */
  predicate Sortable(s: set<Py>) {
    |s| <= 1 || (forall x | x in s :: IsStr(x)) || (forall x | x in s :: IsNumber(x))
  }

  // ---------------------------------------------------------------- validate_state

  datatype Problem =
    | NotMapping | StaleSchema | UnknownFields | MissingFields | AuthorizationFields | PairDigest
    | StalePolicy | PolicyIncomplete | StaleParser | Untrustworthy | StalePosition
    | NotReconciled | NotPositive | EmptyUniverse | DuplicateSite | CountDisagrees
    | NoRecords | DuplicateRecord | NoPosition | GhostRecord | Undecided
    | CoverageMarker | NotClean | ForcedClean | LayerDisagrees

  function When(c: bool, p: Problem): seq<Problem> { if c then [p] else [] }

  /** The pair identity without its digest. */
  function Pair(auth: Py): Out<Py> {
    var a :- Item(auth, "issuance");
    var b :- Item(auth, "expiry");
    var c :- Item(auth, "duration_seconds");
    Fine(Dict([StrKey("issuance"), StrKey("expiry"), StrKey("duration_seconds")], [a, b, c]))
  }

  function CheckAuthorization(auth: Py, h: Host, sha: Sha): Out<seq<Problem>> {
    var members :- Members(auth);
    var fields :- AsSet(members);
    if fields != {Str("issuance"), Str("expiry"), Str("duration_seconds"), Str("pair_digest")} then Fine([AuthorizationFields])
    else
      var digest :- Item(auth, "pair_digest");
      var pair :- Pair(auth);
      Fine(When(digest != Str(sha(Canonical(pair, h))), PairDigest))
  }

  function CheckPolicy(pol: Py): Out<seq<Problem>> {
    var version :- Get(pol, "policy_schema_version");
    var a :- Get(pol, "policy_digest");
    var b :- Get(pol, "category_table_digest");
    var c :- Get(pol, "normalization_version");
    Fine(When(version != Str(POLICY_SCHEMA_VERSION), StalePolicy) +
         When(!Truth(a), PolicyIncomplete) + When(!Truth(b), PolicyIncomplete) + When(!Truth(c), PolicyIncomplete))
  }

  function CheckParser(par: Py): Out<seq<Problem>> {
    var version :- Get(par, "parser_schema_version");
    var bad :- Get(par, "parser_untrustworthy");
    var position :- Get(par, "source_position_version");
    Fine(When(version != Str(PARSER_SCHEMA_VERSION), StaleParser) + When(Truth(bad), Untrustworthy) +
         When(position != Str(SOURCE_POSITION_VERSION), StalePosition))
  }

  function SiteIds(uni: Py): Out<seq<Py>> {
    var ids :- GetOr(uni, "site_ids", Tuple([]));
    Members(ids)
  }

  function CheckUniverse(uni: Py): Out<seq<Problem>> {
    var reconciliation :- Get(uni, "reconciliation");
    var positive :- Get(uni, "expected_positive");
    var listed :- Get(uni, "site_ids");
    var ids :- SiteIds(uni);
    var distinct :- AsSet(ids);
    var count :- Get(uni, "site_count");
    Fine(When(reconciliation != Str("AGREE"), NotReconciled) + When(!Truth(positive), NotPositive) +
         When(!Truth(listed), EmptyUniverse) + When(|distinct| != |ids|, DuplicateSite) +
         When(Loose(count) != Atom(FloatAtom(|ids| as real)), CountDisagrees))
  }

  /** `[r.get(k) for r in records]`. */
  function Column(records: seq<Py>, k: string): Out<seq<Py>> {
    if records == [] then Fine([])
    else
      var x :- Get(records[0], k);
      var xs :- Column(records[1..], k);
      Fine([x] + xs)
  }

  predicate AllTrue(vs: seq<Py>) { forall p | p in vs :: Truth(p) }

  predicate AllEqual(vs: seq<Py>, w: Py) { forall d | d in vs :: d == w }

  /** The problems of a list of record ids, set against the site ids of the universe. */
  function SiteProblems(present: bool, ids: seq<Py>, positioned: bool, sites: seq<Py>): Out<seq<Problem>> {
    var distinct :- AsSet(ids);
    var known :- AsSet(sites);
    if !Sortable(distinct - known) || !Sortable(known - distinct) then Crash
    else Fine(When(!present, NoRecords) + When(|distinct| != |ids|, DuplicateRecord) + When(!positioned, NoPosition) +
              When(distinct - known != {}, GhostRecord) + When(known - distinct != {}, Undecided))
  }

  function CheckSites(per: Py, uni: Py): Out<seq<Problem>> {
    var records :- Members(per);
    var ids :- Column(records, "id");
    var positions :- Column(records, "position");
    var sites :- SiteIds(uni);
    SiteProblems(Truth(per), ids, AllTrue(positions), sites)
  }

  const TRUE: Py := Atom(BoolAtom(true))

  function CheckAggregate(agg: Py, per: Py): Out<seq<Problem>> {
    var coverage :- Get(agg, "workflow_coverage");
    var clean :- Get(agg, "docker_aggregate");
    var records :- Members(per);
    var decisions :- Column(records, "decision");
    var layer :- Get(agg, "docker_per_site_layer");
    Fine(When(coverage != Str(WORKFLOW_COVERAGE_MARKER), CoverageMarker) + When(clean != TRUE, NotClean) +
         When(clean == TRUE && !AllEqual(decisions, Str(SITE_PASS)), ForcedClean) +
         When(layer != clean, LayerDisagrees))
  }

  predicate AnyUnknown(ks: seq<Key>, fields: seq<string>) { exists k | k in ks :: !(k.StrKey? && k.text in fields) }

  predicate AnyMissing(ks: seq<Key>, fields: seq<string>) { exists f | f in fields :: StrKey(f) !in ks }

  function CheckFields(ks: seq<Key>): seq<Problem> {
    When(AnyUnknown(ks, STATE_TOP_FIELDS), UnknownFields) + When(AnyMissing(ks, STATE_TOP_FIELDS), MissingFields)
  }

  function CheckIdentities(s: Py, h: Host, sha: Sha): Out<seq<Problem>> {
    var auth :- Item(s, "authorization");
    var p0 :- CheckAuthorization(auth, h, sha);
    var pol :- Item(s, "policy");
    var p1 :- CheckPolicy(pol);
    var par :- Item(s, "parser");
    var p2 :- CheckParser(par);
    Fine(p0 + p1 + p2)
  }

  function CheckInventory(s: Py): Out<seq<Problem>> {
    var uni :- Item(s, "universe");
    var p3 :- CheckUniverse(uni);
    var per :- Item(s, "per_site");
    var p4 :- CheckSites(per, uni);
    Fine(p3 + p4)
  }

  function CheckSummary(s: Py): Out<seq<Problem>> {
    var per :- Item(s, "per_site");
    var agg :- Item(s, "aggregate");
    CheckAggregate(agg, per)
  }

  function CheckSections(s: Py, h: Host, sha: Sha): Out<seq<Problem>> {
    var identities :- CheckIdentities(s, h, sha);
    var inventory :- CheckInventory(s);
    var summary :- CheckSummary(s);
    Fine(identities + inventory + summary)
  }

  function ValidateState(s: Py, h: Host, sha: Sha): Out<seq<Problem>> {
    if !s.Dict? then Fine([NotMapping])
    else
      var version :- Get(s, "schema_version");
      if version != Str(STATE_SCHEMA_VERSION) then Fine([StaleSchema])
      else if CheckFields(s.keys) != [] then Fine(CheckFields(s.keys))
      else CheckSections(s, h, sha)
  }

  predicate ValidState(s: Py, h: Host, sha: Sha) { ValidateState(s, h, sha) == Fine([]) }

  // ---------------------------------------------------------------- normal form and digest

  function Rank(v: Py): nat { if IsStr(v) then 0 else if IsNumber(v) then 1 else 2 }

  function Number(v: Py): real
    requires IsNumber(v)
  {
    Loose(v).a.r
  }

  /** Python's order on strings and on numbers. */
  predicate KeyLe(v: Py, w: Py) {
    Rank(v) < Rank(w) ||
    (Rank(v) == Rank(w) &&
     match Rank(v)
     case 0 => StringLe(v.a.s, w.a.s)
     case 1 => Number(v) <= Number(w)
     case _ => true)
  }

  /** `r.get("id") or ""`. */
  function IdOf(r: Py): Py {
    match Get(r, "id")
    case Fine(v) => if Truth(v) then v else Str("")
    case Crash => Str("")
  }

  predicate RecordLe(r: Py, t: Py) { KeyLe(IdOf(r), IdOf(t)) }

  function SortRecords(rs: seq<Py>): Out<seq<Py>> {
    if (forall r | r in rs :: IsMap(r)) &&
       (|rs| <= 1 || (forall r | r in rs :: IsStr(IdOf(r))) || (forall r | r in rs :: IsNumber(IdOf(r))))
    then Fine(Sort(rs, RecordLe)) else Crash
  }

  function SortIds(vs: seq<Py>): Out<seq<Py>> {
    if |vs| <= 1 || (forall v | v in vs :: IsStr(v)) || (forall v | v in vs :: IsNumber(v))
    then Fine(Sort(vs, KeyLe)) else Crash
  }

  /** `d[k] = v` for a key the dict has. */
  function Replace(ks: seq<Key>, vs: seq<Py>, k: string, v: Py): (r: seq<Py>)
    ensures |r| == |vs|
  {
    if ks == [] || vs == [] then vs
    else if ks[0] == StrKey(k) then [v] + vs[1..] else [vs[0]] + Replace(ks[1..], vs[1..], k, v)
  }

  function NormalRecords(s: Py): Out<Py>
    requires s.Dict?
  {
    var per := Lookup(s.keys, s.vals, "per_site", NONE_VALUE);
    if !per.List? then Fine(s)
    else
      var sorted :- SortRecords(per.elems);
      Fine(Dict(s.keys, Replace(s.keys, s.vals, "per_site", List(sorted))))
  }

  function NormalUniverse(s: Py): Out<Py>
    requires s.Dict?
  {
    var uni := Lookup(s.keys, s.vals, "universe", NONE_VALUE);
    if !uni.Dict? then Fine(s)
    else
      var ids := Lookup(uni.keys, uni.vals, "site_ids", NONE_VALUE);
      if !ids.List? && !ids.Tuple? then Fine(s)
      else
        var sorted :- SortIds(ids.elems);
        var uni' := Dict(uni.keys, Replace(uni.keys, uni.vals, "site_ids", List(sorted)));
        Fine(Dict(s.keys, Replace(s.keys, s.vals, "universe", uni')))
  }

  /** `_normalize`: records sorted by id, site ids sorted. */
  function Normalize(state: Py, h: Host): Out<Py> {
    var s := Thaw(state, h);
    if !s.Dict? then Fine(s)
    else
      var t :- NormalRecords(s);
      NormalUniverse(t)
  }

  function CanonicalState(state: Py, h: Host): Out<Canon> {
    var n :- Normalize(state, h);
    Fine(Canonical(n, h))
  }

  function StateDigest(state: Py, h: Host, sha: Sha): Out<string> {
    var c :- CanonicalState(state, h);
    Fine(sha(c))
  }

  // ---------------------------------------------------------------- cache key

  const CACHE_KEY_FIELDS := [
    StrKey("staged_tree"), StrKey("source_content_token"), StrKey("policy_digest"), StrKey("category_table_digest"),
    StrKey("normalization_version"), StrKey("parser_schema_version"), StrKey("parser_completion"),
    StrKey("source_position_version"), StrKey("production_universe_digest"), StrKey("independent_universe_digest"),
    StrKey("state_schema_version"), StrKey("assertion_contract_digest"), StrKey("authorization_pair_digest")]

  /** Where a component of the key comes from; the contract digest is read from a file. */
  datatype Source = In(section: string, field: string) | Top(field: string) | Contract

  /** In the order of `CACHE_KEY_FIELDS`. */
  const KEY_SOURCES := [
    In("repository", "staged_tree"), In("repository", "source_content_token"), In("policy", "policy_digest"),
    In("policy", "category_table_digest"), In("policy", "normalization_version"), In("parser", "parser_schema_version"),
    In("parser", "parser_completion"), In("parser", "source_position_version"),
    In("universe", "production_universe_digest"), In("universe", "independent_universe_digest"),
    Top("schema_version"), Contract, In("authorization", "pair_digest")]

  function Component(s: Py, contract: string, source: Source): Out<Py> {
    match source
    case In(section, field) =>
      var x :- Item(s, section);
      Item(x, field)
    case Top(field) => Item(s, field)
    case Contract => Fine(Str(contract))
  }

  function Components(s: Py, contract: string, sources: seq<Source>): (r: Out<seq<Py>>)
    ensures r.Fine? ==> |r.value| == |sources|
  {
    if sources == [] then Fine([])
    else
      var x :- Component(s, contract, sources[0]);
      var xs :- Components(s, contract, sources[1..]);
      Fine([x] + xs)
  }

  predicate EmptyComponent(v: Py) { v == NONE_VALUE || v == Str("") }

  predicate AnyEmpty(vs: seq<Py>) { vs != [] && (EmptyComponent(vs[0]) || AnyEmpty(vs[1..])) }

  /** The form of named components; an empty one is an error, so a digest stands for a complete key. */
  function FormOf(names: seq<Key>, sources: seq<Source>, s: Py, contract: string, h: Host): Out<Canon> {
    var vs :- Components(s, contract, sources);
    if AnyEmpty(vs) then Crash else Fine(Canonical(Dict(names, vs), h))
  }

  function KeyForm(s: Py, contract: string, h: Host): Out<Canon> { FormOf(CACHE_KEY_FIELDS, KEY_SOURCES, s, contract, h) }

  function DigestOf(names: seq<Key>, sources: seq<Source>, s: Py, contract: string, h: Host, sha: Sha): Out<string> {
    var form :- FormOf(names, sources, s, contract, h);
    Fine(sha(form))
  }

  function KeyDigest(s: Py, contract: string, h: Host, sha: Sha): Out<string> {
    DigestOf(CACHE_KEY_FIELDS, KEY_SOURCES, s, contract, h, sha)
  }
}
