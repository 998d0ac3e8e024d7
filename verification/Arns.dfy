module Arns {
  // `arn_model`: parsing Amazon Resource Names into components and comparing them by component.

  import opened Common

  /** The text before the first `c`: all of it when there is none. */
  function Before(s: string, c: char): string {
    if s == "" || s[0] == c then "" else [s[0]] + Before(s[1..], c)
  }

  /** The text after the first `c`. */
  function After(s: string, c: char): (r: string)
    ensures s != "" ==> |r| < |s|
  {
    if s == "" then "" else if s[0] == c then s[1..] else After(s[1..], c)
  }

  /** `s.split(c, n)`. */
  function SplitN(s: string, c: char, n: nat): (r: seq<string>)
    ensures 1 <= |r| <= n + 1
    decreases n
  {
    if n == 0 || c !in s then [s] else [Before(s, c)] + SplitN(After(s, c), c, n - 1)
  }

  /** `s.split(c)`. */
  function Split(s: string, c: char): (r: seq<string>)
    ensures |r| >= 1
    decreases |s|
  {
    if c !in s then [s] else [Before(s, c)] + Split(After(s, c), c)
  }

  function Join(parts: seq<string>, c: char): string
    requires parts != []
  {
    if |parts| == 1 then parts[0] else parts[0] + [c] + Join(parts[1..], c)
  }

  lemma {:induction false} Cut(s: string, c: char)
    requires c in s
    ensures s == Before(s, c) + [c] + After(s, c) && c !in Before(s, c)
  {
    if s[0] != c {
      Cut(s[1..], c);
      assert s == [s[0]] + s[1..];
    }
  }

  lemma {:induction false} CutFirst(a: string, c: char, b: string)
    requires c !in a
    ensures c in a + [c] + b && Before(a + [c] + b, c) == a && After(a + [c] + b, c) == b
  {
    var s := a + [c] + b;
    assert s[|a|] == c;
    if a == "" {
      assert s == [c] + b;
    } else {
      assert s[1..] == a[1..] + [c] + b;
      CutFirst(a[1..], c, b);
    }
  }

  lemma {:induction false} JoinCons(x: string, parts: seq<string>, c: char)
    requires parts != []
    ensures Join([x] + parts, c) == x + [c] + Join(parts, c)
  {
    assert ([x] + parts)[1..] == parts;
  }

  lemma {:induction false} SplitNHead(s: string, c: char, n: nat)
    requires n > 0 && c in s
    ensures SplitN(s, c, n) == [Before(s, c)] + SplitN(After(s, c), c, n - 1)
  {
  }

  lemma {:induction false} Rejoin(s: string, c: char, rest: seq<string>)
    requires c in s && |rest| >= 1 && Join(rest, c) == After(s, c)
    ensures Join([Before(s, c)] + rest, c) == s
  {
    JoinCons(Before(s, c), rest, c);
    Cut(s, c);
  }

  lemma {:induction false} JoinSplitN(s: string, c: char, n: nat)
    ensures Join(SplitN(s, c, n), c) == s
    decreases n
  {
    if n > 0 && c in s {
      var tail := After(s, c);
      var rest := SplitN(tail, c, n - 1);
      JoinSplitN(tail, c, n - 1);
      SplitNHead(s, c, n);
      Rejoin(s, c, rest);
    }
  }

  /** All pieces but the last are free of the separator. */
  lemma {:induction false} SplitNClean(s: string, c: char, n: nat, i: nat)
    requires i < |SplitN(s, c, n)| - 1
    ensures c !in SplitN(s, c, n)[i]
    decreases n
  {
    if i > 0 { SplitNClean(After(s, c), c, n - 1, i - 1); } else { Cut(s, c); }
  }

  lemma {:induction false} JoinSplit(s: string, c: char)
    ensures Join(Split(s, c), c) == s
    ensures forall p | p in Split(s, c) :: c !in p
    decreases |s|
  {
    if c in s {
      Cut(s, c);
      JoinSplit(After(s, c), c);
      Rejoin(s, c, Split(After(s, c), c));
    }
  }

  lemma {:induction false} SplitJoin(parts: seq<string>, c: char)
    requires parts != [] && forall p | p in parts :: c !in p
    ensures Split(Join(parts, c), c) == parts
    decreases parts
  {
    if |parts| > 1 {
      CutFirst(parts[0], c, Join(parts[1..], c));
      SplitJoin(parts[1..], c);
    }
  }

  lemma {:induction false} SplitNStep(x: string, rest: seq<string>, c: char, n: nat)
    requires rest != [] && c !in x && n > 0 && SplitN(Join(rest, c), c, n - 1) == rest
    ensures SplitN(Join([x] + rest, c), c, n) == [x] + rest
  {
    JoinCons(x, rest, c);
    CutFirst(x, c, Join(rest, c));
  }

  ghost predicate FreeBefore(parts: seq<string>, c: char, n: nat)
    requires n <= |parts|
  {
    forall i | 0 <= i < n :: c !in parts[i]
  }

  lemma {:induction false} FreeTail(parts: seq<string>, c: char, n: nat)
    requires 0 < n <= |parts| && FreeBefore(parts, c, n)
    ensures c !in parts[0] && FreeBefore(parts[1..], c, n - 1)
  {
    forall i | 0 <= i < n - 1 ensures c !in parts[1..][i] { assert parts[1..][i] == parts[i + 1]; }
  }

  lemma {:induction false} SplitNJoin(parts: seq<string>, c: char, n: nat)
    requires |parts| == n + 1 && FreeBefore(parts, c, n)
    ensures SplitN(Join(parts, c), c, n) == parts
    decreases n
  {
    if n > 0 {
      FreeTail(parts, c, n);
      SplitNJoin(parts[1..], c, n - 1);
      SplitNStep(parts[0], parts[1..], c, n);
      assert [parts[0]] + parts[1..] == parts;
    }
  }

  // ---------------------------------------------------------------- parsing

  datatype Separator = NoSeparator | Colon | Slash

  datatype Arn = Arn(partition: string, service: string, region: string, account: string, resourceType: string,
                     resourceId: string, separator: Separator, path: seq<string>)

  datatype Malformed = NotSixSegments | EmptyPartition | EmptyService

  const TYPELESS := ["s3"]
  const COLON_SEPARATED := ["secretsmanager", "rds", "cloudwatch", "sns", "sqs", "logs"]

  datatype Resource = Resource(rtype: string, id: string, separator: Separator, path: seq<string>)

  /** The resource segment, under the separator convention of the service. */
  function ParseResource(service: string, resource: string): Resource {
    if service in TYPELESS then Resource("", resource, NoSeparator, [])
    else if service in COLON_SEPARATED && ':' in resource then
      Resource(Before(resource, ':'), After(resource, ':'), Colon, [])
    else if '/' in resource then
      var segments := Split(After(resource, '/'), '/');
      Resource(Before(resource, '/'), segments[|segments| - 1], Slash, segments[..|segments| - 1])
    else if ':' in resource then
      Resource(Before(resource, ':'), After(resource, ':'), Colon, [])
    else Resource("", resource, NoSeparator, [])
  }

  function Parse(arn: string): Result<Arn, Malformed> {
    var parts := SplitN(arn, ':', 5);
    if |parts| != 6 || parts[0] != "arn" then Err(NotSixSegments)
    else if parts[1] == "" then Err(EmptyPartition)
    else if parts[2] == "" then Err(EmptyService)
    else
      var r := ParseResource(parts[2], parts[5]);
      Ok(Arn(parts[1], parts[2], parts[3], parts[4], r.rtype, r.id, r.separator, r.path))
  }

  datatype Part = Text(text: string) | Mark(separator: Separator) | Segments(path: seq<string>)

  function Components(a: Arn): (cs: seq<(string, Part)>)
    ensures |cs| == 8
  {
    [("partition", Text(a.partition)), ("service", Text(a.service)), ("region", Text(a.region)),
     ("account", Text(a.account)), ("resource_type", Text(a.resourceType)), ("resource_id", Text(a.resourceId)),
     ("separator", Mark(a.separator)), ("path", Segments(a.path))]
  }

  lemma {:induction false} ComponentsDetermine(a: Arn, b: Arn)
    ensures (forall k | 0 <= k < 8 :: Components(a)[k].1 == Components(b)[k].1) <==> a == b
  {
    var xs, ys := Components(a), Components(b);
    if forall k | 0 <= k < 8 :: xs[k].1 == ys[k].1 {
      assert xs[0].1 == ys[0].1 && xs[1].1 == ys[1].1 && xs[2].1 == ys[2].1 && xs[3].1 == ys[3].1;
      assert xs[4].1 == ys[4].1 && xs[5].1 == ys[5].1 && xs[6].1 == ys[6].1 && xs[7].1 == ys[7].1;
    }
  }

  /** The places, in order, are those where the two lists have different parts, and `out` are the names there. */
  ghost predicate NamedBy(out: seq<string>, places: seq<nat>, xs: seq<(string, Part)>, ys: seq<(string, Part)>)
    requires |xs| == |ys|
  {
    && |out| == |places| && (forall i, j | 0 <= i < j < |places| :: places[i] < places[j])
    && (forall k: nat :: k in places <==> k < |xs| && xs[k].1 != ys[k].1)
    && forall k | 0 <= k < |out| :: places[k] in places && out[k] == xs[places[k]].0
  }

  lemma {:induction false} NamedNext(out: seq<string>, places: seq<nat>, xs: seq<(string, Part)>, ys: seq<(string, Part)>, i: nat)
    requires i < |xs| == |ys| && NamedBy(out, places, xs[..i], ys[..i])
    ensures xs[i].1 != ys[i].1 ==> NamedBy(out + [xs[i].0], places + [i], xs[..i + 1], ys[..i + 1])
    ensures xs[i].1 == ys[i].1 ==> NamedBy(out, places, xs[..i + 1], ys[..i + 1])
  {
    assert forall k | 0 <= k < |places| :: places[k] in places && places[k] < i;
  }

  method NamesUnlike(mine: seq<(string, Part)>, theirs: seq<(string, Part)>) returns (out: seq<string>, ghost places: seq<nat>)
    requires |mine| == |theirs|
    ensures NamedBy(out, places, mine, theirs)
  {
    out, places := [], [];
    for i := 0 to |mine|
      invariant NamedBy(out, places, mine[..i], theirs[..i])
    {
      NamedNext(out, places, mine, theirs, i);
      if mine[i].1 != theirs[i].1 { out, places := out + [mine[i].0], places + [i]; }
    }
    assert mine[..|mine|] == mine && theirs[..|mine|] == theirs;
  }

  /** The components that disagree, by name and in order. */
  method DiffersFrom(a: Arn, b: Arn) returns (out: seq<string>)
    ensures out == [] <==> a == b
    ensures exists places :: NamedBy(out, places, Components(a), Components(b))
  {
    ghost var places;
    out, places := NamesUnlike(Components(a), Components(b));
    NothingUnlike(out, places, a, b);
  }

  lemma {:induction false} NothingUnlike(out: seq<string>, places: seq<nat>, a: Arn, b: Arn)
    requires NamedBy(out, places, Components(a), Components(b))
    ensures out == [] <==> a == b
  {
    ComponentsDetermine(a, b);
    var xs, ys := Components(a), Components(b);
    if out == [] {
      forall k | 0 <= k < 8 ensures xs[k].1 == ys[k].1 { assert k !in places; }
    } else {
      assert places[0] in places;
    }
  }

  datatype Verdict = MATCH | MISMATCH | MALFORMED

  // ---------------------------------------------------------------- rendering

  function RenderResource(r: Resource): string {
    match r.separator
    case NoSeparator => r.id
    case Colon => r.rtype + ":" + r.id
    case Slash => r.rtype + "/" + Join(r.path + [r.id], '/')
  }

  function ResourceOf(a: Arn): Resource { Resource(a.resourceType, a.resourceId, a.separator, a.path) }

  function Render(a: Arn): string {
    Join(["arn", a.partition, a.service, a.region, a.account, RenderResource(ResourceOf(a))], ':')
  }

  lemma {:induction false} SlashRendered(resource: string)
    requires '/' in resource
    ensures var segments := Split(After(resource, '/'), '/');
            Before(resource, '/') + "/" + Join(segments[..|segments| - 1] + [segments[|segments| - 1]], '/') == resource &&
            forall p | p in segments :: '/' !in p
  {
    Cut(resource, '/');
    var rest := After(resource, '/');
    JoinSplit(rest, '/');
    InitAndLast(Split(rest, '/'));
  }

  lemma {:induction false} InitAndLast(segments: seq<string>)
    requires segments != []
    ensures segments[..|segments| - 1] + [segments[|segments| - 1]] == segments
  {
  }

  lemma {:induction false} ResourceRendered(service: string, resource: string)
    ensures RenderResource(ParseResource(service, resource)) == resource
  {
    if ':' in resource { Cut(resource, ':'); }
    if '/' in resource { SlashRendered(resource); }
  }

  /** Parsing loses nothing: the components spell the name they came from. */
  lemma {:induction false} ParseRendered(arn: string)
    requires Parse(arn).Ok?
    ensures Render(Parse(arn).value) == arn
  {
    var parts := SplitN(arn, ':', 5);
    JoinSplitN(arn, ':', 5);
    RenderFrom(parts);
  }

  lemma {:induction false} RenderFrom(parts: seq<string>)
    requires |parts| == 6 && parts[0] == "arn"
    ensures var r := ParseResource(parts[2], parts[5]);
            Render(Arn(parts[1], parts[2], parts[3], parts[4], r.rtype, r.id, r.separator, r.path)) == Join(parts, ':')
  {
    var r := ParseResource(parts[2], parts[5]);
    ResourceRendered(parts[2], parts[5]);
    assert ["arn", parts[1], parts[2], parts[3], parts[4], RenderResource(r)] == parts;
  }

  /** A name and its components determine each other, so a single changed character is a mismatch. */
  method Compare(expected: string, actual: string) returns (verdict: Verdict)
    ensures verdict == MALFORMED <==> Parse(expected).Err? || Parse(actual).Err?
    ensures verdict == MATCH <==> Parse(expected).Ok? && expected == actual
  {
    var left, right := Parse(expected), Parse(actual);
    if left.Err? || right.Err? { return MALFORMED; }
    ParseRendered(expected);
    ParseRendered(actual);
    var differences := DiffersFrom(left.value, right.value);
    verdict := if differences == [] then MATCH else MISMATCH;
  }

  // ---------------------------------------------------------------- well-formed components

  /** Names of this service have no resource type. */
  predicate Typeless(service: string) { service == "s3" }

  /** Services that put a colon between the type and the id, even if the id has slashes. */
  predicate ByColon(service: string) {
    || service == "secretsmanager" || service == "rds" || service == "cloudwatch"
    || service == "sns" || service == "sqs" || service == "logs"
  }

  lemma {:induction false} ServicesExactly(service: string)
    ensures service in TYPELESS <==> Typeless(service)
    ensures service in COLON_SEPARATED <==> ByColon(service)
  {
    var all := COLON_SEPARATED;
    if ByColon(service) {
      assert service == all[0] || service == all[1] || service == all[2] || service == all[3] || service == all[4] ||
             service == all[5];
    }
    assert TYPELESS[0] == "s3";
  }

  /** The components respect the separator convention of their service. */
  predicate Conventional(service: string, r: Resource) {
    match r.separator
    case NoSeparator => r.rtype == "" && r.path == [] && (Typeless(service) || (':' !in r.id && '/' !in r.id))
    case Colon =>
      && !Typeless(service) && r.path == [] && ':' !in r.rtype
      && (ByColon(service) || ('/' !in r.rtype && '/' !in r.id))
    case Slash =>
      && !Typeless(service) && '/' !in r.rtype && (forall p | p in r.path + [r.id] :: '/' !in p)
      && (ByColon(service) ==> ':' !in RenderResource(r))
  }

  predicate WellFormed(a: Arn) {
    && a.partition != "" && a.service != ""
    && ':' !in a.partition && ':' !in a.service && ':' !in a.region && ':' !in a.account
    && Conventional(a.service, ResourceOf(a))
  }

  lemma {:induction false} ResourceParsed(service: string, r: Resource)
    requires Conventional(service, r)
    ensures ParseResource(service, RenderResource(r)) == r
  {
    ServicesExactly(service);
    var text := RenderResource(r);
    match r.separator {
      case NoSeparator =>
      case Colon => ColonParsed(service, r);
      case Slash =>
        var rest := Join(r.path + [r.id], '/');
        assert text == r.rtype + ['/'] + rest;
        CutFirst(r.rtype, '/', rest);
        SplitJoin(r.path + [r.id], '/');
        assert '/' in text;
        assert (r.path + [r.id])[..|r.path|] == r.path;
    }
  }

  lemma {:induction false} ColonParsed(service: string, r: Resource)
    requires Conventional(service, r) && r.separator == Colon
    ensures ParseResource(service, RenderResource(r)) == r
  {
    ServicesExactly(service);
    var text := RenderResource(r);
    assert text == r.rtype + [':'] + r.id;
    CutFirst(r.rtype, ':', r.id);
    assert ':' in text;
    if service !in COLON_SEPARATED { assert '/' !in text; }
  }

  /** Parsing a rendered tuple of well-formed components gives the tuple back. */
  lemma {:induction false} RenderParsed(a: Arn)
    requires WellFormed(a)
    ensures Parse(Render(a)) == Ok(a)
  {
    var parts := ["arn", a.partition, a.service, a.region, a.account, RenderResource(ResourceOf(a))];
    SplitNJoin(parts, ':', 5);
    ResourceParsed(a.service, ResourceOf(a));
  }

  lemma {:induction false} ResourceConventional(service: string, resource: string)
    ensures Conventional(service, ParseResource(service, resource))
  {
    ServicesExactly(service);
    if service !in TYPELESS {
      if service in COLON_SEPARATED && ':' in resource {
        Cut(resource, ':');
      } else if '/' in resource {
        SlashConventional(service, resource);
      } else if ':' in resource {
        Cut(resource, ':');
      }
    }
  }

  lemma {:induction false} SlashConventional(service: string, resource: string)
    requires !Typeless(service) && '/' in resource && (ByColon(service) ==> ':' !in resource)
    ensures Conventional(service, ParseResource(service, resource))
  {
    ServicesExactly(service);
    SlashRendered(resource);
    Cut(resource, '/');
    var r := ParseResource(service, resource);
    InitAndLast(Split(After(resource, '/'), '/'));
    if service in COLON_SEPARATED { ResourceRendered(service, resource); }
  }

  /** The well-formed component tuples are exactly those that parsing produces. */
  lemma {:induction false} WellFormedExactly(a: Arn)
    ensures WellFormed(a) <==> exists arn :: Parse(arn) == Ok(a)
  {
    if WellFormed(a) {
      RenderParsed(a);
    } else if exists arn :: Parse(arn) == Ok(a) {
      var arn :| Parse(arn) == Ok(a);
      var parts := SplitN(arn, ':', 5);
      forall i: nat | i < 5 ensures ':' !in parts[i] { SplitNClean(arn, ':', 5, i); }
      ResourceConventional(parts[2], parts[5]);
    }
  }
}
