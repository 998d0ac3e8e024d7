/**
 What the words that `_command_words` reports are words of: the stretches of a line between separators,
 the stretches of those between spaces, what precedes the command, and the quotes around it.
 */
module CommandPieces {
  import opened Common
  import opened ExecGrammar
  import opened ExecScan
  import opened CommandWords

  // ---------------------------------------------------------------- stretches

  type Span = (nat, nat)

  ghost predicate InSpan(s: Span, i: nat) { s.0 <= i < s.1 }

  ghost predicate InSome(spans: seq<Span>, i: nat) { exists k | 0 <= k < |spans| :: InSpan(spans[k], i) }

  /** The longest stretches from `from` to `n` without a position that is cut: all of them, in order, none of them empty. */
  ghost predicate Stretches(cut: nat -> bool, from: nat, n: nat, spans: seq<Span>) {
    && (forall k | 0 <= k < |spans| :: from <= spans[k].0 < spans[k].1 <= n)
    && (forall k, l | 0 <= k < l < |spans| :: spans[k].1 < spans[l].0)
    && forall i: nat | from <= i < n :: InSome(spans, i) <==> !cut(i)
  }

  function Slices(s: string, spans: seq<Span>): seq<string>
    requires forall k | 0 <= k < |spans| :: spans[k].0 <= spans[k].1 <= |s|
  {
    if spans == [] then [] else [s[spans[0].0..spans[0].1]] + Slices(s, spans[1..])
  }

  lemma {:induction false} InSomeCons(span: Span, spans: seq<Span>, i: nat)
    ensures InSome([span] + spans, i) <==> InSpan(span, i) || InSome(spans, i)
  {
    var all := [span] + spans;
    if InSpan(span, i) { assert InSpan(all[0], i); }
    if InSome(spans, i) {
      var k :| 0 <= k < |spans| && InSpan(spans[k], i);
      assert all[k + 1] == spans[k];
    }
    if InSome(all, i) {
      var k :| 0 <= k < |all| && InSpan(all[k], i);
      if k > 0 { assert all[k] == spans[k - 1]; }
    }
  }

  /** What has been collected since `a`, as a stretch if there is anything. */
  function Collected(a: nat, i: nat): seq<Span> { if a < i then [(a, i)] else [] }

  lemma {:induction false} StretchesEnd(cut: nat -> bool, a: nat, n: nat)
    requires a <= n && forall i: nat | a <= i < n :: !cut(i)
    ensures Stretches(cut, a, n, Collected(a, n))
  {
    forall i: nat | a <= i < n ensures InSome(Collected(a, n), i) { assert InSpan(Collected(a, n)[0], i); }
  }

  /** A cut from `i` to `j` ends the stretch that started at `a`. */
  lemma {:induction false} StretchesCut(cut: nat -> bool, a: nat, i: nat, j: nat, n: nat, spans: seq<Span>)
    requires a <= i < j <= n && Stretches(cut, j, n, spans)
    requires (forall p: nat | a <= p < i :: !cut(p)) && forall p: nat | i <= p < j :: cut(p)
    ensures Stretches(cut, a, n, Collected(a, i) + spans)
  {
    var all := Collected(a, i) + spans;
    forall p: nat ensures InSome(all, p) <==> (a <= p < i) || InSome(spans, p) {
      if a < i { InSomeCons((a, i), spans, p); } else { assert all == spans; }
    }
    forall k, l | 0 <= k < l < |all| ensures all[k].1 < all[l].0 {
      if a < i && k == 0 { assert all[l] == spans[l - 1]; }
    }
  }

  lemma {:induction false} SlicesCut(s: string, a: nat, i: nat, spans: seq<Span>)
    requires a <= i <= |s| && forall k | 0 <= k < |spans| :: spans[k].0 <= spans[k].1 <= |s|
    ensures forall k | 0 <= k < |Collected(a, i) + spans| ::
              (Collected(a, i) + spans)[k].0 <= (Collected(a, i) + spans)[k].1 <= |s|
    ensures Slices(s, Collected(a, i) + spans) == Full(s[a..i]) + Slices(s, spans)
  {
    if a < i {
      assert ([(a, i)] + spans)[1..] == spans;
    } else {
      assert Collected(a, i) + spans == spans;
    }
  }

  // ---------------------------------------------------------------- pieces of a line

  /** A separator: one of eight characters, or the start of a substitution. */
  predicate Separator(line: string, i: nat)
    requires i < |line|
  {
    || line[i] == '|' || line[i] == ';' || line[i] == '&' || line[i] == '(' || line[i] == ')' || line[i] == '{'
    || line[i] == '}' || line[i] == '`' || Dollar(line, i)
  }

  /** `$` before `(`. */
  predicate Dollar(line: string, i: nat) { i + 1 < |line| && line[i] == '$' && line[i + 1] == '(' }

  /** The line is cut here: at a separator outside quotes, and inside double quotes where a substitution starts. */
  predicate CutHere(line: string, i: nat) {
    i < |line| &&
    match QuoteAt(line, i)
    case None => Separator(line, i)
    case Some(q) => q == '"' && (line[i] == '`' || Dollar(line, i) || (i > 0 && Dollar(line, i - 1)))
  }

  function LineCuts(line: string): nat -> bool { (p: nat) => CutHere(line, p) }

  function NonEmpty(ts: seq<string>): seq<string> { if ts == [] then [] else Full(ts[0]) + NonEmpty(ts[1..]) }

  lemma {:induction false} QuoteNext(line: string, i: nat)
    requires i < |line|
    ensures QuoteAt(line, i + 1) ==
            match QuoteAt(line, i)
            case Some(q) => if line[i] == q then None else Some(q)
            case None => if IsQuote(line[i]) then Some(line[i]) else None
  {
  }

  lemma {:induction false} OnlyQuotes(line: string, i: nat)
    requires i <= |line| && QuoteAt(line, i).Some?
    ensures IsQuote(QuoteAt(line, i).value)
  {
    if i > 0 && QuoteAt(line, i - 1).Some? { OnlyQuotes(line, i - 1); }
  }

  /** A turn never starts inside `$(`, except between single quotes. */
  ghost predicate TurnStart(line: string, i: nat)
    requires i <= |line|
  {
    i > 0 && Dollar(line, i - 1) ==> QuoteAt(line, i) == Some('\'')
  }

  /** One turn of the loop, in terms of the positions of the line. */
  lemma {:induction false} TurnCuts(line: string, i: nat, buf: string)
    requires i < |line| && TurnStart(line, i)
    ensures var r := TokenTurn(line[i..], buf, QuoteAt(line, i));
      && i + r.width <= |line| && r.quote == QuoteAt(line, i + r.width) && TurnStart(line, i + r.width)
      && (r.complete ==> r.buf == "" && forall p: nat | i <= p < i + r.width :: CutHere(line, p))
      && (!r.complete ==> r.width == 1 && r.buf == buf + [line[i]] && !CutHere(line, i))
  {
    var rest := line[i..];
    assert rest[0] == line[i] && (|rest| > 1 ==> rest[1] == line[i + 1]);
    QuoteNext(line, i);
    if QuoteAt(line, i).Some? { OnlyQuotes(line, i); }
    assert Opens(rest) <==> Dollar(line, i);
    var r := TokenTurn(rest, buf, QuoteAt(line, i));
    if r.width == 2 { QuoteNext(line, i + 1); }
  }

  lemma {:induction false} NonEmptyCons(t: string, ts: seq<string>)
    ensures NonEmpty([t] + ts) == Full(t) + NonEmpty(ts)
  {
    assert ([t] + ts)[1..] == ts;
  }

  lemma {:induction false} PieceLast(line: string, a: nat)
    requires a <= |line| && forall p: nat | a <= p < |line| :: !CutHere(line, p)
    ensures Stretches(LineCuts(line), a, |line|, Collected(a, |line|))
    ensures NonEmpty([line[a..]]) == Slices(line, Collected(a, |line|))
  {
    StretchesEnd(LineCuts(line), a, |line|);
    SlicesCut(line, a, |line|, []);
    assert Collected(a, |line|) + [] == Collected(a, |line|) && [line[a..]] + [] == [line[a..]];
    assert line[a..|line|] == line[a..];
    NonEmptyCons(line[a..], []);
  }

  lemma {:induction false} TokensAt(line: string, i: nat, buf: string, quote: Option<char>)
    requires i < |line|
    ensures var r := TokenTurn(line[i..], buf, quote);
      Tokens(line[i..], buf, quote) ==
      if r.complete then [buf] + Tokens(line[i + r.width..], r.buf, r.quote) else Tokens(line[i + r.width..], r.buf, r.quote)
  {
    var r := TokenTurn(line[i..], buf, quote);
    assert line[i..][r.width..] == line[i + r.width..];
    assert [] + Tokens(line[i + r.width..], r.buf, r.quote) == Tokens(line[i + r.width..], r.buf, r.quote);
  }

  /** The pieces from position `i` on, when the current one started at `a`. */
  ghost function Coming(line: string, a: nat, i: nat): seq<string>
    requires a <= i <= |line|
  {
    Tokens(line[i..], line[a..i], QuoteAt(line, i))
  }

  /** These are the stretches of the line from `a` on, and the pieces that are still to come but for empty ones. */
  ghost predicate Cuts(line: string, a: nat, i: nat, spans: seq<Span>)
    requires a <= i <= |line|
  {
    Stretches(LineCuts(line), a, |line|, spans) &&
    NonEmpty(Coming(line, a, i)) == Slices(line, spans)
  }

  ghost predicate Uncut(line: string, a: nat, i: nat) { forall p: nat | a <= p < i :: !CutHere(line, p) }

  /** A turn that completes a piece. */
  lemma {:induction false} CutsDone(line: string, a: nat, i: nat, j: nat, later: seq<Span>)
    requires a <= i < j <= |line| && Uncut(line, a, i) && forall p: nat | i <= p < j :: CutHere(line, p)
    requires Coming(line, a, i) == [line[a..i]] + Coming(line, j, j) && Cuts(line, j, j, later)
    ensures Cuts(line, a, i, Collected(a, i) + later)
  {
    StretchesCut(LineCuts(line), a, i, j, |line|, later);
    SlicesCut(line, a, i, later);
    NonEmptyCons(line[a..i], Coming(line, j, j));
  }

  lemma {:induction false} CutsOn(line: string, a: nat, i: nat, spans: seq<Span>)
    requires a <= i < |line| && Cuts(line, a, i + 1, spans)
    requires Coming(line, a, i) == Coming(line, a, i + 1)
    ensures Cuts(line, a, i, spans)
  {
  }

  lemma {:induction false} TurnTokens(line: string, i: nat, buf: string) returns (done: bool, j: nat)
    requires i < |line| && TurnStart(line, i)
    ensures i < j <= |line| && TurnStart(line, j)
    ensures done ==> Tokens(line[i..], buf, QuoteAt(line, i)) == [buf] + Tokens(line[j..], "", QuoteAt(line, j))
    ensures done ==> forall p: nat | i <= p < j :: CutHere(line, p)
    ensures !done ==> Tokens(line[i..], buf, QuoteAt(line, i)) == Tokens(line[j..], buf + [line[i]], QuoteAt(line, j))
    ensures !done ==> j == i + 1 && !CutHere(line, i)
  {
    var r := TokenTurn(line[i..], buf, QuoteAt(line, i));
    done, j := r.complete, i + r.width;
    TurnCuts(line, i, buf);
    assert TurnStart(line, j);
    TokensAt(line, i, buf, QuoteAt(line, i));
  }

  /** One turn: either the positions up to `j` are cut and the piece is done, or the character belongs to it. */
  lemma {:induction false} Turning(line: string, a: nat, i: nat) returns (done: bool, j: nat)
    requires a <= i < |line| && TurnStart(line, i)
    ensures i < j <= |line| && TurnStart(line, j)
    ensures done ==> Coming(line, a, i) == [line[a..i]] + Coming(line, j, j) && forall p: nat | i <= p < j :: CutHere(line, p)
    ensures !done ==> Coming(line, a, i) == Coming(line, a, j) && j == i + 1 && !CutHere(line, i)
  {
    done, j := TurnTokens(line, i, line[a..i]);
    if done { ComingDone(line, a, i, j); } else { ComingOn(line, a, i); }
  }

  lemma {:induction false} ComingDone(line: string, a: nat, i: nat, j: nat)
    requires a <= i <= j <= |line|
    requires Tokens(line[i..], line[a..i], QuoteAt(line, i)) == [line[a..i]] + Tokens(line[j..], "", QuoteAt(line, j))
    ensures Coming(line, a, i) == [line[a..i]] + Coming(line, j, j)
  {
    assert line[j..j] == "";
  }

  lemma {:induction false} ComingOn(line: string, a: nat, i: nat)
    requires a <= i < |line|
    requires Tokens(line[i..], line[a..i], QuoteAt(line, i)) ==
             Tokens(line[i + 1..], line[a..i] + [line[i]], QuoteAt(line, i + 1))
    ensures Coming(line, a, i) == Coming(line, a, i + 1)
  {
    assert line[a..i] + [line[i]] == line[a..i + 1];
  }

  lemma {:induction false} CutsLast(line: string, a: nat)
    requires a <= |line| && Uncut(line, a, |line|)
    ensures Cuts(line, a, |line|, Collected(a, |line|))
  {
    PieceLast(line, a);
    assert line[a..|line|] == line[a..] && line[|line|..] == "";
  }

  lemma {:induction false} PiecesFrom(line: string, a: nat, i: nat) returns (spans: seq<Span>)
    requires a <= i <= |line| && TurnStart(line, i) && Uncut(line, a, i)
    ensures Cuts(line, a, i, spans)
    decreases |line| - i
  {
    if i == |line| {
      CutsLast(line, a);
      spans := Collected(a, i);
    } else {
      var done, j := Turning(line, a, i);
      if done {
        var later := PiecesFrom(line, j, j);
        spans := Collected(a, i) + later;
        CutsDone(line, a, i, j, later);
      } else {
        spans := PiecesFrom(line, a, j);
        CutsOn(line, a, i, spans);
      }
    }
  }

  lemma {:induction false} NothingReported(tokens: seq<string>)
    ensures Reports(tokens) == Reports(NonEmpty(tokens))
  {
    if tokens != [] {
      NothingReported(tokens[1..]);
      if tokens[0] == "" {
        assert Report(SplitWords("", "")) == [];
        assert Full("") + NonEmpty(tokens[1..]) == NonEmpty(tokens[1..]);
      } else {
        assert ([tokens[0]] + NonEmpty(tokens[1..]))[1..] == NonEmpty(tokens[1..]);
      }
    }
  }

  /** What is reported about a line is what its stretches between separators report. */
  lemma {:induction false} PiecesExactly(line: string) returns (spans: seq<Span>)
    ensures Stretches(LineCuts(line), 0, |line|, spans)
    ensures Reports(Tokens(line, "", None)) == Reports(Slices(line, spans))
  {
    spans := PiecesFrom(line, 0, 0);
    assert line[0..] == line && line[0..0] == "";
    NothingReported(Tokens(line, "", None));
  }

  // ---------------------------------------------------------------- words of a piece

  function SpaceCuts(s: string): nat -> bool { (p: nat) => p < |s| && IsSpace(s[p]) }

  /** The words from position `i` on, when the current one started at `a`. */
  lemma {:induction false} WordsFrom(s: string, a: nat, i: nat) returns (spans: seq<Span>)
    requires a <= i <= |s| && forall p: nat | a <= p < i :: !IsSpace(s[p])
    ensures Stretches(SpaceCuts(s), a, |s|, spans)
    ensures SplitWords(s[i..], s[a..i]) == Slices(s, spans)
    decreases |s| - i
  {
    var cut := SpaceCuts(s);
    if i == |s| {
      spans := Collected(a, i);
      StretchesEnd(cut, a, i);
      SlicesCut(s, a, i, []);
      assert Collected(a, i) + [] == Collected(a, i);
    } else if IsSpace(s[i]) {
      var later := WordsFrom(s, i + 1, i + 1);
      assert s[i..][1..] == s[i + 1..] && s[i + 1..i + 1] == "";
      spans := Collected(a, i) + later;
      StretchesCut(cut, a, i, i + 1, |s|, later);
      SlicesCut(s, a, i, later);
    } else {
      assert s[i..][1..] == s[i + 1..] && s[a..i] + [s[i]] == s[a..i + 1];
      spans := WordsFrom(s, a, i + 1);
    }
  }

  /** The words of a piece are its stretches between spaces. */
  lemma {:induction false} WordsExactly(s: string) returns (spans: seq<Span>)
    ensures Stretches(SpaceCuts(s), 0, |s|, spans)
    ensures SplitWords(s, "") == Slices(s, spans)
  {
    spans := WordsFrom(s, 0, 0);
    assert s[0..] == s && s[0..0] == "";
  }

  // ---------------------------------------------------------------- before and around the command

  /** A word that the shell reads before a command. */
  predicate Reserved(w: string) {
    || w == "if" || w == "then" || w == "else" || w == "elif" || w == "do" || w == "while" || w == "until" || w == "!"
    || w == "time" || w == "case" || w == "esac" || w == "in" || w == "for" || w == "done" || w == "fi" || w == "select"
    || w == "function"
  }

  /** `NAME=...`, where the name has letters, digits and `_` and does not start with a digit. */
  ghost predicate Assigns(w: string) {
    exists n | 0 < n < |w| :: w[n] == '=' && !Digit(w[0]) && forall i | 0 <= i < n :: NameChar(w[i])
  }

  lemma {:induction false} AfterNameAt(w: string)
    ensures var n := |w| - |AfterName(w)|;
      && 0 <= n && AfterName(w) == w[n..] && (forall i | 0 <= i < n :: NameChar(w[i])) && (n < |w| ==> !NameChar(w[n]))
  {
    if w != "" && NameChar(w[0]) { AfterNameAt(w[1..]); }
  }

  lemma {:induction false} AssignsExactly(w: string)
    ensures IsAssignment(w) <==> Assigns(w)
  {
    if w != "" {
      AfterNameAt(w[1..]);
      var n := |w| - |AfterName(w[1..])|;
      forall i | 0 < i < n ensures NameChar(w[i]) { assert w[i] == w[1..][i - 1]; }
      if n < |w| { assert w[n] == w[1..][n - 1] && !NameChar(w[n]) && AfterName(w[1..])[0] == w[n]; }
      if IsAssignment(w) { assert w[n] == '='; }
      if Assigns(w) {
        var m :| 0 < m < |w| && w[m] == '=' && !Digit(w[0]) && forall i | 0 <= i < m :: NameChar(w[i]);
        assert m == n;
      }
    }
  }

  ghost predicate Skipped(w: string) { Assigns(w) || Reserved(w) }

  lemma {:induction false} SkippedExactly(w: string)
    ensures Prefix(w) <==> Skipped(w)
  {
    AssignsExactly(w);
  }

  /** What is skipped before the command: the assignments and reserved words up to the first word that is neither. */
  lemma {:induction false} PrefixExactly(parts: seq<string>)
    ensures var n := |parts| - |AfterPrefix(parts)|;
      0 <= n && AfterPrefix(parts) == parts[n..] && (forall i | 0 <= i < n :: Skipped(parts[i])) &&
      (n < |parts| ==> !Skipped(parts[n]))
  {
    if parts != [] {
      SkippedExactly(parts[0]);
      if Prefix(parts[0]) { PrefixExactly(parts[1..]); }
    }
  }

  predicate Quotes(s: string) { forall c | c in s :: c == '"' || c == '\'' }

  ghost predicate Around(w: string, p: string, r: string, q: string) { Quotes(p) && Quotes(q) && w == p + r + q }

  /** What is left when the quotes at both ends are taken off. */
  ghost predicate Unquoted(w: string, r: string) {
    (exists p, q :: Around(w, p, r, q)) && (r != "" ==> !IsQuote(r[0]) && !IsQuote(r[|r| - 1]))
  }

  lemma {:induction false} AroundLeft(w: string, r: string)
    requires w != "" && IsQuote(w[0]) && Unquoted(w[1..], r)
    ensures Unquoted(w, r)
  {
    var p, q :| Around(w[1..], p, r, q);
    assert w == [w[0]] + w[1..] && [w[0]] + (p + r + q) == ([w[0]] + p) + r + q;
    assert Around(w, [w[0]] + p, r, q);
  }

  lemma {:induction false} AroundRight(w: string, r: string)
    requires w != "" && IsQuote(w[|w| - 1]) && Unquoted(w[..|w| - 1], r)
    ensures Unquoted(w, r)
  {
    var p, q :| Around(w[..|w| - 1], p, r, q);
    var last := [w[|w| - 1]];
    assert w == w[..|w| - 1] + last && (p + r + q) + last == p + r + (q + last);
    assert Around(w, p, r, q + last);
  }

  lemma {:induction false} StripQuotesExactly(w: string)
    ensures Unquoted(w, StripQuotes(w))
    decreases |w|
  {
    if w != "" && IsQuote(w[0]) {
      StripQuotesExactly(w[1..]);
      AroundLeft(w, StripQuotes(w[1..]));
    } else if w != "" && IsQuote(w[|w| - 1]) {
      StripQuotesExactly(w[..|w| - 1]);
      AroundRight(w, StripQuotes(w[..|w| - 1]));
    } else {
      assert Around(w, "", w, "");
    }
  }

  lemma {:induction false} QuotesPart(s: string, i: nat, j: nat)
    requires Quotes(s) && i <= j <= |s|
    ensures Quotes(s[i..j])
  {
    assert forall c | c in s[i..j] :: c in s;
  }

  lemma {:induction false} AroundHead(w: string, p: string, r: string, q: string)
    requires Around(w, p, r, q) && p != ""
    ensures w != "" && IsQuote(w[0]) && Around(w[1..], p[1..], r, q)
  {
    assert w[0] == p[0] && p[0] in p && w[1..] == p[1..] + r + q;
    QuotesPart(p, 1, |p|);
    assert p[1..] == p[1..|p|];
  }

  lemma {:induction false} AroundLast(w: string, p: string, r: string, q: string)
    requires Around(w, p, r, q) && q != ""
    ensures w != "" && IsQuote(w[|w| - 1]) && Around(w[..|w| - 1], p, r, q[..|q| - 1])
  {
    assert w[|w| - 1] == q[|q| - 1] && q[|q| - 1] in q && w[..|w| - 1] == p + r + q[..|q| - 1];
    QuotesPart(q, 0, |q| - 1);
    assert q[..|q| - 1] == q[0..|q| - 1];
  }

  lemma {:induction false} MiddleEnds(w: string, p: string, r: string, q: string)
    requires Around(w, p, r, q)
    ensures p == "" && r != "" ==> w != "" && w[0] == r[0]
    ensures q == "" && r != "" ==> w != "" && w[|w| - 1] == r[|r| - 1]
    ensures q == "" && r == "" ==> w == p
  {
  }

  lemma {:induction false} UnquotedTail(w: string, r: string)
    requires w != "" && IsQuote(w[0]) && Unquoted(w, r)
    ensures Unquoted(w[1..], r)
  {
    var p, q :| Around(w, p, r, q);
    if p != "" {
      AroundHead(w, p, r, q);
    } else {
      if r != "" { MiddleEnds(w, p, r, q); }
      assert w == q && w[1..] == "" + "" + q[1..];
      QuotesPart(q, 1, |q|);
      assert q[1..] == q[1..|q|];
      assert Around(w[1..], "", r, q[1..]);
    }
  }

  lemma {:induction false} UnquotedInit(w: string, r: string)
    requires w != "" && IsQuote(w[|w| - 1]) && !IsQuote(w[0]) && Unquoted(w, r)
    ensures Unquoted(w[..|w| - 1], r)
  {
    var p, q :| Around(w, p, r, q);
    MiddleEnds(w, p, r, q);
    if p != "" { AroundHead(w, p, r, q); }
    if q != "" { AroundLast(w, p, r, q); }
  }

  /** Only one text is left when the quotes at both ends are taken off. */
  lemma {:induction false} UnquotedIs(w: string, r: string)
    requires Unquoted(w, r)
    ensures r == StripQuotes(w)
    decreases |w|
  {
    if w != "" && IsQuote(w[0]) {
      UnquotedTail(w, r);
      UnquotedIs(w[1..], r);
    } else if w != "" && IsQuote(w[|w| - 1]) {
      UnquotedInit(w, r);
      UnquotedIs(w[..|w| - 1], r);
    } else {
      var p, q :| Around(w, p, r, q);
      if p != "" { AroundHead(w, p, r, q); }
      if q != "" { AroundLast(w, p, r, q); }
    }
  }

  /** Without its quotes, the first word that is not skipped is reported, or if it is `exec` the command after it. */
  lemma {:induction false} ReportExactly(parts: seq<string>, first: string, child: string)
    requires AfterPrefix(parts) != [] && Unquoted(AfterPrefix(parts)[0], first)
    requires var rest := AfterPrefix(parts)[1..];
      Read(rest).Child? ==> Read(rest).at < |rest| && Unquoted(rest[Read(rest).at], child)
    ensures Report(parts) ==
            if first != "exec" then Full(first) else if Read(AfterPrefix(parts)[1..]).Child? then Full(child) else []
  {
    var rest := AfterPrefix(parts)[1..];
    UnquotedIs(AfterPrefix(parts)[0], first);
    if Read(rest).Child? { UnquotedIs(rest[Read(rest).at], child); }
  }

  // ---------------------------------------------------------------- words the `exec` loops look at

  /** A redirection that needs no further word: `...&1` or `...&2`. */
  lemma {:induction false} SelfContainedExactly(w: string)
    ensures SelfContained(w) <==> exists front :: w == front + "&1" || w == front + "&2"
  {
    if SelfContained(w) {
      var front, last := w[..|w| - 2], w[|w| - 2..];
      assert w == front + last && last == ['&', w[|w| - 1]];
      assert last == "&1" || last == "&2";
    }
  }

  /** The flags `-c` and `-l`, in any number. */
  lemma {:induction false} FlagsExactly(w: string)
    ensures IsFlags(w) <==> exists s :: s != "" && w == "-" + s && forall c | c in s :: c == 'c' || c == 'l'
  {
    if IsFlags(w) {
      var s := w[1..];
      assert s != "" && w == "-" + s;
      forall c | c in s ensures c == 'c' || c == 'l' {
        var i :| 0 <= i < |s| && s[i] == c;
        assert w[i + 1] == c;
      }
    }
    if exists s :: s != "" && w == "-" + s && forall c | c in s :: c == 'c' || c == 'l' {
      var s :| s != "" && w == "-" + s && forall c | c in s :: c == 'c' || c == 'l';
      forall i | 1 <= i < |w| ensures w[i] == 'c' || w[i] == 'l' { assert w[i] == s[i - 1] && s[i - 1] in s; }
    }
  }

  predicate Digits(s: string) { forall c | c in s :: Digit(c) }

  predicate Operator(o: string) { o == ">" || o == ">>" || o == "<" || o == "<<<" }

  /** Digits, an operator, possibly `&`, and digits and minus signs. */
  ghost predicate Redirects(w: string, d: string, o: string, amp: bool, t: string) {
    && Digits(d) && Operator(o) && w == d + o + (if amp then "&" else "") + t
    && forall c | c in t :: Digit(c) || c == '-'
  }

  lemma {:induction false} DigitsFirst(d: string, rest: string)
    requires Digits(d) && (rest != "" ==> !Digit(rest[0]))
    ensures AfterDigits(d + rest) == rest
  {
    if d == "" {
      assert d + rest == rest;
    } else {
      assert (d + rest)[1..] == d[1..] + rest;
      DigitsFirst(d[1..], rest);
    }
  }

  lemma {:induction false} DigitsSplit(w: string)
    ensures exists d :: Digits(d) && w == d + AfterDigits(w)
  {
    if w != "" && Digit(w[0]) {
      DigitsSplit(w[1..]);
      var d :| Digits(d) && w[1..] == d + AfterDigits(w[1..]);
      assert w == ([w[0]] + d) + AfterDigits(w) && Digits([w[0]] + d);
    } else {
      assert w == "" + AfterDigits(w) && Digits("");
    }
  }

  lemma {:induction false} OperatorFirst(o: string, rest: string)
    requires Operator(o) && (rest != "" ==> rest[0] != '>' && rest[0] != '<')
    ensures AfterOperator(o + rest) == Some(rest)
  {
    var w := o + rest;
    assert w[..|o|] == o && w[|o|..] == rest;
    if |o| == 1 { assert |w| > 1 ==> w[1] == rest[0]; }
  }

  lemma {:induction false} OperatorSplit(w: string)
    requires AfterOperator(w).Some?
    ensures exists o :: Operator(o) && w == o + AfterOperator(w).value
  {
    var rest := AfterOperator(w).value;
    var o := w[..|w| - |rest|];
    assert w == o + rest && Operator(o);
  }

  /** The pattern of the loops, piece by piece. */
  lemma {:induction false} RedirectionExactly(w: string)
    ensures IsRedirection(w) <==> exists d, o, amp, t :: Redirects(w, d, o, amp, t)
  {
    if IsRedirection(w) { RedirectionPieces(w); }
    if exists d, o, amp, t :: Redirects(w, d, o, amp, t) {
      var d, o, amp, t :| Redirects(w, d, o, amp, t);
      RedirectionOf(w, d, o, amp, t);
    }
  }

  lemma {:induction false} RedirectionPieces(w: string)
    requires IsRedirection(w)
    ensures exists d, o, amp, t :: Redirects(w, d, o, amp, t)
  {
    DigitsSplit(w);
    var d :| Digits(d) && w == d + AfterDigits(w);
    OperatorSplit(AfterDigits(w));
    var rest := AfterOperator(AfterDigits(w)).value;
    var o :| Operator(o) && AfterDigits(w) == o + rest;
    RedirectionFrom(w, d, o, rest);
  }

  lemma {:induction false} RedirectionOf(w: string, d: string, o: string, amp: bool, t: string)
    requires Redirects(w, d, o, amp, t)
    ensures IsRedirection(w)
  {
    var rest := (if amp then "&" else "") + t;
    assert w == d + (o + rest);
    OperatorHead(o, rest);
    if !amp && t != "" { assert t[0] in t && rest[0] == t[0]; }
    DigitsFirst(d, o + rest);
    OperatorFirst(o, rest);
    if amp { assert rest[1..] == t; } else { assert rest == t; }
  }

  lemma {:induction false} OperatorHead(o: string, rest: string)
    requires Operator(o)
    ensures o + rest != "" && !Digit((o + rest)[0])
  {
    assert (o + rest)[0] == o[0];
  }

  lemma {:induction false} RedirectionFrom(w: string, d: string, o: string, rest: string)
    requires Digits(d) && Operator(o) && w == d + (o + rest)
    requires var t := if rest != "" && rest[0] == '&' then rest[1..] else rest; forall c | c in t :: Digit(c) || c == '-'
    ensures exists amp, t :: Redirects(w, d, o, amp, t)
  {
    var amp := rest != "" && rest[0] == '&';
    var t := if amp then rest[1..] else rest;
    assert w == d + o + (if amp then "&" else "") + t;
    assert Redirects(w, d, o, amp, t);
  }

  /** What the class of a command says: a `$` among the first two characters or a backtick, or what it is spelled with. */
  lemma {:induction false} ClassifyExactly(child: string)
    ensures Classify(child) == DYNAMIC_CHILD_UNRESOLVED <==> '$' in child[..if |child| < 2 then |child| else 2] || '`' in child
    ensures Classify(child) == STATIC_CHILD_DISCOVERED <==>
      child != "" && forall c | c in child ::
        'A' <= c <= 'Z' || 'a' <= c <= 'z' || '0' <= c <= '9' || c == '_' || c == '.' || c == '/' || c == '+' || c == '-'
    ensures Classify(child) in {DYNAMIC_CHILD_UNRESOLVED, STATIC_CHILD_DISCOVERED, MALFORMED_AND_FAIL_CLOSED}
  {
    var first := child[..if |child| < 2 then |child| else 2];
    assert forall i | 0 <= i < |first| :: first[i] == child[i] && child[i] in child;
  }
}
