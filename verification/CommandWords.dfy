/**
 `docker_boundary._command_words`: a line is cut at separators and substitutions, and the word in the
 command position of each piece is reported. The cut comes before the words are split, so a word with a
 separator in it, such as `2>&1`, reaches the `exec` loop in pieces; `exec_transfer_oracle` gets it whole.
 */
module CommandWords {
  import opened Common
  import opened ExecGrammar
  import opened ExecScan

  // ---------------------------------------------------------------- cutting a line

  predicate Cutter(c: char) { c == '|' || c == ';' || c == '&' || c == '(' || c == ')' || c == '{' || c == '}' || c == '`' }

  predicate Starts(line: string, a: char, b: char) { |line| > 1 && line[0] == a && line[1] == b }

  /** A substitution, `$(`. */
  predicate Opens(line: string) { Starts(line, '$', '(') }

  /** The line starts with a separator of two characters, or with a substitution. */
  predicate CutsTwo(line: string) { Starts(line, '|', '|') || Starts(line, '&', '&') || Opens(line) }

  /** What one turn does: whether the piece is complete, what is collected and quoted after it, and how far it gets. */
  datatype Turned = Turned(complete: bool, buf: string, quote: Option<char>, width: nat)

  function TokenTurn(line: string, buf: string, quote: Option<char>): (r: Turned)
    requires line != ""
    ensures 0 < r.width <= |line|
  {
    match quote
    case Some(q) =>
      if q == '"' && Opens(line) then Turned(true, "", quote, 2)
      else if q == '"' && line[0] == '`' then Turned(true, "", quote, 1)
      else Turned(false, buf + [line[0]], if line[0] == q then None else quote, 1)
    case None =>
      if IsQuote(line[0]) then Turned(false, buf + [line[0]], Some(line[0]), 1)
      else if CutsTwo(line) then Turned(true, "", None, 2)
      else if Cutter(line[0]) then Turned(true, "", None, 1)
      else Turned(false, buf + [line[0]], None, 1)
  }

  /** The pieces of the rest of a line, when `buf` has been collected and `quote` is open. */
  function Tokens(line: string, buf: string, quote: Option<char>): seq<string>
    decreases |line|
  {
    if line == "" then [buf]
    else
      var r := TokenTurn(line, buf, quote);
      (if r.complete then [buf] else []) + Tokens(line[r.width..], r.buf, r.quote)
  }

  lemma {:induction false} TokensStep(line: string, i: nat, buf: string, quote: Option<char>, tokens: seq<string>)
    requires i < |line|
    ensures var r := TokenTurn(line[i..], buf, quote);
      tokens + Tokens(line[i..], buf, quote) ==
      (if r.complete then tokens + [buf] else tokens) + Tokens(line[i + r.width..], r.buf, r.quote)
  {
    var r := TokenTurn(line[i..], buf, quote);
    assert line[i..][r.width..] == line[i + r.width..];
  }

  method Tokenise(line: string) returns (tokens: seq<string>)
    ensures tokens == Tokens(line, "", None)
  {
    tokens := [];
    var buf, quote, i := "", None, 0;
    assert line[0..] == line;
    while i < |line|
      invariant i <= |line| && tokens + Tokens(line[i..], buf, quote) == Tokens(line, "", None)
      decreases |line| - i
    {
      TokensStep(line, i, buf, quote, tokens);
      ghost var turn, start := TokenTurn(line[i..], buf, quote), i;
      ghost var after := if turn.complete then tokens + [buf] else tokens;
      var ch, rest := line[i], line[i..];
      if quote.Some? {
        if quote.value == '"' && Opens(rest) {
          tokens, buf, i := tokens + [buf], "", i + 2;
        } else if quote.value == '"' && ch == '`' {
          tokens, buf, i := tokens + [buf], "", i + 1;
        } else {
          buf := buf + [ch];
          if ch == quote.value { quote := None; }
          i := i + 1;
        }
      } else if IsQuote(ch) {
        quote, buf, i := Some(ch), buf + [ch], i + 1;
      } else if CutsTwo(rest) {
        tokens, buf, i := tokens + [buf], "", i + 2;
      } else if Cutter(ch) {
        tokens, buf, i := tokens + [buf], "", i + 1;
      } else {
        buf, i := buf + [ch], i + 1;
      }
      assert i == start + turn.width && buf == turn.buf && quote == turn.quote && tokens == after;
    }
    assert line[i..] == "";
    tokens := tokens + [buf];
  }

  /** `str.split()`, when `buf` has been collected. */
  function SplitWords(s: string, buf: string): seq<string> {
    if s == "" then Full(buf)
    else if IsSpace(s[0]) then Full(buf) + SplitWords(s[1..], "")
    else SplitWords(s[1..], buf + [s[0]])
  }

  function Full(buf: string): seq<string> { if buf == "" then [] else [buf] }

  // ---------------------------------------------------------------- the word in a command position

  const KEYWORDS := {
    "if", "then", "else", "elif", "do", "while", "until", "!", "time", "case", "esac", "in", "for", "done", "fi", "select",
    "function" }

  /** `NAME=...`. */
  predicate IsAssignment(w: string) {
    w != "" && NameChar(w[0]) && !Digit(w[0]) && AfterName(w[1..]) != "" && AfterName(w[1..])[0] == '='
  }

  predicate Prefix(w: string) { IsAssignment(w) || w in KEYWORDS }

  function AfterPrefix(parts: seq<string>): (rest: seq<string>)
    ensures |rest| <= |parts| && rest == parts[|parts| - |rest|..]
  {
    if parts != [] && Prefix(parts[0]) then AfterPrefix(parts[1..]) else parts
  }

  lemma {:induction false} ReadBound(words: seq<string>)
    ensures Read(words).Child? ==> Read(words).at < |words|
    decreases |words|
  {
    if words != [] {
      ReadBound(words[1..]);
      if |words| > 1 { ReadBound(words[2..]); }
    }
  }

  /** The command among the words after `exec`. */
  function Found(words: seq<string>): seq<string> {
    match Read(words)
    case Child(k) => ReadBound(words); [words[k]]
    case _ => []
  }

  function Reported(ws: seq<string>): seq<string> {
    if ws == [] || StripQuotes(ws[0]) == "" then [] else [StripQuotes(ws[0])]
  }

  /** What is reported about the words of a piece, once the prefix is skipped. */
  function ReportRest(rest: seq<string>): seq<string> {
    if rest == [] then []
    else if StripQuotes(rest[0]) == "exec" then Reported(Found(rest[1..])) else Reported([rest[0]])
  }

  /** What is reported about the words of a piece: at most one word. */
  function Report(parts: seq<string>): seq<string> { ReportRest(AfterPrefix(parts)) }

  function Reports(tokens: seq<string>): seq<string> {
    if tokens == [] then [] else Report(SplitWords(tokens[0], "")) + Reports(tokens[1..])
  }

  lemma {:induction false} PrefixStep(parts: seq<string>, idx: nat)
    requires idx < |parts|
    ensures AfterPrefix(parts[idx..]) == if Prefix(parts[idx]) then AfterPrefix(parts[idx + 1..]) else parts[idx..]
  {
    assert parts[idx..][1..] == parts[idx + 1..];
  }

  method SkipPrefix(parts: seq<string>) returns (idx: nat)
    ensures idx <= |parts| && parts[idx..] == AfterPrefix(parts)
  {
    idx := 0;
    assert parts[0..] == parts;
    while idx < |parts| && Prefix(parts[idx])
      invariant idx <= |parts| && AfterPrefix(parts[idx..]) == AfterPrefix(parts)
    {
      PrefixStep(parts, idx);
      idx := idx + 1;
    }
    if idx < |parts| { PrefixStep(parts, idx); }
  }

  method ReportOf(parts: seq<string>) returns (words: seq<string>)
    ensures words == Report(parts)
  {
    var idx := SkipPrefix(parts);
    ghost var rest := parts[idx..];
    if idx < |parts| && StripQuotes(parts[idx]) == "exec" {
      assert rest[1..] == parts[idx + 1..];
      idx := SkipToChild(parts, idx + 1);
    }
    words := [];
    if idx < |parts| {
      var word := StripQuotes(parts[idx]);
      if word != "" { words := [word]; }
    }
    assert words == ReportRest(rest);
  }

  lemma {:induction false} ReportsStep(tokens: seq<string>, i: nat, words: seq<string>)
    requires i < |tokens|
    ensures words + Reports(tokens[i..]) == (words + Report(SplitWords(tokens[i], ""))) + Reports(tokens[i + 1..])
  {
    assert tokens[i..][1..] == tokens[i + 1..];
  }

  method ReportAll(tokens: seq<string>) returns (words: seq<string>)
    ensures words == Reports(tokens)
  {
    words := [];
    assert tokens[0..] == tokens;
    for i := 0 to |tokens|
      invariant words + Reports(tokens[i..]) == Reports(tokens)
    {
      ReportsStep(tokens, i, words);
      var word := ReportOf(SplitWords(tokens[i], ""));
      words := words + word;
    }
  }

  /** The line without its comment is cut into pieces and the word of each is reported. */
  method CommandWords(line: string) returns (words: seq<string>)
    ensures exists n: nat :: Cut(line, n) && words == Reports(Tokens(line[..n], "", None))
  {
    var stripped := StripComment(line);
    var tokens := Tokenise(stripped);
    words := ReportAll(tokens);
  }

  // ---------------------------------------------------------------- lines that start with `exec`

  /** The words, each after a space. */
  function Tail(words: seq<string>): string { if words == [] then "" else " " + words[0] + Tail(words[1..]) }

  lemma {:induction false} TailStep(words: seq<string>)
    requires words != []
    ensures var rest := words[0] + Tail(words[1..]);
      Tail(words) == " " + rest && Tail(words)[1..] == rest && Tail(words)[0] == ' '
  {
    var rest := words[0] + Tail(words[1..]);
    assert Tail(words) == " " + rest;
  }

  /** Text without quotes and without `$(`. */
  predicate PlainText(s: string) { s == "" || (!IsQuote(s[0]) && !Opens(s) && PlainText(s[1..])) }

  /** A word of a line of plain text. */
  predicate Literal(w: string) { w != "" && w[0] != '#' && PlainText(w) && forall c | c in w :: !IsSpace(c) }

  predicate AllLiteral(words: seq<string>) { forall w | w in words :: Literal(w) }

  /** What precedes the first separator. */
  function UpTo(s: string): string { if s == "" || Cutter(s[0]) then "" else [s[0]] + UpTo(s[1..]) }

  /** The words of the first piece. */
  function CutWords(words: seq<string>): seq<string> {
    if words == [] then []
    else if UpTo(words[0]) != words[0] then Full(UpTo(words[0]))
    else [words[0]] + CutWords(words[1..])
  }

  lemma {:induction false} PlainConcat(s: string, t: string)
    requires PlainText(s) && PlainText(t) && (t != "" ==> t[0] != '(')
    ensures PlainText(s + t)
  {
    if s == "" {
      assert s + t == t;
    } else {
      assert (s + t)[1..] == s[1..] + t;
      PlainConcat(s[1..], t);
    }
  }

  lemma {:induction false} SpacePlain(s: string)
    requires PlainText(s)
    ensures PlainText(" " + s)
  {
    assert (" " + s)[1..] == s;
  }

  lemma {:induction false} TailPlain(words: seq<string>)
    requires AllLiteral(words)
    ensures PlainText(Tail(words)) && (words != [] ==> Tail(words)[0] == ' ')
  {
    if words != [] {
      assert Literal(words[0]) && AllLiteral(words[1..]);
      TailStep(words);
      TailPlain(words[1..]);
      PlainConcat(words[0], Tail(words[1..]));
      SpacePlain(words[0] + Tail(words[1..]));
    }
  }

  lemma {:induction false} FirstToken(s: string, buf: string)
    requires PlainText(s)
    ensures Tokens(s, buf, None) != [] && Tokens(s, buf, None)[0] == buf + UpTo(s)
    decreases |s|
  {
    if s != "" {
      if CutsTwo(s) {
        assert Cutter(s[0]);
      } else if !Cutter(s[0]) {
        FirstToken(s[1..], buf + [s[0]]);
        assert buf + [s[0]] + UpTo(s[1..]) == buf + UpTo(s);
      }
    }
  }

  lemma {:induction false} SplitRun(s: string, t: string, buf: string)
    requires forall c | c in s :: !IsSpace(c)
    ensures SplitWords(s + t, buf) == SplitWords(t, buf + s)
    decreases |s|
  {
    if s == "" {
      assert s + t == t && buf + s == buf;
    } else {
      assert (s + t)[1..] == s[1..] + t && s[0] in s;
      SplitRun(s[1..], t, buf + [s[0]]);
      assert buf + [s[0]] + s[1..] == buf + s;
    }
  }

  lemma {:induction false} UpToConcat(s: string, t: string)
    ensures UpTo(s + t) == if UpTo(s) == s then s + UpTo(t) else UpTo(s)
  {
    if s == "" {
      assert s + t == t;
    } else {
      assert (s + t)[1..] == s[1..] + t;
      if !Cutter(s[0]) { UpToConcat(s[1..], t); }
    }
  }

  lemma {:induction false} UpToPart(s: string)
    ensures forall c | c in UpTo(s) :: c in s
  {
    if s != "" && !Cutter(s[0]) { UpToPart(s[1..]); }
  }

  lemma {:induction false} SplitEnd(s: string, buf: string)
    requires forall c | c in s :: !IsSpace(c)
    ensures SplitWords(s, buf) == Full(buf + s)
  {
    SplitRun(s, "", buf);
    assert s + "" == s;
  }

  /** The oracle gets the words as they are. */
  lemma {:induction false} SplitTail(words: seq<string>, buf: string)
    requires AllLiteral(words)
    ensures SplitWords(Tail(words), buf) == Full(buf) + words
  {
    if words != [] {
      assert Literal(words[0]) && AllLiteral(words[1..]);
      var t := Tail(words[1..]);
      TailStep(words);
      SplitRun(words[0], t, "");
      assert "" + words[0] == words[0];
      SplitTail(words[1..], words[0]);
    }
  }

  lemma {:induction false} SplitCutTail(words: seq<string>, buf: string)
    requires AllLiteral(words)
    ensures SplitWords(UpTo(Tail(words)), buf) == Full(buf) + CutWords(words)
  {
    if words != [] {
      assert Literal(words[0]) && AllLiteral(words[1..]);
      var w, t := words[0], Tail(words[1..]);
      TailStep(words);
      assert UpTo(Tail(words)) == " " + UpTo(w + t) && UpTo(Tail(words))[1..] == UpTo(w + t);
      UpToConcat(w, t);
      if UpTo(w) == w {
        SplitRun(w, UpTo(t), "");
        assert "" + w == w;
        SplitCutTail(words[1..], w);
      } else {
        UpToPart(w);
        SplitEnd(UpTo(w), "");
        assert "" + UpTo(w) == UpTo(w);
      }
    }
  }

  lemma {:induction false} ExecWord()
    ensures UpTo("exec") == "exec" && PlainText("exec") && forall c | c in "exec" :: !IsSpace(c)
  {
    NoCutter("exec");
    PlainCalm("exec");
  }

  /** The first piece of a line `exec ...` has the words up to the first separator. */
  lemma {:induction false} FirstPiece(words: seq<string>)
    requires AllLiteral(words)
    ensures PlainText("exec" + Tail(words))
    ensures var tokens := Tokens("exec" + Tail(words), "", None);
      tokens != [] && SplitWords(tokens[0], "") == ["exec"] + CutWords(words)
  {
    var t := Tail(words);
    TailPlain(words);
    ExecWord();
    PlainConcat("exec", t);
    FirstToken("exec" + t, "");
    UpToConcat("exec", t);
    SplitRun("exec", UpTo(t), "");
    assert "" + "exec" == "exec" && "" + ("exec" + UpTo(t)) == "exec" + UpTo(t);
    SplitCutTail(words, "exec");
  }

  // ---------------------------------------------------------------- what the two scanners name

  /** No word up to `k` has a separator in it. */
  ghost predicate Whole(words: seq<string>, k: nat) { k < |words| && forall j | 0 <= j <= k :: UpTo(words[j]) == words[j] }

  /** `exec_transfer_oracle` names the word at `k`. */
  ghost predicate OracleNames(words: seq<string>, k: nat) { Read(words) == Child(k) }

  /** The `exec` loop of `docker_boundary` ends at the word at `k`, and has got all of it. */
  ghost predicate DockerNames(words: seq<string>, k: nat) {
    Read(CutWords(words)) == Child(k) && k < |CutWords(words)| && k < |words| && CutWords(words)[k] == words[k]
  }

  /** The words of the first piece are the words of the line, up to one that is cut. */
  lemma {:induction false} CutAt(words: seq<string>, k: nat)
    requires k < |words|
    ensures k < |CutWords(words)| && CutWords(words)[k] == words[k] <==> Whole(words, k)
    ensures Whole(words, k) ==> k < |CutWords(words)| && CutWords(words)[..k + 1] == words[..k + 1]
  {
    if UpTo(words[0]) == words[0] {
      if k > 0 {
        CutAt(words[1..], k - 1);
        WholeTail(words, k);
        assert words[..k + 1] == [words[0]] + words[1..][..k];
        if Whole(words, k) { assert CutWords(words)[..k + 1] == [words[0]] + CutWords(words[1..])[..k]; }
      }
    }
  }

  lemma {:induction false} WholeTail(words: seq<string>, k: nat)
    requires 0 < k < |words| && UpTo(words[0]) == words[0]
    ensures Whole(words, k) <==> Whole(words[1..], k - 1)
  {
    if Whole(words[1..], k - 1) {
      forall j | 0 <= j <= k ensures UpTo(words[j]) == words[j] { if j > 0 { assert words[j] == words[1..][j - 1]; } }
    }
  }

  lemma {:induction false} SameStart(words: seq<string>, other: seq<string>, k: nat, j: nat)
    requires j < k <= |words| && k <= |other| && words[..k] == other[..k]
    ensures words[..j] == other[..j] && words[j] == other[j]
  {
    assert words[..j] == words[..k][..j] && other[..j] == other[..k][..j];
    assert words[..k][j] == words[j] && other[..k][j] == other[j];
  }

  lemma {:induction false} LooksLocal(words: seq<string>, other: seq<string>, j: nat)
    requires j <= |words| && j <= |other| && words[..j] == other[..j]
    ensures Looks(words, j) == Looks(other, j)
  {
    if j > 0 {
      SameStart(words, other, j, j - 1);
      LooksLocal(words, other, j - 1);
    }
  }

  lemma {:induction false} ReachesLocal(words: seq<string>, other: seq<string>, k: nat)
    requires k <= |words| && k <= |other| && words[..k] == other[..k] && Reaches(words, k)
    ensures Reaches(other, k)
  {
    LooksLocal(words, other, k);
    forall j | 0 <= j < k && Looks(other, j) ensures Passes(other[j]) {
      SameStart(words, other, k, j);
      LooksLocal(words, other, j);
    }
  }

  /** Whether the word at `k` is found depends on the words up to it. */
  lemma {:induction false} FindsLocal(words: seq<string>, other: seq<string>, k: nat)
    requires k < |words| && k < |other| && words[..k + 1] == other[..k + 1] && Finds(words, k)
    ensures Finds(other, k)
  {
    SameStart(words, other, k + 1, k);
    if Reaches(words, k) { ReachesLocal(words, other, k); }
    if k > 0 && Reaches(words, k - 1) {
      SameStart(words, other, k + 1, k - 1);
      ReachesLocal(words, other, k - 1);
    }
  }

  /**
   The oracle names a word exactly when the loop finds it; `docker_boundary` names it exactly when, besides,
   no word up to it has a separator in it.
   */
  lemma {:induction false} NamesExactly(words: seq<string>, k: nat)
    ensures OracleNames(words, k) <==> Finds(words, k)
    ensures DockerNames(words, k) <==> Finds(words, k) && Whole(words, k)
  {
    FindsExactly(words, k);
    FindsExactly(CutWords(words), k);
    if k < |words| {
      CutAt(words, k);
      if Whole(words, k) {
        if Finds(words, k) { FindsLocal(words, CutWords(words), k); }
        if Finds(CutWords(words), k) { FindsLocal(CutWords(words), words, k); }
      }
    }
  }

  /** On the command that Bash runs, the scanners agree exactly when no word up to it has a separator or both miss it. */
  lemma {:induction false} ScannersAgree(words: seq<string>, k: nat)
    requires ChildAt(words, k)
    ensures (OracleNames(words, k) <==> DockerNames(words, k)) <==> Whole(words, k) || !Finds(words, k)
  {
    NamesExactly(words, k);
  }

  lemma {:induction false} NoQuotes(w: string)
    requires PlainText(w)
    ensures StripQuotes(w) == w
  {
    if w != "" { LastNoQuote(w); }
  }

  lemma {:induction false} LastNoQuote(w: string)
    requires PlainText(w) && w != ""
    ensures !IsQuote(w[|w| - 1])
  {
    if |w| > 1 { LastNoQuote(w[1..]); }
  }

  // ---------------------------------------------------------------- such a line has no comment

  /** No `#` follows a space, or stands at the start if `open`. */
  predicate HashFree(s: string, open: bool) { s == "" || (!(open && s[0] == '#') && HashFree(s[1..], IsSpace(s[0]))) }

  lemma {:induction false} WordHash(w: string, open: bool)
    requires (forall c | c in w :: !IsSpace(c)) && (open && w != "" ==> w[0] != '#')
    ensures HashFree(w, open)
  {
    if w != "" {
      assert w[0] in w;
      WordHash(w[1..], false);
    }
  }

  lemma {:induction false} HashConcat(s: string, t: string, open: bool)
    requires HashFree(s, open) && HashFree(t, if s == "" then open else IsSpace(s[|s| - 1]))
    ensures HashFree(s + t, open)
  {
    if s == "" {
      assert s + t == t;
    } else {
      assert (s + t)[1..] == s[1..] + t;
      HashConcat(s[1..], t, IsSpace(s[0]));
    }
  }

  lemma {:induction false} HashAfterWord(w: string, t: string)
    requires Literal(w) && HashFree(t, false)
    ensures HashFree(w + t, true)
  {
    WordHash(w, true);
    assert w[|w| - 1] in w;
    HashConcat(w, t, true);
  }

  lemma {:induction false} SpaceHash(s: string, open: bool)
    requires HashFree(s, true)
    ensures HashFree(" " + s, open)
  {
    assert (" " + s)[1..] == s;
  }

  lemma {:induction false} TailHash(words: seq<string>, open: bool)
    requires AllLiteral(words)
    ensures HashFree(Tail(words), open)
  {
    if words != [] {
      assert Literal(words[0]) && AllLiteral(words[1..]);
      TailHash(words[1..], false);
      HashAfterWord(words[0], Tail(words[1..]));
      TailStep(words);
      SpaceHash(words[0] + Tail(words[1..]), open);
    }
  }

  lemma {:induction false} HashAt(line: string, i: nat, open: bool)
    requires HashFree(line, open) && i < |line| && line[i] == '#'
    ensures if i == 0 then !open else !IsSpace(line[i - 1])
  {
    if i > 0 { HashAt(line[1..], i - 1, IsSpace(line[0])); }
  }

  lemma {:induction false} PlainAt(line: string, i: nat)
    requires PlainText(line) && i < |line|
    ensures !IsQuote(line[i])
  {
    if i > 0 { PlainAt(line[1..], i - 1); }
  }

  lemma {:induction false} PlainUnquoted(line: string, i: nat)
    requires PlainText(line) && i <= |line|
    ensures QuoteAt(line, i) == None
  {
    if i > 0 {
      PlainUnquoted(line, i - 1);
      PlainAt(line, i - 1);
    }
  }

  lemma {:induction false} NoComment(words: seq<string>)
    requires AllLiteral(words)
    ensures Cut("exec" + Tail(words), |"exec" + Tail(words)|)
  {
    var line := "exec" + Tail(words);
    WordHash("exec", true);
    TailHash(words, false);
    HashConcat("exec", Tail(words), true);
    forall i | 0 <= i < |line| ensures !CommentAt(line, i) { if line[i] == '#' { HashAt(line, i, true); } }
  }

  // ---------------------------------------------------------------- both scanners on one line

  lemma {:induction false} ExecFirst(words: seq<string>)
    ensures Report(["exec"] + words) == Reported(Found(words))
  {
    assert StripQuotes("exec") == "exec";
    assert AfterName("c") == "" && AfterName("ec") == "" && AfterName("xec") == "" && !Prefix("exec");
    assert (["exec"] + words)[1..] == words;
  }

  /** What `docker_boundary` reports about a line. */
  function DockerReports(words: seq<string>): seq<string> { Reports(Tokens("exec" + Tail(words), "", None)) }

  /** First the command among the words up to the first separator, and then what the other pieces start with. */
  lemma {:induction false} FirstReport(words: seq<string>)
    requires AllLiteral(words)
    ensures var tokens := Tokens("exec" + Tail(words), "", None);
      tokens != [] && DockerReports(words) == Reported(Found(CutWords(words))) + Reports(tokens[1..])
  {
    FirstPiece(words);
    ExecFirst(CutWords(words));
  }

  /** The oracle reads the line from after `exec`. */
  method OracleScan(words: seq<string>) returns (child: string)
    requires AllLiteral(words)
    ensures if Read(words).Child? then Read(words).at < |words| && child == StripQuotes(words[Read(words).at]) else child == ""
  {
    var class_, opts;
    SplitTail(words, "");
    assert SplitWords(Tail(words), "") == words;
    child, class_, opts := CandidateChild(SplitWords(Tail(words), ""));
  }

  /** `docker_boundary` reads all of it. */
  method DockerScan(words: seq<string>) returns (named: seq<string>)
    requires AllLiteral(words)
    ensures named == DockerReports(words)
  {
    var line := "exec" + Tail(words);
    named := CommandWords(line);
    ghost var n: nat :| Cut(line, n) && named == Reports(Tokens(line[..n], "", None));
    NoComment(words);
    CutUnique(line, n, |line|);
    assert line[..n] == line;
  }

  // ---------------------------------------------------------------- a duplicated descriptor

  lemma {:induction false} TokenRun(s: string, t: string, buf: string)
    requires UpTo(s) == s && (forall c | c in s :: !IsQuote(c) && c != '$')
    ensures Tokens(s + t, buf, None) == Tokens(t, buf + s, None)
    decreases |s|
  {
    if s == "" {
      assert s + t == t && buf + s == buf;
    } else {
      assert (s + t)[1..] == s[1..] + t && s[0] in s && !Cutter(s[0]);
      TokenRun(s[1..], t, buf + [s[0]]);
      assert buf + [s[0]] + s[1..] == buf + s;
    }
  }

  /** Text that has neither separators nor quotes nor `$`. */
  predicate Calm(s: string) { UpTo(s) == s && forall c | c in s :: !IsQuote(c) && c != '$' }

  /** Text with one `&` is cut there. */
  lemma {:induction false} CutOnce(s: string, t: string)
    requires Calm(s) && Calm(t)
    ensures Tokens(s + ("&" + t), "", None) == [s, t]
  {
    assert "" + s == s;
    TokenRun(s, "&" + t, "");
    AmpersandCuts(s, t);
  }

  lemma {:induction false} CutTurn(line: string, buf: string)
    requires line != "" && Cutter(line[0]) && !CutsTwo(line)
    ensures Tokens(line, buf, None) == [buf] + Tokens(line[1..], "", None)
  {
  }

  lemma {:induction false} OneToken(t: string)
    requires Calm(t)
    ensures Tokens(t, "", None) == [t]
  {
    TokenRun(t, "", "");
    assert t + "" == t && "" + t == t;
  }

  lemma {:induction false} AmpersandCuts(s: string, t: string)
    requires Calm(t)
    ensures Tokens("&" + t, s, None) == [s, t]
  {
    var rest := "&" + t;
    if t != "" { assert t[0] in t && !Cutter(t[0]); }
    CutTurn(rest, s);
    assert rest[1..] == t;
    OneToken(t);
  }

  lemma {:induction false} CalmConcat(s: string, t: string)
    requires Calm(s) && Calm(t)
    ensures Calm(s + t)
  {
    UpToConcat(s, t);
  }

  lemma {:induction false} CalmTail(words: seq<string>)
    requires forall w | w in words :: Calm(w)
    ensures Calm(Tail(words))
  {
    if words != [] {
      assert Calm(words[0]);
      CalmTail(words[1..]);
      CalmConcat(words[0], Tail(words[1..]));
      TailStep(words);
    }
  }

  lemma {:induction false} CalmExec()
    ensures Calm("exec")
  {
    ExecWord();
  }

  /** Words without separators, quotes and `$`. */
  ghost predicate CalmWords(words: seq<string>) { forall w | w in words :: Literal(w) && Calm(w) }

  lemma {:induction false} LineInTwo(a: string, b: string, rest: seq<string>)
    ensures "exec" + Tail([a + "&" + b] + rest) == ("exec" + Tail([a])) + ("&" + (b + Tail(rest)))
  {
    var words := [a + "&" + b] + rest;
    assert words[0] == a + "&" + b && words[1..] == rest;
    assert Tail([a]) == " " + a + Tail([a][1..]) && [a][1..] == [];
  }

  lemma {:induction false} TwoReports(s: string, t: string)
    ensures Reports([s, t]) == Report(SplitWords(s, "")) + Report(SplitWords(t, ""))
  {
    assert [s, t][1..] == [t] && [t][1..] == [];
    assert Reports([t]) == Report(SplitWords(t, "")) + Reports([]);
  }

  /** Such a word after `exec` ends the piece at its `&`: what follows that is a piece of its own. */
  lemma {:induction false} CutInWord(a: string, b: string, rest: seq<string>)
    requires CalmWords([a]) && CalmWords([b]) && CalmWords(rest)
    ensures DockerReports([a + "&" + b] + rest) == Reported(Found([a])) + Report([b] + rest)
  {
    var s, t := "exec" + Tail([a]), b + Tail(rest);
    assert a in [a] && b in [b];
    LineInTwo(a, b, rest);
    CalmExec();
    CalmTail([a]);
    CalmConcat("exec", Tail([a]));
    CalmTail(rest);
    CalmConcat(b, Tail(rest));
    CutOnce(s, t);
    SplitPiece("exec", [a]);
    SplitPiece(b, rest);
    ExecFirst([a]);
    TwoReports(s, t);
  }

  lemma {:induction false} SplitPiece(w: string, rest: seq<string>)
    requires w != "" && (forall c | c in w :: !IsSpace(c)) && AllLiteral(rest)
    ensures SplitWords(w + Tail(rest), "") == [w] + rest
  {
    SplitRun(w, Tail(rest), "");
    assert "" + w == w;
    SplitTail(rest, w);
  }

  lemma {:induction false} CalmLiteral(w: string)
    requires w != "" && w[0] != '#' && forall c | c in w :: !IsQuote(c) && c != '$' && !IsSpace(c)
    ensures Literal(w)
    decreases |w|
  {
    PlainCalm(w);
  }

  lemma {:induction false} PlainCalm(w: string)
    requires forall c | c in w :: !IsQuote(c) && c != '$'
    ensures PlainText(w)
  {
    if w != "" {
      assert w[0] in w;
      PlainCalm(w[1..]);
    }
  }

  lemma {:induction false} NoCutter(w: string)
    requires forall c | c in w :: !Cutter(c)
    ensures UpTo(w) == w
  {
    if w != "" {
      assert w[0] in w;
      NoCutter(w[1..]);
    }
  }

  lemma {:induction false} CalmWord(w: string)
    requires w != "" && w[0] != '#' && forall c | c in w :: !IsQuote(c) && c != '$' && !IsSpace(c) && !Cutter(c)
    ensures CalmWords([w])
  {
    CalmLiteral(w);
    NoCutter(w);
  }

  const DOCKER_RUN := ["docker", "run"]

  lemma {:induction false} DockerRun()
    ensures CalmWords(DOCKER_RUN)
  {
    CalmWord("docker");
    CalmWord("run");
    forall w | w in DOCKER_RUN ensures Literal(w) && Calm(w) {
      assert w in ["docker"] || w in ["run"];
    }
  }

  /** `2>`, `3>` and the like. */
  predicate OpenRedirection(w: string) { |w| == 2 && Digit(w[0]) && w[1] == '>' }

  lemma {:induction false} NothingFound(w: string)
    requires OpenRedirection(w)
    ensures Found([w]) == [] && CalmWords([w])
  {
    assert w[1..] == ">" && AfterDigits(">") == ">" && AfterDigits(w) == ">" && ">"[1..] == "";
    assert IsRedirection(w) && [w][1..] == [] && Read([]) == NoChild;
    RedirectionStart(w);
    assert w != "--" && Read([w]) == Shift(Read([w][1..]), 1);
    CalmWord(w);
  }

  lemma {:induction false} FirstWord(w: string, rest: seq<string>)
    requires !Prefix(w) && StripQuotes(w) == w && w != "exec" && w != ""
    ensures Report([w] + rest) == [w]
  {
    assert AfterPrefix([w] + rest) == [w] + rest;
  }

  /**
   `exec 2>&1 command` and the like: whatever the command, only what follows the `&` is reported, unless
   it is a keyword, an assignment or `exec`.
   */
  lemma {:induction false} DescriptorReported(a: string, b: string, rest: seq<string>)
    requires OpenRedirection(a) && CalmWords([b]) && !Prefix(b) && b != "exec" && CalmWords(rest)
    ensures DockerReports([a + "&" + b] + rest) == [b]
  {
    NothingFound(a);
    CutInWord(a, b, rest);
    assert b in [b];
    NoQuotes(b);
    FirstWord(b, rest);
  }

  lemma {:induction false} OneShape()
    ensures ShapeOf("2>&1") == Attached && IsRedirection("2>&1") && SelfContained("2>&1")
  {
    assert "2>&1"[1..] == ">&1" && AfterDigits(">&1") == ">&1" && AfterDigits("2>&1") == ">&1";
    assert OperatorLength(">&1") == 2 && ">&1"[2..] == "1";
    assert ">&1"[1..] == "&1" && "&1"[1..] == "1";
  }

  /** Bash runs `docker`, and the oracle names it. */
  lemma {:induction false} DuplicateOrdinary()
    ensures ChildAt(["2>&1"] + DOCKER_RUN, 1) && OracleNames(["2>&1"] + DOCKER_RUN, 1)
  {
    OneShape();
    PlainWord("docker");
    assert [Duplicate("2>&1")][1..] == [] && AllWords([]) == [] && AllWords([Duplicate("2>&1")]) == ["2>&1"];
    OrdinaryFound([Duplicate("2>&1")], DOCKER_RUN);
    NamesExactly(["2>&1"] + DOCKER_RUN, 1);
  }

  lemma {:induction false} DuplicateReported()
    ensures DockerReports(["2>&1"] + DOCKER_RUN) == ["1"]
  {
    CalmWord("1");
    DockerRun();
    assert "2>" + "&" + "1" == "2>&1";
    DescriptorReported("2>", "1", DOCKER_RUN);
  }

  /** On `exec 2>&1 docker run` the oracle names `docker`, which Bash runs; `docker_boundary` reports `1` and nothing else. */
  lemma {:induction false} DuplicateDiffers()
    ensures ChildAt(["2>&1"] + DOCKER_RUN, 1) && OracleNames(["2>&1"] + DOCKER_RUN, 1)
    ensures DockerReports(["2>&1"] + DOCKER_RUN) == ["1"]
  {
    DuplicateOrdinary();
    DuplicateReported();
  }

  lemma {:induction false} CloseMissedByOracle()
    ensures ChildAt(["3>&-"] + DOCKER_RUN, 1) && OracleNames(["3>&-"] + DOCKER_RUN, 2)
  {
    assert ["3>&-"] + DOCKER_RUN == ["3>&-", "docker", "run"];
    CloseMissed();
    NamesExactly(["3>&-"] + DOCKER_RUN, 2);
  }

  lemma {:induction false} CloseReported()
    ensures DockerReports(["3>&-"] + DOCKER_RUN) == ["-"]
  {
    CalmWord("-");
    DockerRun();
    assert "3>" + "&" + "-" == "3>&-";
    DescriptorReported("3>", "-", DOCKER_RUN);
  }

  /** On `exec 3>&- docker run`, which runs `docker`, the oracle names `run`, and `docker_boundary` reports `-` alone. */
  lemma {:induction false} CloseDiffers()
    ensures ChildAt(["3>&-"] + DOCKER_RUN, 1) && OracleNames(["3>&-"] + DOCKER_RUN, 2)
    ensures DockerReports(["3>&-"] + DOCKER_RUN) == ["-"]
  {
    CloseMissedByOracle();
    CloseReported();
  }
}
