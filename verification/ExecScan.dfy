/**
 The two independent finders of the command that `exec` runs, in `exec_transfer_oracle` and in
 `docker_boundary`, and the comment strippers they start from.

 Both index loops are proved to make the same reading of the words they are given, which is then set
 against the grammar of `exec`: where it finds the command that Bash runs, exactly. Which words
 `docker_boundary` gives its loop is the subject of `CommandWords`.
 */
module ExecScan {
  import opened Common
  import opened ExecGrammar

  // ---------------------------------------------------------------- words

  function AfterOperator(w: string): Option<string> {
    if w == "" then None
    else if w[0] == '>' then if |w| > 1 && w[1] == '>' then Some(w[2..]) else Some(w[1..])
    else if w[0] == '<' then if |w| > 2 && w[1] == '<' && w[2] == '<' then Some(w[3..]) else Some(w[1..])
    else None
  }

  /** The pattern `^[0-9]*(>>?|<<<|<)&?[0-9-]*$` of both loops. */
  predicate IsRedirection(w: string) {
    match AfterOperator(AfterDigits(w))
    case None => false
    case Some(r) =>
      var t := if r != "" && r[0] == '&' then r[1..] else r;
      forall c | c in t :: Digit(c) || c == '-'
  }

  /** What the loops take for a redirection that needs no further word: one that ends in `&1` or `&2`. */
  predicate SelfContained(w: string) { |w| >= 2 && w[|w| - 2] == '&' && w[|w| - 1] in ['1', '2'] }

  predicate IsFlags(w: string) { |w| > 1 && w[0] == '-' && forall i | 1 <= i < |w| :: w[i] in ['c', 'l'] }

  lemma {:induction false} RedirectionStart(w: string)
    requires IsRedirection(w)
    ensures w != "" && w[0] != '-' && w[0] != '{'
  {
    if w != "" && Digit(w[0]) {} else { assert AfterDigits(w) == w; }
  }

  lemma {:induction false} MinusPlain(w: string)
    requires w != "" && w[0] == '-'
    ensures ShapeOf(w) == Plain && !IsRedirection(w)
  {
    assert AfterDigits(w) == w;
    if IsRedirection(w) { RedirectionStart(w); }
  }

  // ---------------------------------------------------------------- the reading of the loops

  function Read(words: seq<string>): Reading
    decreases |words|
  {
    if words == [] then NoChild
    else
      var w := words[0];
      if w == "--" then if |words| > 1 then Child(1) else NoChild
      else if IsRedirection(w) then
        if SelfContained(w) || |words| == 1 then Shift(Read(words[1..]), 1) else Shift(Read(words[2..]), 2)
      else if !IsOption(w) then Child(0)
      else if w == "-a" then if |words| == 1 then Unsupported else Shift(Read(words[2..]), 2)
      else if IsFlags(w) then Shift(Read(words[1..]), 1)
      else Unsupported
  }

  /** What the reading from `i` is, in terms of the word at `i`. */
  lemma {:induction false} ReadAt(words: seq<string>, i: nat)
    requires i < |words|
    ensures var w := words[i];
      Read(words[i..]) ==
        if w == "--" then if i + 1 < |words| then Child(1) else NoChild
        else if IsRedirection(w) then
          if SelfContained(w) || i + 1 == |words| then Shift(Read(words[i + 1..]), 1) else Shift(Read(words[i + 2..]), 2)
        else if !IsOption(w) then Child(0)
        else if w == "-a" then if i + 1 == |words| then Unsupported else Shift(Read(words[i + 2..]), 2)
        else if IsFlags(w) then Shift(Read(words[i + 1..]), 1)
        else Unsupported
  {
    assert words[i..][1..] == words[i + 1..];
    if i + 1 < |words| { assert words[i..][2..] == words[i + 2..]; }
  }

  // ---------------------------------------------------------------- where it ends

  /** The loops skip the word after this one, unseen. */
  predicate Takes(w: string) { (IsRedirection(w) && !SelfContained(w)) || w == "-a" }

  /** The loops go on past this word. */
  predicate Passes(w: string) { IsRedirection(w) || IsFlags(w) || w == "-a" }

  /** The word at `j` is not skipped, if the ones before it are passed: no word that is looked at takes it. */
  predicate Looks(words: seq<string>, j: nat)
    requires j <= |words|
  {
    j == 0 || !(Looks(words, j - 1) && Takes(words[j - 1]))
  }

  ghost predicate Reaches(words: seq<string>, k: nat) {
    k <= |words| && Looks(words, k) && forall j | 0 <= j < k && Looks(words, j) :: Passes(words[j])
  }

  /** The loops look at the word at `k`, or at a `--` before it, and pass every word they look at before that. */
  ghost predicate Finds(words: seq<string>, k: nat) {
    k < |words| &&
    ((Reaches(words, k) && !IsRedirection(words[k]) && !IsOption(words[k])) ||
     (k > 0 && Reaches(words, k - 1) && words[k - 1] == "--"))
  }

  lemma {:induction false} PassesMeans(w: string)
    requires Passes(w)
    ensures w != "--" && (IsRedirection(w) || IsOption(w))
  {
    if IsRedirection(w) { RedirectionStart(w); } else { assert w[1] in ['c', 'l', 'a']; }
  }

  /** From a word that is reached, the word found is here, right after a `--` here, or further on. */
  lemma {:induction false} FoundFrom(words: seq<string>, i: nat, k: nat)
    requires i < |words| && Reaches(words, i) && Finds(words, k)
    ensures if words[i] == "--" then k == i + 1 else if Passes(words[i]) then k > i else k == i
  {
    if k < i && Looks(words, k) { PassesMeans(words[k]); }
    if k > 0 && k - 1 < i && Looks(words, k - 1) && words[k - 1] == "--" { PassesMeans(words[k - 1]); }
    if Passes(words[i]) { PassesMeans(words[i]); }
  }

  lemma {:induction false} ReachesOne(words: seq<string>, i: nat)
    requires i < |words| && Reaches(words, i) && Passes(words[i]) && !Takes(words[i])
    ensures Reaches(words, i + 1)
  {
    forall j | 0 <= j < i + 1 && Looks(words, j) ensures Passes(words[j]) {
      if j < i { assert Looks(words, j); }
    }
  }

  lemma {:induction false} ReachesTwo(words: seq<string>, i: nat)
    requires i + 1 < |words| && Reaches(words, i) && Passes(words[i]) && Takes(words[i])
    ensures Reaches(words, i + 2) && !Looks(words, i + 1)
  {
    assert !Looks(words, i + 1);
    assert Looks(words, i + 2);
    forall j | 0 <= j < i + 2 && Looks(words, j) ensures Passes(words[j]) {
      if j < i { assert Looks(words, j); }
    }
  }

  /** A skipped word is not found, unless the word that skips it is `--`. */
  lemma {:induction false} SkippedNotFound(words: seq<string>, i: nat)
    requires i + 1 < |words| && Reaches(words, i) && Takes(words[i]) && Passes(words[i])
    ensures !Finds(words, i + 1)
  {
    PassesMeans(words[i]);
  }

  /** The reading that starts at `i` ends at `k`. */
  ghost predicate EndsAt(words: seq<string>, i: nat, k: nat)
    requires i <= |words|
  {
    Shift(Read(words[i..]), i) == Child(k)
  }

  /** From a word that is reached and not passed, the reading ends here, or right after a `--`, or nowhere. */
  lemma {:induction false} ReadStops(words: seq<string>, i: nat, k: nat)
    requires i < |words| && Reaches(words, i) && !Passes(words[i])
    ensures Finds(words, k) && k >= i <==> EndsAt(words, i, k)
  {
    ReadAt(words, i);
    if Finds(words, k) { FoundFrom(words, i, k); }
  }

  /** A word that is passed alone. */
  lemma {:induction false} ReadPassesOne(words: seq<string>, i: nat, k: nat)
    requires i < |words| && Passes(words[i]) && !Takes(words[i])
    ensures EndsAt(words, i, k) <==> EndsAt(words, i + 1, k)
  {
    ReadAt(words, i);
    PassesMeans(words[i]);
  }

  /** A word that is passed with the next, if there is one. */
  lemma {:induction false} ReadPassesTwo(words: seq<string>, i: nat, k: nat)
    requires i < |words| && Passes(words[i]) && Takes(words[i])
    ensures EndsAt(words, i, k) <==> i + 1 < |words| && EndsAt(words, i + 2, k)
  {
    ReadAt(words, i);
    PassesMeans(words[i]);
  }

  /** The word found lies past a word that is passed, and past the one that it takes. */
  lemma {:induction false} FoundPast(words: seq<string>, i: nat, k: nat)
    requires i < |words| && Reaches(words, i) && Passes(words[i]) && Finds(words, k) && k >= i
    ensures k > i && (Takes(words[i]) ==> i + 1 < |words| && k > i + 1)
  {
    PassesMeans(words[i]);
    FoundFrom(words, i, k);
    if Takes(words[i]) && i + 1 < |words| { SkippedNotFound(words, i); }
  }

  lemma {:induction false} ReadFrom(words: seq<string>, i: nat, k: nat)
    requires i <= |words| && Reaches(words, i)
    ensures Finds(words, k) && k >= i <==> EndsAt(words, i, k)
    decreases |words| - i
  {
    if i < |words| {
      if !Passes(words[i]) {
        ReadStops(words, i, k);
      } else {
        if Finds(words, k) && k >= i { FoundPast(words, i, k); }
        if !Takes(words[i]) {
          ReachesOne(words, i);
          ReadFrom(words, i + 1, k);
          ReadPassesOne(words, i, k);
        } else {
          if i + 1 < |words| {
            ReachesTwo(words, i);
            ReadFrom(words, i + 2, k);
          }
          ReadPassesTwo(words, i, k);
        }
      }
    }
  }

  /** The reading ends at `k` exactly when every word looked at before it is passed and it is looked at. */
  lemma {:induction false} FindsExactly(words: seq<string>, k: nat)
    ensures Read(words) == Child(k) <==> Finds(words, k)
  {
    assert words[0..] == words;
    ReadFrom(words, 0, k);
  }

  // ---------------------------------------------------------------- words in which the loops find the command

  /** What the loops and Bash take the same number of words for. */
  datatype Item = Letters(w: string) | Arg0(name: string) | Duplicate(op: string) | Redirect(op: string, target: string)

  predicate Valid(x: Item) {
    match x
    case Letters(w) => IsFlags(w)
    case Arg0(name) => ShapeOf(name) == Plain
    case Duplicate(op) => IsRedirection(op) && SelfContained(op) && ShapeOf(op) == Attached
    case Redirect(op, target) => IsRedirection(op) && !SelfContained(op) && ShapeOf(op) == Detached && ShapeOf(target) == Plain
  }

  function Words(x: Item): seq<string> {
    match x
    case Letters(w) => [w]
    case Arg0(name) => ["-a", name]
    case Duplicate(op) => [op]
    case Redirect(op, target) => [op, target]
  }

  function AllWords(items: seq<Item>): seq<string> {
    if items == [] then [] else Words(items[0]) + AllWords(items[1..])
  }

  lemma {:induction false} ReadItem(x: Item, rest: seq<string>)
    requires Valid(x)
    ensures Read(Words(x) + rest) == Shift(Read(rest), |Words(x)|)
  {
    var words := Words(x) + rest;
    assert words[|Words(x)|..] == rest;
    match x {
      case Duplicate(op) => RedirectionStart(op);
      case Redirect(op, _) => RedirectionStart(op);
      case Letters(w) =>
        assert w[1] in ['c', 'l'];
        MinusPlain(w);
      case Arg0(_) => MinusPlain("-a");
    }
  }

  lemma {:induction false} FlagLetters(s: string)
    requires forall i | 0 <= i < |s| :: s[i] in ['c', 'l']
    ensures LettersOf(s) == Done
  {
    if s != "" { FlagLetters(s[1..]); }
  }

  lemma {:induction false} BashOption(w: string, rest: seq<string>)
    requires IsOption(w) && w != "--" && LettersOf(w[1..]) == Done
    ensures BashRead([w] + rest, Start) == Shift(BashRead(rest, Start), 1)
  {
    MinusPlain(w);
    PassArgument([w] + rest, Start, Start);
  }

  lemma {:induction false} BashNameOption(rest: seq<string>)
    ensures BashRead(["-a"] + rest, Start) == Shift(BashRead(rest, Name), 1)
  {
    MinusPlain("-a");
    assert "-a"[1..] == "a" && LettersOf("a") == NameNext;
    assert (["-a"] + rest)[1..] == rest;
    PassArgument(["-a"] + rest, Start, Name);
  }

  lemma {:induction false} BashName(name: string, rest: seq<string>)
    requires ShapeOf(name) == Plain
    ensures BashRead(["-a", name] + rest, Start) == Shift(BashRead(rest, Start), 2)
  {
    assert ["-a", name] + rest == ["-a"] + ([name] + rest) && ([name] + rest)[1..] == rest;
    BashNameOption([name] + rest);
    PassArgument([name] + rest, Name, Start);
  }

  lemma {:induction false} BashItem(x: Item, rest: seq<string>)
    requires Valid(x)
    ensures BashRead(Words(x) + rest, Start) == Shift(BashRead(rest, Start), |Words(x)|)
  {
    var words := Words(x) + rest;
    assert words[|Words(x)|..] == rest && words[..|Words(x)|] == Words(x);
    match x {
      case Duplicate(op) => PassRedirection(words, One(op), Start);
      case Redirect(op, target) => PassRedirection(words, Two(op, target), Start);
      case Letters(w) =>
        assert w[1] in ['c', 'l'];
        FlagLetters(w[1..]);
        BashOption(w, rest);
      case Arg0(name) => BashName(name, rest);
    }
  }

  lemma {:induction false} ShiftTwice(r: Reading, m: nat, n: nat)
    ensures Shift(Shift(r, m), n) == Shift(r, n + m)
  {
  }

  lemma {:induction false} ItemsApart(items: seq<Item>, rest: seq<string>)
    requires items != []
    ensures AllWords(items) + rest == Words(items[0]) + (AllWords(items[1..]) + rest)
  {
  }

  lemma {:induction false} ReadItems(items: seq<Item>, rest: seq<string>)
    requires forall x | x in items :: Valid(x)
    ensures Read(AllWords(items) + rest) == Shift(Read(rest), |AllWords(items)|)
  {
    if items == [] {
      assert AllWords(items) + rest == rest;
    } else {
      ReadItems(items[1..], rest);
      ReadItem(items[0], AllWords(items[1..]) + rest);
      ItemsApart(items, rest);
      ShiftTwice(Read(rest), |AllWords(items[1..])|, |Words(items[0])|);
    }
  }

  lemma {:induction false} BashItems(items: seq<Item>, rest: seq<string>)
    requires forall x | x in items :: Valid(x)
    ensures BashRead(AllWords(items) + rest, Start) == Shift(BashRead(rest, Start), |AllWords(items)|)
  {
    if items == [] {
      assert AllWords(items) + rest == rest;
    } else {
      BashItems(items[1..], rest);
      BashItem(items[0], AllWords(items[1..]) + rest);
      ItemsApart(items, rest);
      ShiftTwice(BashRead(rest, Start), |AllWords(items[1..])|, |Words(items[0])|);
    }
  }

  /** After such items the loops find the command that Bash runs. */
  lemma {:induction false} OrdinaryFound(items: seq<Item>, rest: seq<string>)
    requires (forall x | x in items :: Valid(x)) && rest != [] && ShapeOf(rest[0]) == Plain && !IsRedirection(rest[0])
    requires !IsOption(rest[0])
    ensures var n, words := |AllWords(items)|, AllWords(items) + rest; ChildAt(words, n) && Finds(words, n)
  {
    var n := |AllWords(items)|;
    ReadItems(items, rest);
    BashItems(items, rest);
    BashReadIsGrammar(AllWords(items) + rest, n);
    FindsExactly(AllWords(items) + rest, n);
  }

  lemma {:induction false} BashDashes(rest: seq<string>)
    requires rest != [] && ShapeOf(rest[0]) == Plain
    ensures BashRead(["--"] + rest, Start) == Child(1)
  {
    MinusPlain("--");
    assert (["--"] + rest)[1..] == rest;
    PassArgument(["--"] + rest, Start, Command);
  }

  /** And so they do after such items and `--`, whatever the command looks like. */
  lemma {:induction false} DashedFound(items: seq<Item>, rest: seq<string>)
    requires (forall x | x in items :: Valid(x)) && rest != [] && ShapeOf(rest[0]) == Plain
    ensures var n, words := |AllWords(items)|, AllWords(items) + (["--"] + rest); ChildAt(words, n + 1) && Finds(words, n + 1)
  {
    var n := |AllWords(items)|;
    ReadItems(items, ["--"] + rest);
    BashItems(items, ["--"] + rest);
    BashDashes(rest);
    BashReadIsGrammar(AllWords(items) + (["--"] + rest), n + 1);
    FindsExactly(AllWords(items) + (["--"] + rest), n + 1);
  }

  // ---------------------------------------------------------------- words in which they do not

  lemma {:induction false} BashOneWord(op: string, rest: seq<string>)
    requires ShapeOf(op) == Attached && rest != [] && ShapeOf(rest[0]) == Plain && !IsOption(rest[0])
    ensures BashRead([op] + rest, Start) == Child(1)
  {
    assert ([op] + rest)[..1] == [op] && ([op] + rest)[1..] == rest;
    PassRedirection([op] + rest, One(op), Start);
  }

  lemma {:induction false} BashAfterOne(items: seq<Item>, op: string, rest: seq<string>)
    requires (forall x | x in items :: Valid(x)) && ShapeOf(op) == Attached
    requires rest != [] && ShapeOf(rest[0]) == Plain && !IsOption(rest[0])
    ensures ChildAt(AllWords(items) + ([op] + rest), |AllWords(items)| + 1)
  {
    BashItems(items, [op] + rest);
    BashOneWord(op, rest);
    BashReadIsGrammar(AllWords(items) + ([op] + rest), |AllWords(items)| + 1);
  }

  lemma {:induction false} SkipsCommand(op: string, rest: seq<string>)
    requires IsRedirection(op) && !SelfContained(op) && rest != []
    ensures Read([op] + rest) == Shift(Read(rest[1..]), 2)
  {
    RedirectionStart(op);
    assert ([op] + rest)[2..] == rest[1..];
  }

  lemma {:induction false} SkipsPast(items: seq<Item>, op: string, rest: seq<string>)
    requires (forall x | x in items :: Valid(x)) && IsRedirection(op) && !SelfContained(op) && rest != []
    ensures !Finds(AllWords(items) + ([op] + rest), |AllWords(items)| + 1)
  {
    ReadItems(items, [op] + rest);
    SkipsCommand(op, rest);
    FindsExactly(AllWords(items) + ([op] + rest), |AllWords(items)| + 1);
  }

  /**
   A redirection that is complete in Bash but does not end in `&1` or `&2`, right before the command: the
   loop takes the command for its target. All such words have an `&`, so only the oracle meets them.
   */
  lemma {:induction false} TakenForTarget(items: seq<Item>, op: string, rest: seq<string>)
    requires (forall x | x in items :: Valid(x)) && IsRedirection(op) && !SelfContained(op) && ShapeOf(op) == Attached
    requires rest != [] && ShapeOf(rest[0]) == Plain && !IsOption(rest[0])
    ensures var n, words := |AllWords(items)|, AllWords(items) + ([op] + rest); ChildAt(words, n + 1) && !Finds(words, n + 1)
  {
    BashAfterOne(items, op, rest);
    SkipsPast(items, op, rest);
  }

  lemma {:induction false} FoundAtRedirection(items: seq<Item>, op: string, rest: seq<string>)
    requires (forall x | x in items :: Valid(x)) && !IsRedirection(op) && ShapeOf(op) == Attached
    ensures Finds(AllWords(items) + ([op] + rest), |AllWords(items)|)
  {
    ReadItems(items, [op] + rest);
    StopsAtRedirection(op, rest);
    FindsExactly(AllWords(items) + ([op] + rest), |AllWords(items)|);
  }

  lemma {:induction false} StopsAtRedirection(op: string, rest: seq<string>)
    requires !IsRedirection(op) && ShapeOf(op) == Attached
    ensures Read([op] + rest) == Child(0)
  {
    if op != "" && op[0] == '-' { MinusPlain(op); }
  }

  /** A redirection with a file name in the same word: the loops take it for the command. */
  lemma {:induction false} TakenForCommand(items: seq<Item>, op: string, rest: seq<string>)
    requires (forall x | x in items :: Valid(x)) && !IsRedirection(op) && ShapeOf(op) == Attached
    requires rest != [] && ShapeOf(rest[0]) == Plain && !IsOption(rest[0])
    ensures var n, words := |AllWords(items)|, AllWords(items) + ([op] + rest); ChildAt(words, n + 1) && Finds(words, n)
  {
    BashAfterOne(items, op, rest);
    FoundAtRedirection(items, op, rest);
  }

  lemma {:induction false} PlainWord(w: string)
    requires w != "" && 'a' <= w[0] <= 'z'
    ensures ShapeOf(w) == Plain && !IsOption(w) && !IsRedirection(w)
  {
    assert AfterDigits(w) == w;
  }

  lemma {:induction false} CloseShape()
    ensures ShapeOf("3>&-") == Attached && IsRedirection("3>&-") && !SelfContained("3>&-")
  {
    assert "3>&-"[1..] == ">&-" && AfterDigits(">&-") == ">&-";
    assert AfterDigits("3>&-") == ">&-";
    assert OperatorLength(">&-") == 2 && ">&-"[2..] == "-";
    assert ">&-"[1..] == "&-" && "&-"[1..] == "-";
  }

  lemma {:induction false} NotDigits(w: string)
    requires w != "" && !Digit(w[0]) && w[0] != '-'
    ensures exists c :: c in w && !(Digit(c) || c == '-')
  {
    assert w[0] in w;
  }

  lemma {:induction false} LogPattern()
    ensures !IsRedirection(">log")
  {
    assert AfterDigits(">log") == ">log" && ">log"[1..] == "log";
    NotDigits("log");
  }

  lemma {:induction false} LogShape()
    ensures ShapeOf(">log") == Attached
  {
    assert AfterDigits(">log") == ">log";
    assert OperatorLength(">log") == 1 && ">log"[1..] == "log";
  }

  /** `exec 3>&- docker run` runs `docker`; on these words the reading ends at `run`. */
  lemma {:induction false} CloseMissed()
    ensures ChildAt(["3>&-", "docker", "run"], 1) && Finds(["3>&-", "docker", "run"], 2)
  {
    var words := ["3>&-", "docker", "run"];
    CloseShape();
    PlainWord("docker");
    PlainWord("run");
    assert AllWords([]) + (["3>&-"] + ["docker", "run"]) == words;
    TakenForTarget([], "3>&-", ["docker", "run"]);
    assert words[2..] == ["run"] && Read(["run"]) == Child(0);
    RedirectionStart("3>&-");
    FindsExactly(words, 2);
  }

  /** `exec >log docker run` runs `docker`; on these words the reading ends at `>log`. */
  lemma {:induction false} LogMissed()
    ensures ChildAt([">log", "docker", "run"], 1) && Finds([">log", "docker", "run"], 0)
  {
    LogShape();
    LogPattern();
    PlainWord("docker");
    assert AllWords([]) + ([">log"] + ["docker", "run"]) == [">log", "docker", "run"];
    TakenForCommand([], ">log", ["docker", "run"]);
  }

  lemma {:induction false} NotTheName(name: string, rest: seq<string>)
    ensures var r := BashRead([name] + rest, Name); r.Child? ==> r.at > 0
  {
  }

  lemma {:induction false} BashPastTheName(name: string, rest: seq<string>)
    ensures var r := BashRead(["-a", name] + rest, Start); r.Child? ==> r.at > 1
  {
    assert ["-a", name] + rest == ["-a"] + ([name] + rest);
    BashNameOption([name] + rest);
    NotTheName(name, rest);
  }

  lemma {:induction false} ReadPastTheName(name: string, rest: seq<string>)
    ensures Read(["-a", name] + rest) == Shift(Read(rest), 2)
  {
    MinusPlain("-a");
    assert (["-a", name] + rest)[2..] == rest;
  }

  /** The word after `-a` is never the command: not in Bash, and not to the loops. */
  lemma {:induction false} NameIsNotTheChild(items: seq<Item>, name: string, rest: seq<string>, k: nat)
    requires forall x | x in items :: Valid(x)
    requires var words := AllWords(items) + (["-a", name] + rest); ChildAt(words, k) || Finds(words, k)
    ensures k > |AllWords(items)| + 1
  {
    var words := AllWords(items) + (["-a", name] + rest);
    ReadItems(items, ["-a", name] + rest);
    BashItems(items, ["-a", name] + rest);
    BashPastTheName(name, rest);
    ReadPastTheName(name, rest);
    BashReadIsGrammar(words, k);
    FindsExactly(words, k);
  }

  // ---------------------------------------------------------------- the two scanners

  function StripQuotes(w: string): string {
    if w != "" && w[0] in ['"', '\''] then StripQuotes(w[1..])
    else if w != "" && w[|w| - 1] in ['"', '\''] then StripQuotes(w[..|w| - 1])
    else w
  }

  datatype Classification =
    | STATIC_CHILD_DISCOVERED | DYNAMIC_CHILD_UNRESOLVED | MALFORMED_AND_FAIL_CLOSED
    | EXEC_WITHOUT_CHILD | UNSUPPORTED_AND_FAIL_CLOSED

  predicate PathChar(c: char) {
    'A' <= c <= 'Z' || 'a' <= c <= 'z' || '0' <= c <= '9' || c in ['_', '.', '/', '+', '-']
  }

  function Classify(child: string): Classification {
    if (|child| > 0 && child[0] == '$') || (|child| > 1 && child[1] == '$') || '`' in child then DYNAMIC_CHILD_UNRESOLVED
    else if child == "" || exists c | c in child :: !PathChar(c) then MALFORMED_AND_FAIL_CLOSED
    else STATIC_CHILD_DISCOVERED
  }

  /** An option word, or the word after a `-a`. */
  ghost predicate Optional(words: seq<string>, o: string) {
    IsOption(o) || (exists j | 0 <= j < |words| - 1 :: words[j] == "-a" && words[j + 1] == o)
  }

  /** `exec_transfer_oracle._candidate_child`. */
  method CandidateChild(words: seq<string>) returns (child: string, class_: Classification, opts: seq<string>)
    ensures match Read(words)
            case Child(k) => k < |words| && child == StripQuotes(words[k]) && class_ == Classify(child)
            case NoChild => child == "" && class_ == EXEC_WITHOUT_CHILD
            case Unsupported => child == "" && class_ == UNSUPPORTED_AND_FAIL_CLOSED
    ensures forall o | o in opts :: Optional(words, o)
  {
    opts := [];
    var i := 0;
    var open := true;
    while i < |words| && open
      invariant i <= |words|
      invariant open ==> Shift(Read(words[i..]), i) == Read(words)
      invariant !open ==> Read(words) == if i < |words| then Child(i) else NoChild
      invariant forall o | o in opts :: Optional(words, o)
      decreases |words| - i, open
    {
      var w := words[i];
      ReadAt(words, i);
      if w == "--" {
        opts := opts + [w];
        i := i + 1;
        open := false;
      } else if IsRedirection(w) {
        i := i + 1;
        if !SelfContained(w) && i < |words| { i := i + 1; }
      } else if !IsOption(w) {
        open := false;
      } else if w == "-a" {
        opts := opts + [w];
        i := i + 1;
        if i >= |words| { return "", UNSUPPORTED_AND_FAIL_CLOSED, opts; }
        assert Optional(words, words[i]);
        opts := opts + [words[i]];
        i := i + 1;
      } else if IsFlags(w) {
        opts := opts + [w];
        i := i + 1;
      } else {
        return "", UNSUPPORTED_AND_FAIL_CLOSED, opts;
      }
    }
    if i >= |words| { return "", EXEC_WITHOUT_CHILD, opts; }
    child := StripQuotes(words[i]);
    class_ := Classify(child);
  }

  /** How far the index loop of `_command_words` has got; it may step past the end after a final `-a`. */
  ghost predicate Tracks(parts: seq<string>, start: nat, idx: nat, open: bool)
    requires start <= |parts|
  {
    start <= idx &&
    if idx > |parts| then !Read(parts[start..]).Child?
    else if open then Read(parts[start..]) == Shift(Read(parts[idx..]), idx - start)
    else if idx < |parts| then Read(parts[start..]) == Child(idx - start)
    else !Read(parts[start..]).Child?
  }

  /** One turn of the loop on an open scan: the next index, and whether to go on. */
  function Turn(parts: seq<string>, idx: nat): (nat, bool)
    requires idx < |parts|
  {
    var opt := parts[idx];
    if opt == "--" then (idx + 1, false)
    else if IsRedirection(opt) then (if !SelfContained(opt) && idx + 1 < |parts| then idx + 2 else idx + 1, true)
    else if !IsOption(opt) then (idx, false)
    else if opt == "-a" then (idx + 2, true)
    else if IsFlags(opt) then (idx + 1, true)
    else (|parts|, false)
  }

  lemma {:induction false} TurnTracks(parts: seq<string>, start: nat, idx: nat)
    requires start <= |parts| && idx < |parts| && Tracks(parts, start, idx, true)
    ensures Tracks(parts, start, Turn(parts, idx).0, Turn(parts, idx).1)
  {
  }

  /** The `exec` handling of `docker_boundary._command_words`, from the word after `exec` at `start`. */
  method SkipToChild(parts: seq<string>, start: nat) returns (idx: nat)
    requires start <= |parts|
    ensures idx < |parts| <==> Read(parts[start..]).Child?
    ensures idx < |parts| ==> idx == start + Read(parts[start..]).at
  {
    idx := start;
    var open := true;
    while idx < |parts| && open
      invariant Tracks(parts, start, idx, open)
      decreases |parts| - idx, open
    {
      TurnTracks(parts, start, idx);
      ghost var turn := Turn(parts, idx);
      var opt := parts[idx];
      if opt == "--" {
        idx := idx + 1;
        open := false;
      } else if IsRedirection(opt) {
        idx := idx + 1;
        if !SelfContained(opt) && idx < |parts| { idx := idx + 1; }
      } else if !IsOption(opt) {
        open := false;
      } else if opt == "-a" {
        idx := idx + 2;
      } else if IsFlags(opt) {
        idx := idx + 1;
      } else {
        idx := |parts|;
        open := false;
      }
      assert idx == turn.0 && open == turn.1;
    }
  }

  /**
   Given the same words the two loops name the same word or neither names one, and it is the command that
   Bash runs exactly when the loops find that.
   */
  method LoopsAgree(words: seq<string>) returns (child: string, idx: nat)
    ensures if idx < |words| then child == StripQuotes(words[idx]) else child == ""
    ensures forall k: nat | k < |words| :: k == idx <==> Finds(words, k)
    ensures forall k: nat | ChildAt(words, k) :: k == idx <==> Finds(words, k)
  {
    var class_, opts;
    child, class_, opts := CandidateChild(words);
    idx := SkipToChild(words, 0);
    assert words[0..] == words;
    forall k: nat ensures Read(words) == Child(k) <==> Finds(words, k) { FindsExactly(words, k); }
  }

  // ---------------------------------------------------------------- comments

  /** `str.isspace` of one character. */
  predicate IsSpace(c: char) {
    var n := c as int;
    9 <= n <= 13 || 28 <= n <= 32 || n in {0x85, 0xa0, 0x1680, 0x2028, 0x2029, 0x202f, 0x205f, 0x3000} || 0x2000 <= n <= 0x200a
  }

  predicate IsQuote(c: char) { c == '"' || c == '\'' }

  /** The quote open before position `i`. */
  function QuoteAt(line: string, i: nat): Option<char>
    requires i <= |line|
  {
    if i == 0 then None
    else
      match QuoteAt(line, i - 1)
      case Some(q) => if line[i - 1] == q then None else Some(q)
      case None => if IsQuote(line[i - 1]) then Some(line[i - 1]) else None
  }

  predicate CommentAt(line: string, i: nat)
    requires i < |line|
  {
    QuoteAt(line, i) == None && line[i] == '#' && (i == 0 || IsSpace(line[i - 1]))
  }

  /** `n` is where the first comment starts, or the end of the line. */
  ghost predicate Cut(line: string, n: nat) {
    && n <= |line| && (forall i | 0 <= i < n :: !CommentAt(line, i))
    && (n < |line| ==> CommentAt(line, n))
  }

  /** `docker_boundary._strip_comment`. */
  method StripComment(line: string) returns (out: string)
    ensures Cut(line, |out|) && out == line[..|out|]
  {
    out := "";
    var quote: Option<char> := None;
    var i := 0;
    while i < |line|
      invariant i <= |line| && out == line[..i] && quote == QuoteAt(line, i)
      invariant forall j | 0 <= j < i :: !CommentAt(line, j)
    {
      var ch := line[i];
      if quote.Some? {
        if ch == quote.value { quote := None; }
      } else if IsQuote(ch) {
        quote := Some(ch);
      } else if ch == '#' && (out == "" || IsSpace(out[|out| - 1])) {
        break;
      }
      out := out + [ch];
      i := i + 1;
    }
  }

  /** What is left of the character at `i`: quotes and quoted text are blanked. */
  function Inert(line: string, i: nat): char
    requires i < |line|
  {
    if QuoteAt(line, i).Some? || IsQuote(line[i]) then ' ' else line[i]
  }

  function InertText(line: string, n: nat): (out: string)
    requires n <= |line|
    ensures |out| == n && forall i | 0 <= i < n :: out[i] == Inert(line, i)
  {
    if n == 0 then "" else InertText(line, n - 1) + [Inert(line, n - 1)]
  }

  /** `exec_transfer_oracle._strip_inert`: the same cut, with quoted text blanked in place. */
  method StripInert(line: string) returns (out: string)
    ensures Cut(line, |out|)
    ensures forall i | 0 <= i < |out| ::
              out[i] == if QuoteAt(line, i).Some? || IsQuote(line[i]) then ' ' else line[i]
  {
    out := "";
    var quote: Option<char> := None;
    var i := 0;
    while i < |line|
      invariant i <= |line| && out == InertText(line, i) && quote == QuoteAt(line, i)
      invariant forall j | 0 <= j < i :: !CommentAt(line, j)
    {
      var ch := line[i];
      if quote.Some? {
        if ch == quote.value { quote := None; }
        out := out + " ";
      } else if IsQuote(ch) {
        quote := Some(ch);
        out := out + " ";
      } else if ch == '#' && (i == 0 || IsSpace(line[i - 1])) {
        break;
      } else {
        out := out + [ch];
      }
      i := i + 1;
    }
    assert forall j | 0 <= j < |out| :: out[j] == Inert(line, j);
  }

  /** Both strippers cut the line in the same place, so offsets in one are offsets in the other. */
  lemma {:induction false} CutUnique(line: string, m: nat, n: nat)
    requires Cut(line, m) && Cut(line, n)
    ensures m == n
  {
  }
}
