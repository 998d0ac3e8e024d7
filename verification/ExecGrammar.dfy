/**
 The command that Bash's `exec` runs: `exec [-cl] [-a name] [command [arguments]]` with redirections
 anywhere among the words (Bash Reference Manual, sections 3.6 and 4.1).

 The words are those of one simple command, without quoting or expansions before the command itself,
 and a redirection operator stands at the start of its word.
 */
module ExecGrammar {
  import opened Common

  // ---------------------------------------------------------------- redirections

  predicate Digit(c: char) { '0' <= c <= '9' }

  predicate NameChar(c: char) { 'a' <= c <= 'z' || 'A' <= c <= 'Z' || Digit(c) || c == '_' }

  function AfterDigits(w: string): string {
    if w != "" && Digit(w[0]) then AfterDigits(w[1..]) else w
  }

  function AfterName(w: string): string {
    if w != "" && NameChar(w[0]) then AfterName(w[1..]) else w
  }

  /** The word without a leading file descriptor, `3` or `{name}`. */
  function AfterDescriptor(w: string): string {
    if w != "" && w[0] == '{' then
      var rest := AfterName(w[1..]);
      if rest != "" && rest[0] == '}' then rest[1..] else w
    else AfterDigits(w)
  }

  predicate CharAt(w: string, i: nat, c: char) { i < |w| && w[i] == c }

  /** The length of the operator the word starts with: `<<<` `<<-` `<<` `<&` `<>` `<` `>>` `>&` `>|` `>` `&>>` or `&>`. */
  function OperatorLength(w: string): (n: nat)
    ensures n <= |w|
  {
    if CharAt(w, 0, '<') then
      if CharAt(w, 1, '<') then if CharAt(w, 2, '<') || CharAt(w, 2, '-') then 3 else 2
      else if CharAt(w, 1, '&') || CharAt(w, 1, '>') then 2 else 1
    else if CharAt(w, 0, '>') then
      if CharAt(w, 1, '>') || CharAt(w, 1, '&') || CharAt(w, 1, '|') then 2 else 1
    else if CharAt(w, 0, '&') && CharAt(w, 1, '>') then if CharAt(w, 2, '>') then 3 else 2
    else 0
  }

  /** How a word takes part: as a word, or as a redirection with its target, without it, or with nonsense for it. */
  datatype Shape = Plain | Attached | Detached | Broken

  predicate Control(c: char) { c == '&' || c == '|' || c == ';' || c == '<' || c == '>' || c == '(' || c == ')' }

  function TargetShape(target: string): Shape {
    if target == "" then Detached else if Control(target[0]) then Broken else Attached
  }

  function ShapeOf(w: string): Shape {
    var s := AfterDescriptor(w);
    var n := OperatorLength(s);
    if n == 0 || (n == 1 && CharAt(s, 1, '(')) then Plain       // `<(...)` and `>(...)` are process substitutions
    else if s != w && s[0] == '&' then Plain                    // `&>` takes no descriptor
    else TargetShape(s[n..])
  }

  // ---------------------------------------------------------------- options

  predicate IsOption(w: string) { w != "" && w[0] == '-' && w != "-" }

  predicate AreFlags(s: string) { forall c | c in s :: c == 'c' || c == 'l' }

  /** What the letters after a `-` ask for: nothing more, the name in the next word, or they are wrong. */
  datatype Letters = Done | NameNext | Wrong

  function LettersOf(s: string): Letters {
    if s == "" then Done
    else if s[0] == 'c' || s[0] == 'l' then LettersOf(s[1..])
    else if s[0] == 'a' then if |s| == 1 then NameNext else Done
    else Wrong
  }

  // ---------------------------------------------------------------- the grammar

  /** One option, with the name that `-a` takes. */
  datatype Group = Flags(flags: string) | NameIn(flags: string, name: string) | NameAfter(flags: string, name: string)

  predicate ValidGroup(g: Group) {
    AreFlags(g.flags) && (g.Flags? ==> g.flags != "") && (g.NameIn? ==> g.name != "")
  }

  function GroupWords(g: Group): seq<string> {
    match g
    case Flags(fs) => ["-" + fs]
    case NameIn(fs, name) => ["-" + fs + "a" + name]
    case NameAfter(fs, name) => ["-" + fs + "a", name]
  }

  function Options(gs: seq<Group>): seq<string> { if gs == [] then [] else GroupWords(gs[0]) + Options(gs[1..]) }

  /** A piece of the line: a redirection, of one word or two, or an argument. */
  datatype Piece = One(w: string) | Two(op: string, target: string) | Argument(w: string)

  predicate ValidPiece(p: Piece) {
    match p
    case One(w) => ShapeOf(w) == Attached
    case Two(op, target) => ShapeOf(op) == Detached && ShapeOf(target) == Plain
    case Argument(w) => ShapeOf(w) == Plain
  }

  function PieceWords(p: Piece): seq<string> {
    match p
    case One(w) => [w]
    case Two(op, target) => [op, target]
    case Argument(w) => [w]
  }

  function Line(ps: seq<Piece>): seq<string> { if ps == [] then [] else PieceWords(ps[0]) + Line(ps[1..]) }

  /** What is left when the redirections are taken out. */
  function Arguments(ps: seq<Piece>): seq<string> {
    if ps == [] then [] else (if ps[0].Argument? then [ps[0].w] else []) + Arguments(ps[1..])
  }

  function Dashes(dashes: bool): seq<string> { if dashes then ["--"] else [] }

  ghost predicate Pieces(words: seq<string>, k: nat, ps: seq<Piece>)
    requires k < |words|
  {
    (forall p | p in ps :: ValidPiece(p)) && words[..k] == Line(ps)
  }

  /** `k` is where the command stands: what precedes it, but for redirections, is options and, possibly, `--`. */
  ghost predicate ChildAt(words: seq<string>, k: nat) {
    k < |words| && exists ps: seq<Piece>, gs: seq<Group>, dashes: bool :: Parses(words, k, ps, gs, dashes, Start)
  }

  // ---------------------------------------------------------------- a recursive reading

  /** What is expected next: options, the name for `-a`, or, after `--`, the command. */
  datatype Mode = Start | Name | Command

  ghost predicate Fits(args: seq<string>, gs: seq<Group>, dashes: bool, mode: Mode) {
    match mode
    case Start => args == Options(gs) + Dashes(dashes)
    case Name => args != [] && args[1..] == Options(gs) + Dashes(dashes)
    case Command => args == [] && gs == [] && dashes
  }

  ghost predicate Parses(words: seq<string>, k: nat, ps: seq<Piece>, gs: seq<Group>, dashes: bool, mode: Mode)
    requires k < |words|
  {
    && Pieces(words, k, ps) && (forall g | g in gs :: ValidGroup(g)) && Fits(Arguments(ps), gs, dashes, mode)
    && ShapeOf(words[k]) == Plain && (dashes || !IsOption(words[k]))
  }

  datatype Reading = Child(at: nat) | NoChild | Unsupported

  function Shift(r: Reading, n: nat): Reading { if r.Child? then Child(r.at + n) else r }

  function BashRead(words: seq<string>, mode: Mode): Reading
    decreases |words|
  {
    if words == [] then NoChild
    else
      match ShapeOf(words[0])
      case Attached => Shift(BashRead(words[1..], mode), 1)
      case Detached =>
        if |words| > 1 && ShapeOf(words[1]) == Plain then Shift(BashRead(words[2..], mode), 2) else Unsupported
      case Broken => Unsupported
      case Plain =>
        match Next(words[0], mode)
        case None => if mode == Start && IsOption(words[0]) then Unsupported else Child(0)
        case Some(next) => Shift(BashRead(words[1..], next), 1)
  }

  /** What is expected after the word, if the word is an option or its name. */
  function Next(w: string, mode: Mode): Option<Mode> {
    match mode
    case Name => Some(Start)
    case Command => None
    case Start =>
      if w == "--" then Some(Command)
      else if !IsOption(w) then None
      else
        match LettersOf(w[1..])
        case Done => Some(Start)
        case NameNext => Some(Name)
        case Wrong => None
  }

  // ---------------------------------------------------------------- the reading is the grammar

  lemma {:induction false} LettersOfFlags(flags: string, rest: string)
    requires AreFlags(flags)
    ensures LettersOf(flags + rest) == LettersOf(rest)
  {
    if flags == "" {
      assert flags + rest == rest;
    } else {
      assert flags[0] in flags && forall c | c in flags[1..] :: c in flags;
      assert (flags + rest)[1..] == flags[1..] + rest;
      LettersOfFlags(flags[1..], rest);
    }
  }

  /** The first word of an option says what is expected next. */
  lemma {:induction false} GroupNext(g: Group)
    requires ValidGroup(g)
    ensures Next(GroupWords(g)[0], Start) == Some(if g.NameAfter? then Name else Start)
  {
    match g {
      case Flags(fs) =>
        LettersOfFlags(fs, "");
        assert fs + "" == fs && ("-" + fs)[1..] == fs;
        assert ("-" + fs)[1] == fs[0] && fs[0] in fs;
      case NameIn(fs, name) =>
        LettersOfFlags(fs, "a" + name);
        assert ("-" + fs + "a" + name)[1..] == fs + ("a" + name);
        assert ("-" + fs + "a" + name)[|fs| + 1] == 'a';
      case NameAfter(fs, _) =>
        LettersOfFlags(fs, "a");
        assert ("-" + fs + "a")[1..] == fs + "a";
        assert ("-" + fs + "a")[|fs| + 1] == 'a';
    }
  }

  /** The flags that letters start with, up to the end or to an `a`. */
  lemma {:induction false} FlagsFirst(s: string) returns (n: nat)
    requires !LettersOf(s).Wrong?
    ensures n <= |s| && AreFlags(s[..n]) && LettersOf(s) == LettersOf(s[n..]) && (n == |s| || s[n] == 'a')
  {
    if s == "" || s[0] == 'a' {
      n := 0;
    } else {
      var m := FlagsFirst(s[1..]);
      n := m + 1;
      assert s[..n] == [s[0]] + s[1..][..m] && s[n..] == s[1..][m..];
    }
  }

  /** The letters of a word that is an option, as an option. */
  lemma {:induction false} SplitLetters(s: string) returns (g: Group)
    requires LettersOf(s) == Done && s != ""
    ensures ValidGroup(g) && !g.NameAfter? && GroupWords(g) == ["-" + s]
  {
    var n := FlagsFirst(s);
    if n == |s| {
      g := Flags(s);
      assert s[..n] == s;
    } else {
      g := NameIn(s[..n], s[n + 1..]);
      assert s[..n] + "a" + s[n + 1..] == s;
      assert "-" + s[..n] + "a" + s[n + 1..] == "-" + (s[..n] + "a" + s[n + 1..]);
    }
  }

  lemma {:induction false} SplitNameNext(s: string, name: string) returns (g: Group)
    requires LettersOf(s) == NameNext
    ensures ValidGroup(g) && g.NameAfter? && GroupWords(g) == ["-" + s, name]
  {
    var n := FlagsFirst(s);
    assert s[..n] + "a" == s by { assert s[n..] == "a"; }
    g := NameAfter(s[..n], name);
    assert "-" + s[..n] + "a" == "-" + (s[..n] + "a");
  }

  lemma {:induction false} OptionsHead(gs: seq<Group>, dashes: bool, args: seq<string>)
    requires args == Options(gs) + Dashes(dashes) && args != []
    ensures gs == [] ==> dashes && args == ["--"]
    ensures gs != [] ==> args[0] == GroupWords(gs[0])[0]
    ensures gs != [] ==> args[1..] == GroupWords(gs[0])[1..] + (Options(gs[1..]) + Dashes(dashes))
  {
    if gs != [] {
      var more := Options(gs[1..]) + Dashes(dashes);
      assert args == GroupWords(gs[0]) + more;
    }
  }

  /** One argument of a parse: the rest of the arguments is a parse in the mode that comes next. */
  lemma {:induction false} ArgumentFits(args: seq<string>, gs: seq<Group>, dashes: bool, mode: Mode)
    returns (more: seq<Group>, next: Mode)
    requires args != [] && (forall g | g in gs :: ValidGroup(g)) && Fits(args, gs, dashes, mode)
    ensures Next(args[0], mode) == Some(next) && (forall g | g in more :: ValidGroup(g)) && Fits(args[1..], more, dashes, next)
  {
    if mode == Name {
      more, next := gs, Start;
    } else {
      OptionsHead(gs, dashes, args);
      if gs == [] {
        more, next := [], Command;
      } else {
        GroupNext(gs[0]);
        more, next := gs[1..], if gs[0].NameAfter? then Name else Start;
      }
    }
  }

  lemma {:induction false} EmptyFits(gs: seq<Group>, dashes: bool, mode: Mode)
    requires Fits([], gs, dashes, mode)
    ensures mode != Name && (mode == Start ==> !dashes)
  {
  }

  lemma {:induction false} DropPiece(words: seq<string>, k: nat, ps: seq<Piece>)
    requires k < |words| && Pieces(words, k, ps) && ps != []
    ensures var n := |PieceWords(ps[0])|;
      && n <= k && words[..n] == PieceWords(ps[0]) && words[n..][k - n] == words[k]
      && k - n < |words[n..]| && Pieces(words[n..], k - n, ps[1..])
  {
    var n := |PieceWords(ps[0])|;
    assert words[..k] == PieceWords(ps[0]) + Line(ps[1..]);
    assert words[..n] == words[..k][..n];
    assert words[n..][..k - n] == words[..k][n..];
  }

  /** A redirection in front is passed over. */
  lemma {:induction false} PassRedirection(words: seq<string>, p: Piece, mode: Mode)
    requires !p.Argument? && |PieceWords(p)| <= |words| && words[..|PieceWords(p)|] == PieceWords(p) && ValidPiece(p)
    ensures BashRead(words, mode) == Shift(BashRead(words[|PieceWords(p)|..], mode), |PieceWords(p)|)
  {
    var n := |PieceWords(p)|;
    assert words[0] == words[..n][0];
    if p.Two? { assert words[1] == words[..n][1]; }
  }

  /** An option word or a name in front is passed over. */
  lemma {:induction false} PassArgument(words: seq<string>, mode: Mode, next: Mode)
    requires words != [] && ShapeOf(words[0]) == Plain && Next(words[0], mode) == Some(next)
    ensures BashRead(words, mode) == Shift(BashRead(words[1..], next), 1)
  {
  }

  lemma {:induction false} StopsHere(words: seq<string>, mode: Mode)
    requires words != [] && ShapeOf(words[0]) == Plain && mode != Name && (mode == Start ==> !IsOption(words[0]))
    ensures BashRead(words, mode) == Child(0) && Parses(words, 0, [], [], mode == Command, mode)
  {
  }

  /** A parse without the argument in front. */
  lemma {:induction false} DropArgument(words: seq<string>, k: nat, ps: seq<Piece>, gs: seq<Group>, dashes: bool, mode: Mode)
    returns (more: seq<Group>, next: Mode)
    requires k < |words| && ps != [] && ps[0].Argument? && Parses(words, k, ps, gs, dashes, mode)
    ensures k > 0 && BashRead(words, mode) == Shift(BashRead(words[1..], next), 1)
    ensures Parses(words[1..], k - 1, ps[1..], more, dashes, next)
  {
    DropPiece(words, k, ps);
    assert ps[0] in ps && ValidPiece(ps[0]);
    var args := Arguments(ps);
    assert words[0] == words[..1][0] == args[0] && args[1..] == Arguments(ps[1..]);
    more, next := ArgumentFits(args, gs, dashes, mode);
    PassArgument(words, mode, next);
  }

  /** A parse without the redirection in front. */
  lemma {:induction false} DropRedirection(words: seq<string>, k: nat, ps: seq<Piece>, gs: seq<Group>, dashes: bool, mode: Mode)
    requires k < |words| && ps != [] && !ps[0].Argument? && Parses(words, k, ps, gs, dashes, mode)
    ensures |PieceWords(ps[0])| <= k
    ensures BashRead(words, mode) == Shift(BashRead(words[|PieceWords(ps[0])|..], mode), |PieceWords(ps[0])|)
    ensures Parses(words[|PieceWords(ps[0])|..], k - |PieceWords(ps[0])|, ps[1..], gs, dashes, mode)
  {
    DropPiece(words, k, ps);
    assert ps[0] in ps && Arguments(ps) == Arguments(ps[1..]);
    PassRedirection(words, ps[0], mode);
  }

  lemma {:induction false} NothingBefore(words: seq<string>, k: nat, gs: seq<Group>, dashes: bool, mode: Mode)
    requires k < |words| && Parses(words, k, [], gs, dashes, mode)
    ensures BashRead(words, mode) == Child(k)
  {
    EmptyFits(gs, dashes, mode);
    StopsHere(words, mode);
  }

  lemma {:induction false} ParsesRead(words: seq<string>, k: nat, ps: seq<Piece>, gs: seq<Group>, dashes: bool, mode: Mode)
    requires k < |words| && Parses(words, k, ps, gs, dashes, mode)
    ensures BashRead(words, mode) == Child(k)
    decreases |ps|
  {
    if ps == [] {
      NothingBefore(words, k, gs, dashes, mode);
    } else if ps[0].Argument? {
      var more, next := DropArgument(words, k, ps, gs, dashes, mode);
      ParsesRead(words[1..], k - 1, ps[1..], more, dashes, next);
    } else {
      var n := |PieceWords(ps[0])|;
      DropRedirection(words, k, ps, gs, dashes, mode);
      ParsesRead(words[n..], k - n, ps[1..], gs, dashes, mode);
    }
  }

  lemma {:induction false} AddPiece(words: seq<string>, k: nat, p: Piece, ps: seq<Piece>)
    requires |PieceWords(p)| <= k < |words| && words[..|PieceWords(p)|] == PieceWords(p) && ValidPiece(p)
    requires Pieces(words[|PieceWords(p)|..], k - |PieceWords(p)|, ps)
    ensures Pieces(words, k, [p] + ps)
    ensures Arguments([p] + ps) == (if p.Argument? then [p.w] else []) + Arguments(ps)
  {
    var n := |PieceWords(p)|;
    assert ([p] + ps)[1..] == ps;
    assert Line([p] + ps) == PieceWords(p) + Line(ps);
    assert words[..k] == words[..n] + words[n..][..k - n];
  }

  /** Adding a redirection to a parse. */
  lemma {:induction false} AddRedirection(words: seq<string>, k: nat, p: Piece, ps: seq<Piece>, gs: seq<Group>,
                                          dashes: bool, mode: Mode)
    requires !p.Argument? && |PieceWords(p)| <= k < |words| && words[..|PieceWords(p)|] == PieceWords(p) && ValidPiece(p)
    requires Parses(words[|PieceWords(p)|..], k - |PieceWords(p)|, ps, gs, dashes, mode)
    ensures Parses(words, k, [p] + ps, gs, dashes, mode)
  {
    AddPiece(words, k, p, ps);
  }

  lemma {:induction false} OptionInFront(g: Group, gs: seq<Group>, dashes: bool)
    ensures Options([g] + gs) + Dashes(dashes) == GroupWords(g) + (Options(gs) + Dashes(dashes))
  {
    assert ([g] + gs)[1..] == gs;
  }

  /** The arguments with an option word in front. */
  lemma {:induction false} WordFits(w: string, args: seq<string>, gs: seq<Group>, dashes: bool) returns (g: Group)
    requires IsOption(w)
    requires match LettersOf(w[1..])
             case Done => Fits(args, gs, dashes, Start)
             case NameNext => Fits(args, gs, dashes, Name)
             case Wrong => false
    ensures ValidGroup(g) && Fits([w] + args, [g] + gs, dashes, Start)
  {
    assert w == "-" + w[1..];
    if LettersOf(w[1..]) == NameNext {
      g := SplitNameNext(w[1..], args[0]);
      assert args == [args[0]] + args[1..];
      assert [w] + args == GroupWords(g) + (Options(gs) + Dashes(dashes));
    } else {
      g := SplitLetters(w[1..]);
    }
    OptionInFront(g, gs, dashes);
  }

  lemma {:induction false} ArgumentAdds(w: string, args: seq<string>, gs: seq<Group>, dashes: bool, mode: Mode, next: Mode)
    returns (more: seq<Group>)
    requires Next(w, mode) == Some(next) && (forall g | g in gs :: ValidGroup(g)) && Fits(args, gs, dashes, next)
    ensures (forall g | g in more :: ValidGroup(g)) && Fits([w] + args, more, dashes, mode)
  {
    if mode == Name {
      more := gs;
      assert ([w] + args)[1..] == args;
    } else if w == "--" {
      more := [];
    } else {
      var g := WordFits(w, args, gs, dashes);
      more := [g] + gs;
    }
  }

  /** Adding an argument to a parse, which may complete an option. */
  lemma {:induction false} AddArgument(words: seq<string>, k: nat, ps: seq<Piece>, gs: seq<Group>,
                                       dashes: bool, mode: Mode, next: Mode)
    returns (more: seq<Group>)
    requires 1 <= k < |words| && ShapeOf(words[0]) == Plain && Next(words[0], mode) == Some(next)
    requires Parses(words[1..], k - 1, ps, gs, dashes, next)
    ensures Parses(words, k, [Argument(words[0])] + ps, more, dashes, mode)
  {
    AddPiece(words, k, Argument(words[0]), ps);
    more := ArgumentAdds(words[0], Arguments(ps), gs, dashes, mode, next);
  }

  lemma {:induction false} ReadRedirection(words: seq<string>, p: Piece, mode: Mode)
    returns (ps: seq<Piece>, gs: seq<Group>, dashes: bool)
    requires !p.Argument? && |PieceWords(p)| <= |words| && words[..|PieceWords(p)|] == PieceWords(p) && ValidPiece(p)
    requires BashRead(words[|PieceWords(p)|..], mode).Child?
    ensures BashRead(words, mode).Child? && BashRead(words, mode).at < |words|
    ensures Parses(words, BashRead(words, mode).at, ps, gs, dashes, mode)
    decreases |words|, 0
  {
    var n := |PieceWords(p)|;
    ps, gs, dashes := ReadParses(words[n..], mode);
    AddRedirection(words, BashRead(words[n..], mode).at + n, p, ps, gs, dashes, mode);
    ps := [p] + ps;
    PassRedirection(words, p, mode);
  }

  lemma {:induction false} ReadArgument(words: seq<string>, mode: Mode, next: Mode)
    returns (ps: seq<Piece>, gs: seq<Group>, dashes: bool)
    requires words != [] && ShapeOf(words[0]) == Plain && Next(words[0], mode) == Some(next)
    requires BashRead(words[1..], next).Child?
    ensures BashRead(words, mode).Child? && BashRead(words, mode).at < |words|
    ensures Parses(words, BashRead(words, mode).at, ps, gs, dashes, mode)
    decreases |words|, 0
  {
    ps, gs, dashes := ReadParses(words[1..], next);
    gs := AddArgument(words, BashRead(words[1..], next).at + 1, ps, gs, dashes, mode, next);
    ps := [Argument(words[0])] + ps;
    PassArgument(words, mode, next);
  }

  lemma {:induction false} ReadParses(words: seq<string>, mode: Mode) returns (ps: seq<Piece>, gs: seq<Group>, dashes: bool)
    requires BashRead(words, mode).Child?
    ensures BashRead(words, mode).at < |words| && Parses(words, BashRead(words, mode).at, ps, gs, dashes, mode)
    decreases |words|, 1
  {
    match ShapeOf(words[0]) {
      case Attached => ps, gs, dashes := ReadRedirection(words, One(words[0]), mode);
      case Detached => ps, gs, dashes := ReadRedirection(words, Two(words[0], words[1]), mode);
      case Plain =>
        match Next(words[0], mode) {
          case None =>
            ps, gs, dashes := [], [], mode == Command;
            StopsHere(words, mode);
          case Some(next) => ps, gs, dashes := ReadArgument(words, mode, next);
        }
    }
  }

  /** The recursive reading finds exactly the command of the grammar. */
  lemma {:induction false} BashReadIsGrammar(words: seq<string>, k: nat)
    ensures BashRead(words, Start) == Child(k) <==> ChildAt(words, k)
  {
    if BashRead(words, Start) == Child(k) {
      var ps, gs, dashes := ReadParses(words, Start);
    } else if ChildAt(words, k) {
      var ps, gs, dashes :| Parses(words, k, ps, gs, dashes, Start);
      ParsesRead(words, k, ps, gs, dashes, Start);
    }
  }
}
