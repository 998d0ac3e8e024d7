module AliasForms {
  // The expressions `_denotes_environ` accepts, described by where the environment stands in them.

  import opened EnvAliases

  /** The expressions directly inside an expression. */
  function Parts(e: Expr): seq<Expr> {
    match e
    case Environ | Name(_) => []
    case IfExp(a, b) => [a, b]
    case BoolOp(es) => es
    case CopyCall(x) => [x]
    case DictCall(es, ks) => es + ks
    case Comprehension(es) => es
    case Reading(es) => es
    case Unlisted(es) => es
  }

  /** `x` is a part of `e` at the end of the way, which goes from an expression to one directly inside it. */
  ghost predicate Way(e: Expr, x: Expr, way: seq<Expr>) {
    && way != [] && way[0] == e && way[|way| - 1] == x
    && forall i | 0 <= i < |way| - 1 :: way[i + 1] in Parts(way[i])
  }

  ghost predicate PartOf(x: Expr, e: Expr) { exists way :: Way(e, x, way) }

  lemma {:induction false} PartUp(x: Expr, e: Expr, p: Expr)
    requires p in Parts(e) && PartOf(x, p)
    ensures PartOf(x, e)
  {
    var way :| Way(p, x, way);
    assert Way(e, x, [e] + way);
  }

  lemma {:induction false} PartDown(x: Expr, e: Expr) returns (p: Expr)
    requires PartOf(x, e) && x != e
    ensures p in Parts(e) && PartOf(x, p)
  {
    var way :| Way(e, x, way);
    p := way[1];
    assert Way(p, x, way[1..]);
  }

  lemma {:induction false} MentionsParts(e: Expr)
    ensures Mentions(e) <==> e == Environ || exists p | p in Parts(e) :: Mentions(p)
  {
    match e {
      case IfExp(a, b) => assert a in Parts(e) && b in Parts(e);
      case CopyCall(x) => assert x in Parts(e);
      case DictCall(es, ks) => assert forall p :: p in es + ks <==> p in es || p in ks;
      case _ =>
    }
  }

  /** An expression mentions the environment exactly if an access to it is one of its parts, at any depth. */
  lemma {:induction false} MentionsExactly(e: Expr)
    ensures Mentions(e) <==> PartOf(Environ, e)
    decreases e
  {
    MentionsParts(e);
    if e == Environ {
      assert Way(e, Environ, [e]);
    } else {
      if Mentions(e) {
        var p :| p in Parts(e) && Mentions(p);
        PartSmaller(e, p);
        MentionsExactly(p);
        PartUp(Environ, e, p);
      }
      if PartOf(Environ, e) {
        var p := PartDown(Environ, e);
        PartSmaller(e, p);
        MentionsExactly(p);
      }
    }
  }

  lemma {:induction false} PartSmaller(e: Expr, p: Expr)
    requires p in Parts(e)
    ensures p < e
  {
    match e {
      case DictCall(es, ks) => if p in es { assert p < e; } else { assert p in ks; }
      case _ =>
    }
  }

  /** The value of `x` may be the value of `e`, by choice or as what `dict` copies. */
  predicate Passes(e: Expr, x: Expr) {
    match e
    case IfExp(a, b) => x == a || x == b
    case BoolOp(es) => x in es
    case DictCall(es, _) => es != [] && x == es[0]
    case _ => false
  }

  /** The whole environment: itself, a name for it, its copy, or a comprehension whose iterables mention it. */
  ghost predicate Whole(e: Expr, aliases: set<string>) {
    || e == Environ || (e.Name? && e.id in aliases) || e == CopyCall(Environ)
    || (e.Comprehension? && exists x | x in e.iters :: PartOf(Environ, x))
  }

  ghost predicate Passed(e: Expr, x: Expr, way: seq<Expr>) {
    && way != [] && way[0] == e && way[|way| - 1] == x
    && forall i | 0 <= i < |way| - 1 :: Passes(way[i], way[i + 1])
  }

  /** Where the environment stands in the expression, its value is passed on. */
  ghost predicate PassesWhole(e: Expr, aliases: set<string>) {
    exists x, way :: Passed(e, x, way) && Whole(x, aliases)
  }

  lemma {:induction false} DenotesParts(e: Expr, aliases: set<string>)
    ensures Denotes(e, aliases) <==> Whole(e, aliases) || exists x | x in Parts(e) :: Passes(e, x) && Denotes(x, aliases)
  {
    match e {
      case IfExp(a, b) => assert a in Parts(e) && b in Parts(e);
      case Comprehension(es) => forall x | x in es { MentionsExactly(x); }
      case DictCall(es, ks) => if es != [] { assert es[0] in Parts(e); }
      case _ =>
    }
  }

  lemma {:induction false} PassesOn(e: Expr, p: Expr, aliases: set<string>)
    requires Passes(e, p) && PassesWhole(p, aliases)
    ensures PassesWhole(e, aliases)
  {
    var x, way :| Passed(p, x, way) && Whole(x, aliases);
    assert Passed(e, x, [e] + way);
  }

  lemma {:induction false} PassesFrom(e: Expr, aliases: set<string>) returns (p: Expr)
    requires PassesWhole(e, aliases) && !Whole(e, aliases)
    ensures Passes(e, p) && PassesWhole(p, aliases)
  {
    var x, way :| Passed(e, x, way) && Whole(x, aliases);
    p := way[1];
    assert Passed(p, x, way[1..]);
  }

  /** An expression is taken for the environment exactly if it passes on the whole of it. */
  lemma {:induction false} DenotesExactly(e: Expr, aliases: set<string>)
    ensures Denotes(e, aliases) <==> PassesWhole(e, aliases)
    decreases e
  {
    DenotesParts(e, aliases);
    if Whole(e, aliases) {
      assert Passed(e, e, [e]);
    } else {
      if Denotes(e, aliases) {
        var x :| x in Parts(e) && Passes(e, x) && Denotes(x, aliases);
        PartSmaller(e, x);
        DenotesExactly(x, aliases);
        PassesOn(e, x, aliases);
      }
      if PassesWhole(e, aliases) {
        var p := PassesFrom(e, aliases);
        assert p in Parts(e);
        PartSmaller(e, p);
        DenotesExactly(p, aliases);
      }
    }
  }
}
