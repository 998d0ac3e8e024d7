module Triviality {
  // `_is_always_true` and `_const_truth`: which expressions decide nothing, and why that is right.
  //
  // `IsAlwaysTrue` treats the same expression on both sides of `==`, `is`, `<=`, `>=` as true. That is
  // so as long as the two evaluations cannot be told apart; an operand that builds a new object each
  // time it is evaluated can make the comparison false, which `SameSidesFails` shows for the code as
  // it is and `SameSidesSettled` / `SameSidesFails` delimit exactly.

  import opened Common
  import opened PyExpr
  import opened Reevaluation

  type Host = (string, Const) -> Option<Const>

  /** The constant `_is_always_true` hands to a builtin: a literal, or a literal with a sign. */
  function FoldedArg(arg: Expr): Option<Const> {
    match arg
    case Neg(Constant(c)) => if Numeric(c) then Some(Negate(c)) else None
    case Pos(Constant(c)) => if Numeric(c) then Some(c) else None
    case Constant(c) => Some(c)
    case _ => None
  }

  predicate IsAlwaysTrue(e: Expr, host: Host) {
    match e
    case Constant(c) => TruthConst(c)
    case Tuple(es) => es != []
    case List(es) => es != []
    case Set(es) => es != []
    case Dict(ks, _) => ks != []
    case Lambda(_) => true
    case Call(f, args, kw) =>
      if f in ["object", "list", "dict", "set", "tuple"] && args == [] then f == "object"
      else if Builtin(f) && |args| == 1 && kw == 0 then
        (match FoldedArg(args[0])
         case Some(c) => var d := host(f, c); d.Some? && TruthConst(d.value)
         case None =>
           match args[0]
           case Tuple(es) => (f == "bool" || f == "len") && es != []
           case List(es) => (f == "bool" || f == "len") && es != []
           case Set(es) => (f == "bool" || f == "len") && es != []
           case Dict(ks, _) => (f == "bool" || f == "len") && ks != []
           case _ => false)
      else false
    case Compare(l, op, r) =>
      if op in [Eq, Is, LtE, GtE] && l == r then true
      else op == Eq && l.Constant? && r.Constant? && ConstEq(l.c, r.c)
    case BoolOp(isOr, es) =>
      if isOr then exists x | x in es :: IsAlwaysTrue(x, host)
      else forall x | x in es :: IsAlwaysTrue(x, host)
    case Not(Constant(c)) => !TruthConst(c)
    case _ => false
  }

  function ConstTruth(e: Expr): Option<bool> {
    match e
    case Constant(c) => Some(TruthConst(c))
    case List(es) => Some(es != [])
    case Tuple(es) => Some(es != [])
    case Set(es) => Some(es != [])
    case Dict(ks, _) => Some(ks != [])
    case Not(x) => (match ConstTruth(x) case None => None case Some(b) => Some(!b))
    case _ => None
  }

  /** Whenever `_const_truth` gives a Boolean, it is the truth value in every environment. */
  lemma {:induction false} ConstTruthSound(e: Expr, env: Env, n: nat)
    requires ConstTruth(e).Some? && Eval(e, env, n).Val?
    ensures Truthy(Eval(e, env, n).v) == ConstTruth(e).value
  {
    match e {
      case Not(x) => ConstTruthSound(x, env, n);
      case _ =>
    }
  }

  /** A folded iterable that can be iterated yields an item exactly when it folded to true. */
  lemma {:induction false} ConstIterations(e: Expr, env: Env, n: nat)
    requires ConstTruth(e).Some? && Eval(e, env, n).Val?
    requires Iterations(e, Eval(e, env, n).v, env).Some?
    ensures var it := Iterations(e, Eval(e, env, n).v, env).value;
            !it.1 && (it.0 > 0 <==> ConstTruth(e).value)
  {
  }

  // ---------------------------------------------------------------- what is accepted, whatever it is about

  /** The same expression on both sides decides nothing, whichever expression it is. */
  lemma {:induction false} SameSidesAccepted(x: Expr, y: Expr, op: CmpOp, host: Host)
    ensures op == Eq || op == Is || op == LtE || op == GtE ==> IsAlwaysTrue(Compare(x, op, x), host)
    ensures x != y && !(x.Constant? && y.Constant?) ==> !IsAlwaysTrue(Compare(x, op, y), host)
    ensures op != Eq && op != Is && op != LtE && op != GtE ==> !IsAlwaysTrue(Compare(x, op, y), host)
  {
  }

  /** What neutralises an assertion: an operand of `or` that is accepted, at whatever place. */
  lemma {:induction false} NeutralisedAccepted(xs: seq<Expr>, x: Expr, ys: seq<Expr>, host: Host)
    requires IsAlwaysTrue(x, host)
    ensures IsAlwaysTrue(BoolOp(true, xs + [x] + ys), host)
    ensures IsAlwaysTrue(BoolOp(false, xs + [x] + ys), host) <==> IsAlwaysTrue(BoolOp(false, xs + ys), host)
  {
    var all := xs + [x] + ys;
    assert all[|xs|] == x;
    assert forall y :: y in all <==> y == x || y in xs + ys;
  }

  lemma {:induction false} NextToAccepted(t: Expr, x: Expr, host: Host)
    requires IsAlwaysTrue(t, host)
    ensures IsAlwaysTrue(BoolOp(true, [t, x]), host) && IsAlwaysTrue(BoolOp(true, [x, t]), host)
    ensures IsAlwaysTrue(BoolOp(false, [x, t]), host) <==> IsAlwaysTrue(x, host)
  {
    NeutralisedAccepted([], t, [x], host);
    NeutralisedAccepted([x], t, [], host);
    assert [] + [t] + [x] == [t, x] && [x] + [t] + [] == [x, t] && [x] + [] == [x];
    assert IsAlwaysTrue(BoolOp(false, [x]), host) <==> IsAlwaysTrue(x, host) by { assert x in [x]; }
  }

  /** `True or x`, `x or 1`, `(y,) or x`, `x or (lambda: y)` and `object() or x` are accepted; `x and True` is if `x` is. */
  lemma {:induction false} TrueOrAnything(t: Expr, x: Expr, y: Expr, host: Host)
    requires t == Constant(Bool(true)) || t == Constant(Int(1)) || t == Tuple([y]) || t == Lambda(y) || t == Call("object", [], 0)
    ensures IsAlwaysTrue(BoolOp(true, [t, x]), host) && IsAlwaysTrue(BoolOp(true, [x, t]), host)
    ensures IsAlwaysTrue(BoolOp(false, [x, t]), host) <==> IsAlwaysTrue(x, host)
  {
    assert IsAlwaysTrue(t, host);
    NextToAccepted(t, x, host);
  }

  /** A display is accepted unless it is empty, whatever is in it, and so are `bool` and `len` of it. */
  lemma {:induction false} DisplaysAccepted(ks: seq<Expr>, vs: seq<Expr>, f: string, host: Host)
    requires f == "bool" || f == "len"
    ensures forall e | e in {Tuple(vs), List(vs), Set(vs)} ::
              (IsAlwaysTrue(e, host) <==> vs != []) && (IsAlwaysTrue(Call(f, [e], 0), host) <==> vs != [])
    ensures IsAlwaysTrue(Dict(ks, vs), host) <==> ks != []
    ensures IsAlwaysTrue(Call(f, [Dict(ks, vs)], 0), host) <==> ks != []
  {
  }

  /** A builtin of a constant is accepted if it can be computed and the result is true; so is a bare `object()`. */
  lemma {:induction false} CallsAccepted(f: string, c: Const, kw: nat, host: Host)
    ensures IsAlwaysTrue(Call(f, [Constant(c)], kw), host) <==>
      && (f == "bool" || f == "len" || f == "int" || f == "float" || f == "str" || f == "abs") && kw == 0
      && host(f, c).Some? && TruthConst(host(f, c).value)
    ensures IsAlwaysTrue(Call(f, [], kw), host) <==> f == "object"
  {
  }

  /** A name, an attribute call, and their negations are never accepted. */
  lemma {:induction false} OpaqueKept(x: Expr, host: Host)
    requires x.Opaque? || x.AttrCall?
    ensures !IsAlwaysTrue(x, host) && !IsAlwaysTrue(Not(x), host)
  {
  }

  // ---------------------------------------------------------------- soundness

  ghost predicate NeverFalsy(e: Expr, env: Env, n: nat) {
    Eval(e, env, n).Val? ==> Truthy(Eval(e, env, n).v)
  }

  /** The operand of a same-sides comparison cannot be told apart from itself. */
  predicate Indistinct(l: Expr, op: CmpOp) {
    if op == Is then Settled(l) else NoFresh(l)
  }

  lemma {:induction false} LevelConsts(op: CmpOp, a: Const, b: Const)
    requires op in [Eq, Is, LtE, GtE] && (if op == Is then a == b else ConstEq(a, b))
    ensures CompareConsts(op, a, b) != Some(false)
  {
  }

  lemma {:induction false} LevelValues(e: Expr, op: CmpOp, v: Value, w: Value, env: Env, n: nat)
    requires op in [Eq, Is, LtE, GtE] && (if op == Is then SameObject(v, w) else PyEq(v, w))
    ensures var r := CompareValues(e, op, v, w, env, n); r.Val? ==> r.v == VConst(Bool(true))
  {
    if v.VConst? && w.VConst? { LevelConsts(op, v.c, w.c); }
  }

  lemma {:induction false} SameSidesSettled(l: Expr, op: CmpOp, env: Env, n: nat)
    requires op in [Eq, Is, LtE, GtE] && Indistinct(l, op)
    ensures NeverFalsy(Compare(l, op, l), env, n)
  {
    var v := Eval(l, env, n);
    if v.Val? {
      EvalShift(l, env, n, v.next - n);
      if op == Is { SettledValue(l, env, n); } else {
        NoFreshPlain(l, env, n);
        PlainEqShift(v.v, v.next - n);
      }
      var w := Eval(l, env, v.next);
      LevelValues(Compare(l, op, l), op, v.v, w.v, env, w.next);
    }
  }

  /** A same-sides comparison that `_is_always_true` has to rely on compares an operand with itself. */
  predicate Trustworthy(e: Expr, host: Host) {
    match e
    case Compare(l, op, r) => op in [Eq, Is, LtE, GtE] && l == r ==> Indistinct(l, op)
    case BoolOp(isOr, es) =>
      if isOr then exists x | x in es :: IsAlwaysTrue(x, host) && Trustworthy(x, host)
      else forall x | x in es :: Trustworthy(x, host)
    case _ => true
  }

  /** The builtins treat `True` and `1` (and `False` and `0`) alike as far as truth goes. */
  ghost predicate BoolsAreNumbers(host: Host) {
    forall f, b :: var x, y := host(f, Bool(b)), host(f, Posit(Bool(b)));
      x.Some? == y.Some? && (x.Some? ==> TruthConst(x.value) == TruthConst(y.value))
  }

  /** What `_is_always_true` accepts never evaluates to a falsy value; it may raise. */
  lemma {:induction false} AlwaysTrueSound(e: Expr, env: Env, n: nat)
    requires IsAlwaysTrue(e, env.host) && Trustworthy(e, env.host) && BoolsAreNumbers(env.host)
    ensures NeverFalsy(e, env, n)
    decreases e, 1
  {
    match e {
      case Call(f, args, kw) =>
        if |args| == 1 {
          var arg := args[0];
          match arg {
            case Neg(Constant(c)) => assert Eval(arg, env, n).Val? ==> Eval(arg, env, n).v == VConst(Negate(c));
            case Pos(Constant(c)) => assert Eval(arg, env, n).Val? ==> Eval(arg, env, n).v == VConst(Posit(c));
            case _ =>
          }
        }
      case Compare(l, op, r) => if op in [Eq, Is, LtE, GtE] && l == r { SameSidesSettled(l, op, env, n); }
      case BoolOp(isOr, es) => AlwaysTrueBool(isOr, es, env, n);
      case _ =>
    }
  }

  lemma {:induction false} AlwaysTrueBool(isOr: bool, es: seq<Expr>, env: Env, n: nat)
    requires BoolsAreNumbers(env.host)
    requires if isOr then exists x | x in es :: IsAlwaysTrue(x, env.host) && Trustworthy(x, env.host)
             else forall x | x in es :: IsAlwaysTrue(x, env.host) && Trustworthy(x, env.host)
    ensures EvalBool(isOr, es, env, n).Val? ==> Truthy(EvalBool(isOr, es, env, n).v)
    decreases es, 0
  {
    if es != [] {
      if IsAlwaysTrue(es[0], env.host) && Trustworthy(es[0], env.host) { AlwaysTrueSound(es[0], env, n); }
      var v := Eval(es[0], env, n);
      if v.Val? && !(|es| == 1 || Truthy(v.v) == isOr) {
        assert es == [es[0]] + es[1..];
        AlwaysTrueBool(isOr, es[1..], env, v.next);
      }
    }
  }

  // ---------------------------------------------------------------- expressions made of literals

  predicate Constants(e: Expr, f: Expr) { e.Constant? && f.Constant? }

  /** A display, for which `bool` and `len` say whether it is empty. */
  predicate IsDisplay(e: Expr) { e.Tuple? || e.List? || e.Set? || e.Dict? }

  /** Expressions computed from literals alone. */
  predicate Literal(e: Expr) {
    match e
    case Constant(_) => true
    case Tuple(es) => forall x | x in es :: Literal(x)
    case List(es) => forall x | x in es :: Literal(x)
    case Set(es) => forall x | x in es :: Literal(x)
    case Dict(ks, vs) => (forall x | x in ks :: Literal(x)) && forall x | x in vs :: Literal(x)
    case Lambda(_) => true
    case Call(f, args, kw) =>
      kw == 0 &&
      if f == "object" then args == []
      else Builtin(f) && |args| == 1 &&
           (FoldedArg(args[0]).Some? || ((f == "bool" || f == "len") && IsDisplay(args[0]) && Literal(args[0])))
    case Compare(l, op, r) => Constants(l, r)
    case BoolOp(_, es) => forall x | x in es :: Literal(x)
    case Not(x) => Literal(x)
    case Neg(x) => x.Constant? && Numeric(x.c)
    case Pos(x) => x.Constant? && Numeric(x.c)
    case _ => false
  }

  predicate Filled(e: Expr)
    requires IsDisplay(e)
  {
    if e.Dict? then e.keys != [] else e.elts != []
  }

  /** Whether a literal expression is truthy, if it has a value. */
  predicate LitTruth(e: Expr, host: Host)
    requires Literal(e)
  {
    match e
    case Constant(c) => TruthConst(c)
    case Tuple(_) | List(_) | Set(_) | Dict(_, _) => Filled(e)
    case Lambda(_) => true
    case Call(f, args, _) =>
      if f == "object" then true
      else
        (match FoldedArg(args[0])
         case Some(c) => host(f, c).Some? && TruthConst(host(f, c).value)
         case None => Filled(args[0]))
    case Compare(l, op, r) => CompareConsts(op, l.c, r.c) != Some(false)
    case BoolOp(isOr, es) =>
      if isOr then exists x | x in es :: LitTruth(x, host) else forall x | x in es :: LitTruth(x, host)
    case Not(x) => !LitTruth(x, host)
    case Neg(x) => TruthConst(Negate(x.c))
    case Pos(x) => TruthConst(Posit(x.c))
  }

  /** The shapes of literal expression that `_is_always_true` never accepts, whatever their value. */
  predicate Unfolded(e: Expr)
    requires Literal(e)
  {
    match e
    case Not(x) => !x.Constant?
    case Neg(_) | Pos(_) => true
    case Compare(l, op, r) => op != Eq && !(op in [Is, LtE, GtE] && l == r)
    case _ => false
  }

  /** Truthy because of a part of such a shape. */
  predicate Missed(e: Expr, host: Host)
    requires Literal(e)
  {
    LitTruth(e, host) &&
    match e
    case BoolOp(isOr, es) =>
      if isOr then forall x | x in es && LitTruth(x, host) :: Missed(x, host) else exists x | x in es :: Missed(x, host)
    case _ => Unfolded(e)
  }

  lemma {:induction false} LitTruthSound(e: Expr, env: Env, n: nat)
    requires Literal(e) && BoolsAreNumbers(env.host) && Eval(e, env, n).Val?
    ensures Truthy(Eval(e, env, n).v) == LitTruth(e, env.host)
    decreases e, 1
  {
    match e {
      case Call(f, args, kw) => LitCallSound(e, env, n);
      case BoolOp(isOr, es) => LitBoolSound(isOr, es, env, n);
      case Not(x) => LitTruthSound(x, env, n);
      case _ =>
    }
  }

  lemma {:induction false} LitCallSound(e: Expr, env: Env, n: nat)
    requires e.Call? && Literal(e) && BoolsAreNumbers(env.host) && Eval(e, env, n).Val?
    ensures Truthy(Eval(e, env, n).v) == LitTruth(e, env.host)
    decreases e, 0
  {
    if |e.args| == 1 {
      var arg := e.args[0];
      match arg {
        case Neg(Constant(c)) => assert Eval(arg, env, n) == Val(VConst(Negate(c)), n);
        case Pos(Constant(c)) => assert Eval(arg, env, n) == Val(VConst(Posit(c)), n);
        case _ =>
      }
    }
  }

  lemma {:induction false} LitBoolSound(isOr: bool, es: seq<Expr>, env: Env, n: nat)
    requires (forall x | x in es :: Literal(x)) && BoolsAreNumbers(env.host) && EvalBool(isOr, es, env, n).Val?
    ensures Truthy(EvalBool(isOr, es, env, n).v) <==>
            if isOr then exists x | x in es :: LitTruth(x, env.host) else forall x | x in es :: LitTruth(x, env.host)
    decreases es, 0
  {
    if es != [] {
      LitTruthSound(es[0], env, n);
      var v := Eval(es[0], env, n);
      if |es| > 1 && Truthy(v.v) != isOr { LitBoolSound(isOr, es[1..], env, v.next); }
      assert forall x | x in es :: x == es[0] || x in es[1..];
    }
  }

  lemma {:induction false} MissedExactly(e: Expr, host: Host)
    requires Literal(e)
    ensures IsAlwaysTrue(e, host) <==> LitTruth(e, host) && !Missed(e, host)
  {
    match e {
      case BoolOp(_, es) => forall x | x in es { MissedExactly(x, host); }
      case Compare(l, op, r) =>
      case _ =>
    }
  }

  /**
   On expressions made of literals `_is_always_true` accepts exactly the truthy ones, but for those that are
   truthy because of a part it does not fold.
   */
  lemma {:induction false} LiteralExact(e: Expr, env: Env, n: nat)
    requires Literal(e) && BoolsAreNumbers(env.host) && Eval(e, env, n).Val?
    ensures IsAlwaysTrue(e, env.host) <==> Truthy(Eval(e, env, n).v) && !Missed(e, env.host)
    ensures Missed(e, env.host) ==> Truthy(Eval(e, env, n).v)
  {
    LitTruthSound(e, env, n);
    MissedExactly(e, env.host);
  }

  /** `assert not ()`, `assert -1` and `assert 1 < 2` cannot fail, and count as meaningful. */
  lemma {:induction false} LiteralsMissed(env: Env, n: nat)
    ensures forall e | e in {Not(Tuple([])), Neg(Constant(Int(1))), Compare(Constant(Int(1)), Lt, Constant(Int(2)))} ::
              !IsAlwaysTrue(e, env.host) && Eval(e, env, n).Val? && Truthy(Eval(e, env, n).v)
  {
    assert EvalAll([], env, n) == Vals(Nil, n);
  }

  // ---------------------------------------------------------------- where the code is wrong

  /** Literals, names, tuples, lists, lambdas and `object()`: operands whose evaluation cannot be cut short. */
  predicate Display(e: Expr) {
    match e
    case Constant(_) => true
    case Opaque(_, _) => true
    case Tuple(es) => forall x | x in es :: Display(x)
    case List(es) => forall x | x in es :: Display(x)
    case Lambda(_) => true
    case Call(f, args, kw) => f == "object" && args == [] && kw == 0
    case _ => false
  }

  /** An environment in which every name is None, every unequal `<=` is false and no tuples are shared. */
  ghost function Quiet(host: Host): Env {
    Env(host, x => Some(GivenConst(NoneValue)), x => true, x => None, x => false)
  }

  lemma {:induction false} FreshDisplay(e: Expr, host: Host, n: nat)
    requires Display(e)
    ensures Eval(e, Quiet(host), n).Val?
    ensures !NoFresh(e) ==> !Plain(Eval(e, Quiet(host), n).v)
    ensures !Settled(e) ==> !Eval(e, Quiet(host), n).v.VConst? && !Eval(e, Quiet(host), n).v.VEnv?
    ensures !Settled(e) ==> Eval(e, Quiet(host), n).next > n
    ensures !NoFresh(e) ==> Eval(e, Quiet(host), n).next > n
    decreases e, 1
  {
    match e {
      case Tuple(es) => FreshDisplays(es, host, n);
      case List(es) => FreshDisplays(es, host, n);
      case _ =>
    }
  }

  lemma {:induction false} FreshDisplays(es: seq<Expr>, host: Host, n: nat)
    requires forall x | x in es :: Display(x)
    ensures EvalAll(es, Quiet(host), n).Vals?
    ensures (exists x | x in es :: !NoFresh(x)) ==> !PlainAll(EvalAll(es, Quiet(host), n).vs)
    decreases es, 0
  {
    if es != [] {
      FreshDisplay(es[0], host, n);
      FreshDisplays(es[1..], host, Eval(es[0], Quiet(host), n).next);
      assert forall x | x in es :: x == es[0] || x in es[1..];
    }
  }

  /** The displays without sets: values whose equality is positional. */
  ghost predicate Linear(v: Value) {
    match v
    case VSeq(kind, _, items) => kind != SetKind && LinearAll(items)
    case VDict(_, _) => false
    case _ => true
  }

  ghost predicate LinearAll(vs: Values) {
    vs.More? ==> Linear(vs.head) && LinearAll(vs.tail)
  }

  lemma {:induction false} UnequalShift(v: Value, k: nat)
    requires Linear(v) && !Plain(v) && k > 0
    ensures !PyEq(v, Shift(v, k))
  {
    if v.VSeq? { UnequalShiftAll(v.items, k); }
  }

  lemma {:induction false} UnequalShiftAll(vs: Values, k: nat)
    requires LinearAll(vs) && !PlainAll(vs) && k > 0
    ensures !EqAll(vs, ShiftAll(vs, k))
  {
    if Plain(vs.head) { UnequalShiftAll(vs.tail, k); } else { UnequalShift(vs.head, k); }
  }

  lemma {:induction false} DisplayLinear(e: Expr, env: Env, n: nat)
    requires Display(e) && Eval(e, env, n).Val?
    ensures Linear(Eval(e, env, n).v)
    decreases e, 1
  {
    match e {
      case Tuple(es) => DisplaysLinear(es, env, n);
      case List(es) => DisplaysLinear(es, env, n);
      case _ =>
    }
  }

  lemma {:induction false} DisplaysLinear(es: seq<Expr>, env: Env, n: nat)
    requires (forall x | x in es :: Display(x)) && EvalAll(es, env, n).Vals?
    ensures LinearAll(EvalAll(es, env, n).vs)
    decreases es, 0
  {
    if es != [] {
      DisplayLinear(es[0], env, n);
      DisplaysLinear(es[1..], env, Eval(es[0], env, n).next);
    }
  }

  lemma {:induction false} FreshUnequal(l: Expr, op: CmpOp, host: Host, n: nat)
    requires op in [Eq, Is, LtE, GtE] && Display(l) && !Indistinct(l, op)
    ensures Eval(l, Quiet(host), n).Val? && Eval(l, Quiet(host), Eval(l, Quiet(host), n).next).Val?
    ensures var v, w := Eval(l, Quiet(host), n).v, Eval(l, Quiet(host), Eval(l, Quiet(host), n).next).v;
            if op == Is then !SameObject(v, w) else !PyEq(v, w)
  {
    FreshDisplay(l, host, n);
    var v := Eval(l, Quiet(host), n);
    EvalShift(l, Quiet(host), n, v.next - n);
    DisplayLinear(l, Quiet(host), n);
    if op != Is { UnequalShift(v.v, v.next - n); }
  }

  /**
   For such operands `Indistinct` is exactly the condition under which the shortcut is right in every
   environment. Interpreters that share tuples of constants make `() is ()` true all the same.
   */
  lemma {:induction false} SameSidesFails(l: Expr, op: CmpOp, host: Host, n: nat)
    requires op in [Eq, Is, LtE, GtE] && Display(l) && !Indistinct(l, op)
    ensures IsAlwaysTrue(Compare(l, op, l), host)
    ensures Eval(Compare(l, op, l), Quiet(host), n).Val?
    ensures !NeverFalsy(Compare(l, op, l), Quiet(host), n)
  {
    FreshUnequal(l, op, host, n);
    var v := Eval(l, Quiet(host), n);
    var w := Eval(l, Quiet(host), v.next);
    assert Eval(Compare(l, op, l), Quiet(host), n) ==
           CompareValues(Compare(l, op, l), op, v.v, w.v, Quiet(host), w.next);
  }

  /** `assert [] is []` and `assert object() == object()` always fail, yet both count as always true. */
  lemma {:induction false} FalseTrivia(env: Env, n: nat)
    ensures var e := Compare(List([]), Is, List([]));
            IsAlwaysTrue(e, env.host) && Eval(e, env, n) == Val(VConst(Bool(false)), n + 2)
    ensures var o := Call("object", [], 0);
            IsAlwaysTrue(Compare(o, Eq, o), env.host) &&
            Eval(Compare(o, Eq, o), env, n) == Val(VConst(Bool(false)), n + 2)
  {
  }
}
