module PyExpr {
  // The expression language the assertion analyser reads, and its meaning.
  //
  // The syntax keeps every node kind that `_is_always_true` and `_const_truth` tell apart; all others
  // are `Opaque`. Two expressions have the same `ast.dump` exactly when they are equal here.
  //
  // Evaluation follows the Python Language Reference, section 6. Displays, lambdas and `object()`
  // allocate an object with a new identity; everything the program under test contributes comes from
  // an `Env` that answers the same question in the same way each time it is asked.

  import opened Common

  datatype Const = NoneValue | Bool(b: bool) | Int(n: int) | Float(r: real) | Str(s: string)

  datatype CmpOp = Eq | NotEq | Is | IsNot | Lt | LtE | Gt | GtE | In | NotIn

  datatype Expr =
    | Constant(c: Const)
    | Tuple(elts: seq<Expr>)
    | List(elts: seq<Expr>)
    | Set(elts: seq<Expr>)
    | Dict(keys: seq<Expr>, values: seq<Expr>)
    | Lambda(body: Expr)
    | Call(func: string, args: seq<Expr>, keywords: nat)          // a call through a bare name, or, with func "", any other
    | AttrCall(base: string, attr: string, args: seq<Expr>)       // `base.attr(...)`, with base "" for what is not a name
    | Compare(left: Expr, op: CmpOp, right: Expr)                 // a single comparison
    | BoolOp(isOr: bool, operands: seq<Expr>)
    | Not(operand: Expr)
    | Neg(operand: Expr)
    | Pos(operand: Expr)
    | Opaque(text: string, parts: seq<Expr>)

  datatype Kind = TupleKind | ListKind | SetKind

  /** A value; `id` is object identity. `VEnv` is any value supplied by the program under test. */
  datatype Value =
    | VConst(c: Const)
    | VSeq(kind: Kind, id: nat, items: Values)
    | VDict(id: nat, entries: Entries)
    | VFresh(id: nat)                                             // a function object or object()
    | VEnv(key: nat, truth: bool)

  datatype Values = Nil | More(head: Value, tail: Values)
  datatype Entries = Empty | Entry(key: Value, val: Value, rest: Entries)

  datatype Given = GivenConst(c: Const) | GivenObject(key: nat, truth: bool)

  /**
   What the surroundings decide: `host` is the interpreter's own builtin conversions on constants
   (None when they raise), `value` the result of an expression the model does not look into (None
   when it raises), `ordered` whether `<=` is defined on the two operands of a comparison, `iterate`
   how many items an unmodelled iterable yields and whether it then raises, `shared` whether equal
   tuples of constants on the two sides of a comparison are one object, which the language leaves open.
   */
  datatype Env = Env(host: (string, Const) -> Option<Const>,
                     value: Expr -> Option<Given>,
                     ordered: Expr -> bool,
                     iterate: Expr -> Option<(nat, bool)>,
                     shared: Expr -> bool)

  datatype Res = Raises | Val(v: Value, next: nat)
  datatype ResAll = RaisesAll | Vals(vs: Values, next: nat)

  function AsInt(c: Const): int
    requires c.Bool? || c.Int?
  {
    if c.Int? then c.n else if c.b then 1 else 0
  }

  predicate Numeric(c: Const) { c.Bool? || c.Int? || c.Float? }

  function AsReal(c: Const): real
    requires Numeric(c)
  {
    if c.Float? then c.r else AsInt(c) as real
  }

  /** `==` on constants: numbers compare across their types, so `True == 1 == 1.0`. */
  predicate ConstEq(a: Const, b: Const) {
    if Numeric(a) && Numeric(b) then AsReal(a) == AsReal(b) else a == b
  }

  predicate TruthConst(c: Const) {
    match c
    case NoneValue => false
    case Bool(b) => b
    case Int(n) => n != 0
    case Float(r) => r != 0.0
    case Str(s) => s != ""
  }

  function Negate(c: Const): Const
    requires Numeric(c)
  {
    if c.Float? then Float(-c.r) else Int(-AsInt(c))
  }

  function Posit(c: Const): Const
    requires Numeric(c)
  {
    if c.Float? then c else Int(AsInt(c))
  }

  predicate Truthy(v: Value) {
    match v
    case VConst(c) => TruthConst(c)
    case VSeq(_, _, items) => items != Nil
    case VDict(_, entries) => entries != Empty
    case VFresh(_) => true
    case VEnv(_, truth) => truth
  }

  function Length(vs: Values): nat { if vs.Nil? then 0 else 1 + Length(vs.tail) }

  function Size(es: Entries): nat { if es.Empty? then 0 else 1 + Size(es.rest) }

  predicate Hashable(v: Value) {
    match v
    case VSeq(kind, _, items) => kind == TupleKind && AllHashable(items)
    case VDict(_, _) => false
    case _ => true
  }

  predicate AllHashable(vs: Values) {
    vs.More? ==> Hashable(vs.head) && AllHashable(vs.tail)
  }

  predicate SameObject(v: Value, w: Value) {
    match (v, w)
    case (VConst(a), VConst(b)) => a == b
    case (VEnv(_, _), VEnv(_, _)) => v == w
    case (VSeq(_, i, _), VSeq(_, j, _)) => i == j
    case (VDict(i, _), VDict(j, _)) => i == j
    case (VFresh(i), VFresh(j)) => i == j
    case _ => false
  }

  /** `==` on values: structural on displays, by identity on functions and bare objects. */
  predicate PyEq(v: Value, w: Value)
    decreases v, w
  {
    match v
    case VConst(a) => w.VConst? && ConstEq(a, w.c)
    case VEnv(_, _) => v == w
    case VFresh(i) => w.VFresh? && i == w.id
    case VSeq(kind, _, a) =>
      w.VSeq? && kind == w.kind &&
      if kind == SetKind then Length(a) == Length(w.items) && AllIn(a, w.items) else EqAll(a, w.items)
    case VDict(_, a) => w.VDict? && Size(a) == Size(w.entries) && AllEntriesIn(a, w.entries)
  }

  predicate EqAll(a: Values, b: Values) {
    match a
    case Nil => b.Nil?
    case More(v, rest) => b.More? && PyEq(v, b.head) && EqAll(rest, b.tail)
  }

  predicate IsIn(v: Value, b: Values)
    decreases v, b
  {
    b.More? && (PyEq(v, b.head) || IsIn(v, b.tail))
  }

  predicate AllIn(a: Values, b: Values) {
    a.More? ==> IsIn(a.head, b) && AllIn(a.tail, b)
  }

  predicate AllEntriesIn(a: Entries, b: Entries)
    decreases a, b, 1
  {
    a.Entry? ==> EntryIn(a, b) && AllEntriesIn(a.rest, b)
  }

  /** The first entry of `a` has an equal entry in `b`. */
  predicate EntryIn(a: Entries, b: Entries)
    requires a.Entry?
    decreases a, b, 0
  {
    b.Entry? && ((PyEq(a.key, b.key) && PyEq(a.val, b.val)) || EntryIn(a, b.rest))
  }

  /** A set display keeps the first of several equal elements. */
  function Add(vs: Values, v: Value): Values {
    match vs
    case Nil => More(v, Nil)
    case More(w, rest) => if PyEq(w, v) then vs else More(w, Add(rest, v))
  }

  function Distinct(kept: Values, vs: Values): (r: Values)
    ensures r == Nil <==> kept == Nil && vs == Nil
    decreases vs
  {
    if vs.Nil? then kept else Distinct(Add(kept, vs.head), vs.tail)
  }

  /** A dict display: a repeated key keeps its place and takes the later value. */
  function Put(es: Entries, k: Value, v: Value): Entries {
    match es
    case Empty => Entry(k, v, Empty)
    case Entry(k', v', rest) => if PyEq(k', k) then Entry(k', v, rest) else Entry(k', v', Put(rest, k, v))
  }

  function PutAll(kept: Entries, ks: Values, vs: Values): (r: Entries)
    ensures r == Empty <==> kept == Empty && (ks == Nil || vs == Nil)
    decreases ks
  {
    if ks.Nil? || vs.Nil? then kept else PutAll(Put(kept, ks.head, vs.head), ks.tail, vs.tail)
  }

  ghost function Lift(g: Option<Given>, n: nat): Res {
    match g
    case None => Raises
    case Some(GivenConst(c)) => Val(VConst(c), n)
    case Some(GivenObject(k, t)) => Val(VEnv(k, t), n)
  }

  predicate Builtin(f: string) { f in ["bool", "len", "int", "float", "str", "abs"] }

  /** A builtin conversion `e = f(arg)` applied to the value of its one argument. */
  ghost function Apply(e: Expr, f: string, v: Value, env: Env, n: nat): Res {
    match v
    case VConst(c) =>
      (match env.host(f, c)
       case None => Raises
       case Some(d) => Val(VConst(d), n))
    case VSeq(_, _, items) =>
      if f == "bool" then Val(VConst(Bool(items != Nil)), n)
      else if f == "len" then Val(VConst(Int(Length(items))), n) else Lift(env.value(e), n)
    case VDict(_, entries) =>
      if f == "bool" then Val(VConst(Bool(entries != Empty)), n)
      else if f == "len" then Val(VConst(Int(Size(entries))), n) else Lift(env.value(e), n)
    case _ => Lift(env.value(e), n)
  }

  /** Strings are ordered by code point. */
  predicate StrLess(s: string, t: string) {
    t != "" && (s == "" || s[0] < t[0] || (s[0] == t[0] && StrLess(s[1..], t[1..])))
  }

  /** `s` is part of `t`. */
  predicate Within(s: string, t: string) { s <= t || (t != "" && Within(s, t[1..])) }

  /** `a < b`, where it is defined. */
  function Less(a: Const, b: Const): Option<bool> {
    if Numeric(a) && Numeric(b) then Some(AsReal(a) < AsReal(b))
    else if a.Str? && b.Str? then Some(StrLess(a.s, b.s)) else None
  }

  /** A comparison of constants, where it is defined. */
  function CompareConsts(op: CmpOp, a: Const, b: Const): Option<bool> {
    match op
    case Eq => Some(ConstEq(a, b))
    case NotEq => Some(!ConstEq(a, b))
    case Is => Some(a == b)
    case IsNot => Some(a != b)
    case Lt => Less(a, b)
    case Gt => Less(b, a)
    case LtE => (match Less(a, b) case None => None case Some(less) => Some(less || ConstEq(a, b)))
    case GtE => (match Less(b, a) case None => None case Some(less) => Some(less || ConstEq(a, b)))
    case In => if a.Str? && b.Str? then Some(Within(a.s, b.s)) else None
    case NotIn => if a.Str? && b.Str? then Some(!Within(a.s, b.s)) else None
  }

  ghost function CompareValues(e: Expr, op: CmpOp, v: Value, w: Value, env: Env, n: nat): Res {
    if v.VConst? && w.VConst? then
      (match CompareConsts(op, v.c, w.c)
       case None => Raises
       case Some(b) => Val(VConst(Bool(b)), n))
    else CompareObjects(e, op, v, w, env, n)
  }

  /** A tuple made of constants alone. */
  predicate ConstTuple(v: Value) { v.VSeq? && v.kind == TupleKind && AllConst(v.items) }

  predicate AllConst(vs: Values) { vs.More? ==> (vs.head.VConst? || ConstTuple(vs.head)) && AllConst(vs.tail) }

  /** The interpreter keeps one object for two tuples of constants. */
  ghost predicate Shared(e: Expr, v: Value, w: Value, env: Env) {
    env.shared(e) && ConstTuple(v) && ConstTuple(w) && PyEq(v, w)
  }

  ghost function CompareObjects(e: Expr, op: CmpOp, v: Value, w: Value, env: Env, n: nat): Res {
    match op
    case Eq => Val(VConst(Bool(PyEq(v, w))), n)
    case NotEq => Val(VConst(Bool(!PyEq(v, w))), n)
    case Is => Val(VConst(Bool(SameObject(v, w) || Shared(e, v, w, env))), n)
    case IsNot => Val(VConst(Bool(!(SameObject(v, w) || Shared(e, v, w, env)))), n)
    case LtE | GtE =>
      // equal operands are ordered both ways, unless the comparison is not defined at all
      if PyEq(v, w) then if env.ordered(e) then Val(VConst(Bool(true)), n) else Raises
      else Lift(env.value(e), n)
    case _ => Lift(env.value(e), n)
  }

  ghost function ApplyTo(e: Expr, f: string, r: Res, env: Env): Res {
    if r.Raises? then Raises else Apply(e, f, r.v, env, r.next)
  }

  ghost function CompareTo(e: Expr, op: CmpOp, v: Value, r: Res, env: Env): Res {
    if r.Raises? then Raises else CompareValues(e, op, v, r.v, env, r.next)
  }

  ghost function NotOf(r: Res): Res {
    if r.Raises? then Raises else Val(VConst(Bool(!Truthy(r.v))), r.next)
  }

  /** `-x` and `+x`. */
  ghost function SignOf(e: Expr, negative: bool, r: Res, env: Env): Res {
    match r
    case Raises => Raises
    case Val(v, m) =>
      if v.VConst? && Numeric(v.c) then Val(VConst(if negative then Negate(v.c) else Posit(v.c)), m)
      else Lift(env.value(e), m)
  }

  ghost function SeqOf(kind: Kind, r: ResAll): Res {
    match r
    case RaisesAll => Raises
    case Vals(vs, m) => Val(VSeq(kind, m, vs), m + 1)
  }

  ghost function SetOf(r: ResAll): Res {
    match r
    case RaisesAll => Raises
    case Vals(vs, m) => if AllHashable(vs) then Val(VSeq(SetKind, m, Distinct(Nil, vs)), m + 1) else Raises
  }

  ghost function DictOf(ks: Values, r: ResAll): Res {
    match r
    case RaisesAll => Raises
    case Vals(vs, m) =>
      if AllHashable(ks) && Length(ks) == Length(vs) then Val(VDict(m, PutAll(Empty, ks, vs)), m + 1) else Raises
  }

  /** The value of `e`; `n` is the first identity not yet in use. */
  ghost function Eval(e: Expr, env: Env, n: nat): (r: Res)
    ensures r.Val? ==> r.next >= n
    decreases e, 1
  {
    match e
    case Constant(c) => Val(VConst(c), n)
    case Tuple(es) => SeqOf(TupleKind, EvalAll(es, env, n))
    case List(es) => SeqOf(ListKind, EvalAll(es, env, n))
    case Set(es) => SetOf(EvalAll(es, env, n))
    case Dict(ks, es) =>
      (match EvalAll(ks, env, n)
       case RaisesAll => Raises
       case Vals(kv, m) => DictOf(kv, EvalAll(es, env, m)))
    case Lambda(_) => Val(VFresh(n), n + 1)
    case Call(f, args, kw) =>
      if f == "object" && args == [] then if kw == 0 then Val(VFresh(n), n + 1) else Raises
      else if Builtin(f) && |args| == 1 && kw == 0 then ApplyTo(e, f, Eval(args[0], env, n), env)
      else Lift(env.value(e), n)
    case AttrCall(_, _, _) => Lift(env.value(e), n)
    case Compare(l, op, r) =>
      (match Eval(l, env, n)
       case Raises => Raises
       case Val(v, m) => CompareTo(e, op, v, Eval(r, env, m), env))
    case BoolOp(isOr, es) => EvalBool(isOr, es, env, n)
    case Not(x) => NotOf(Eval(x, env, n))
    case Neg(x) => SignOf(e, true, Eval(x, env, n), env)
    case Pos(x) => SignOf(e, false, Eval(x, env, n), env)
    case Opaque(_, _) => Lift(env.value(e), n)
  }

  ghost function EvalAll(es: seq<Expr>, env: Env, n: nat): (r: ResAll)
    ensures r.Vals? ==> r.next >= n && (r.vs == Nil <==> es == [])
    decreases es, 0
  {
    if es == [] then Vals(Nil, n)
    else
      match Eval(es[0], env, n)
      case Raises => RaisesAll
      case Val(v, m) =>
        match EvalAll(es[1..], env, m)
        case RaisesAll => RaisesAll
        case Vals(vs, m') => Vals(More(v, vs), m')
  }

  /** `and` / `or`: the first operand that settles the result, otherwise the last one. */
  ghost function EvalBool(isOr: bool, es: seq<Expr>, env: Env, n: nat): (r: Res)
    ensures r.Val? ==> r.next >= n
    decreases es, 0
  {
    if es == [] then Val(VConst(Bool(!isOr)), n)
    else
      match Eval(es[0], env, n)
      case Raises => Raises
      case Val(v, m) => if |es| == 1 || Truthy(v) == isOr then Val(v, m) else EvalBool(isOr, es[1..], env, m)
  }

  /** How many items iterating over the value of `e` yields, and whether it then raises. */
  ghost function Iterations(e: Expr, v: Value, env: Env): Option<(nat, bool)> {
    match v
    case VConst(Str(s)) => Some((|s|, false))
    case VConst(_) => None
    case VSeq(_, _, items) => Some((Length(items), false))
    case VDict(_, entries) => Some((Size(entries), false))
    case VFresh(_) => None
    case VEnv(_, _) => env.iterate(e)
  }
}
