/** What can differ between two evaluations of the same expression: the identities of the objects they build. */
module Reevaluation {
  import opened PyExpr

  // ---------------------------------------------------------------- evaluating twice

  /** The same value built when `k` more identities were in use. */
  ghost function Shift(v: Value, k: nat): Value {
    match v
    case VSeq(kind, id, items) => VSeq(kind, id + k, ShiftAll(items, k))
    case VDict(id, es) => VDict(id + k, ShiftEntries(es, k))
    case VFresh(id) => VFresh(id + k)
    case _ => v
  }

  ghost function ShiftAll(vs: Values, k: nat): Values {
    match vs
    case Nil => Nil
    case More(v, rest) => More(Shift(v, k), ShiftAll(rest, k))
  }

  ghost function ShiftEntries(es: Entries, k: nat): Entries {
    match es
    case Empty => Empty
    case Entry(key, val, rest) => Entry(Shift(key, k), Shift(val, k), ShiftEntries(rest, k))
  }

  ghost function ShiftRes(r: Res, k: nat): Res {
    if r.Raises? then Raises else Val(Shift(r.v, k), r.next + k)
  }

  ghost function ShiftResAll(r: ResAll, k: nat): ResAll {
    if r.RaisesAll? then RaisesAll else Vals(ShiftAll(r.vs, k), r.next + k)
  }

  lemma {:induction false} LengthShift(vs: Values, k: nat)
    ensures Length(ShiftAll(vs, k)) == Length(vs)
  {
    if vs.More? { LengthShift(vs.tail, k); }
  }

  lemma {:induction false} SizeShift(es: Entries, k: nat)
    ensures Size(ShiftEntries(es, k)) == Size(es)
  {
    if es.Entry? { SizeShift(es.rest, k); }
  }

  lemma {:induction false} PyEqShift(v: Value, w: Value, k: nat)
    ensures PyEq(Shift(v, k), Shift(w, k)) == PyEq(v, w)
    decreases v, w
  {
    if v.VSeq? && w.VSeq? {
      LengthShift(v.items, k);
      LengthShift(w.items, k);
      EqAllShift(v.items, w.items, k);
      AllInShift(v.items, w.items, k);
    } else if v.VDict? && w.VDict? {
      SizeShift(v.entries, k);
      SizeShift(w.entries, k);
      AllEntriesInShift(v.entries, w.entries, k);
    }
  }

  lemma {:induction false} EqAllShift(a: Values, b: Values, k: nat)
    ensures EqAll(ShiftAll(a, k), ShiftAll(b, k)) == EqAll(a, b)
    decreases a, b
  {
    if a.More? && b.More? {
      PyEqShift(a.head, b.head, k);
      EqAllShift(a.tail, b.tail, k);
    }
  }

  lemma {:induction false} IsInShift(v: Value, b: Values, k: nat)
    ensures IsIn(Shift(v, k), ShiftAll(b, k)) == IsIn(v, b)
    decreases v, b
  {
    if b.More? {
      PyEqShift(v, b.head, k);
      IsInShift(v, b.tail, k);
    }
  }

  lemma {:induction false} AllInShift(a: Values, b: Values, k: nat)
    ensures AllIn(ShiftAll(a, k), ShiftAll(b, k)) == AllIn(a, b)
    decreases a, b
  {
    if a.More? {
      IsInShift(a.head, b, k);
      AllInShift(a.tail, b, k);
    }
  }

  lemma {:induction false} EntryInShift(a: Entries, b: Entries, k: nat)
    requires a.Entry?
    ensures EntryIn(ShiftEntries(a, k), ShiftEntries(b, k)) == EntryIn(a, b)
    decreases a, b, 0
  {
    if b.Entry? {
      PyEqShift(a.key, b.key, k);
      PyEqShift(a.val, b.val, k);
      EntryInShift(a, b.rest, k);
    }
  }

  lemma {:induction false} AllEntriesInShift(a: Entries, b: Entries, k: nat)
    ensures AllEntriesIn(ShiftEntries(a, k), ShiftEntries(b, k)) == AllEntriesIn(a, b)
    decreases a, b, 1
  {
    if a.Entry? {
      EntryInShift(a, b, k);
      AllEntriesInShift(a.rest, b, k);
    }
  }

  lemma {:induction false} HashShift(v: Value, k: nat)
    ensures Hashable(Shift(v, k)) == Hashable(v)
  {
    if v.VSeq? { AllHashShift(v.items, k); }
  }

  lemma {:induction false} AllHashShift(vs: Values, k: nat)
    ensures AllHashable(ShiftAll(vs, k)) == AllHashable(vs)
  {
    if vs.More? {
      HashShift(vs.head, k);
      AllHashShift(vs.tail, k);
    }
  }

  lemma {:induction false} AddShift(vs: Values, v: Value, k: nat)
    ensures Add(ShiftAll(vs, k), Shift(v, k)) == ShiftAll(Add(vs, v), k)
  {
    if vs.More? {
      PyEqShift(vs.head, v, k);
      AddShift(vs.tail, v, k);
    }
  }

  lemma {:induction false} DistinctShift(kept: Values, vs: Values, k: nat)
    ensures Distinct(ShiftAll(kept, k), ShiftAll(vs, k)) == ShiftAll(Distinct(kept, vs), k)
    decreases vs
  {
    if vs.More? {
      AddShift(kept, vs.head, k);
      DistinctShift(Add(kept, vs.head), vs.tail, k);
    }
  }

  lemma {:induction false} PutShift(es: Entries, key: Value, val: Value, k: nat)
    ensures Put(ShiftEntries(es, k), Shift(key, k), Shift(val, k)) == ShiftEntries(Put(es, key, val), k)
  {
    if es.Entry? {
      PyEqShift(es.key, key, k);
      PutShift(es.rest, key, val, k);
    }
  }

  lemma {:induction false} PutAllShift(kept: Entries, ks: Values, vs: Values, k: nat)
    ensures PutAll(ShiftEntries(kept, k), ShiftAll(ks, k), ShiftAll(vs, k)) == ShiftEntries(PutAll(kept, ks, vs), k)
    decreases ks
  {
    if ks.More? && vs.More? {
      PutShift(kept, ks.head, vs.head, k);
      PutAllShift(Put(kept, ks.head, vs.head), ks.tail, vs.tail, k);
    }
  }

  lemma {:induction false} TruthShift(v: Value, k: nat)
    ensures Truthy(Shift(v, k)) == Truthy(v)
  {
  }

  lemma {:induction false} ApplyShift(e: Expr, f: string, r: Res, env: Env, k: nat)
    ensures ApplyTo(e, f, ShiftRes(r, k), env) == ShiftRes(ApplyTo(e, f, r, env), k)
  {
    if r.Val? {
      match r.v {
        case VSeq(_, _, items) => LengthShift(items, k); TruthShift(r.v, k);
        case VDict(_, es) => SizeShift(es, k); TruthShift(r.v, k);
        case _ =>
      }
    }
  }

  lemma {:induction false} ConstTupleShift(v: Value, k: nat)
    ensures ConstTuple(Shift(v, k)) == ConstTuple(v)
  {
    if v.VSeq? { AllConstShift(v.items, k); }
  }

  lemma {:induction false} AllConstShift(vs: Values, k: nat)
    ensures AllConst(ShiftAll(vs, k)) == AllConst(vs)
  {
    if vs.More? {
      ConstTupleShift(vs.head, k);
      AllConstShift(vs.tail, k);
    }
  }

  lemma {:induction false} ObjectsShift(e: Expr, op: CmpOp, v: Value, w: Value, env: Env, n: nat, k: nat)
    ensures CompareObjects(e, op, Shift(v, k), Shift(w, k), env, n + k) == ShiftRes(CompareObjects(e, op, v, w, env, n), k)
  {
    PyEqShift(v, w, k);
    ConstTupleShift(v, k);
    ConstTupleShift(w, k);
  }

  lemma {:induction false} ValuesShift(e: Expr, op: CmpOp, v: Value, w: Value, env: Env, n: nat, k: nat)
    ensures CompareValues(e, op, Shift(v, k), Shift(w, k), env, n + k) == ShiftRes(CompareValues(e, op, v, w, env, n), k)
  {
    if v.VConst? && w.VConst? {
      assert Shift(v, k) == v && Shift(w, k) == w;
    } else {
      ObjectsShift(e, op, v, w, env, n, k);
    }
  }

  lemma {:induction false} CompareShift(e: Expr, op: CmpOp, v: Value, r: Res, env: Env, k: nat)
    ensures CompareTo(e, op, Shift(v, k), ShiftRes(r, k), env) == ShiftRes(CompareTo(e, op, v, r, env), k)
  {
    if r.Val? {
      ValuesShift(e, op, v, r.v, env, r.next, k);
      assert ShiftRes(r, k) == Val(Shift(r.v, k), r.next + k);
    }
  }

  lemma {:induction false} NotShift(r: Res, k: nat)
    ensures NotOf(ShiftRes(r, k)) == ShiftRes(NotOf(r), k)
  {
    if r.Val? { TruthShift(r.v, k); }
  }

  lemma {:induction false} SignShift(e: Expr, negative: bool, r: Res, env: Env, k: nat)
    ensures SignOf(e, negative, ShiftRes(r, k), env) == ShiftRes(SignOf(e, negative, r, env), k)
  {
  }

  lemma {:induction false} SetShift(r: ResAll, k: nat)
    ensures SetOf(ShiftResAll(r, k)) == ShiftRes(SetOf(r), k)
  {
    if r.Vals? {
      AllHashShift(r.vs, k);
      DistinctShift(Nil, r.vs, k);
    }
  }

  lemma {:induction false} DictShift(ks: Values, r: ResAll, k: nat)
    ensures DictOf(ShiftAll(ks, k), ShiftResAll(r, k)) == ShiftRes(DictOf(ks, r), k)
  {
    if r.Vals? {
      AllHashShift(ks, k);
      LengthShift(ks, k);
      LengthShift(r.vs, k);
      PutAllShift(Empty, ks, r.vs, k);
    }
  }

  /** Evaluating later only renames the new objects. */
  lemma {:induction false} EvalShift(e: Expr, env: Env, n: nat, k: nat)
    ensures Eval(e, env, n + k) == ShiftRes(Eval(e, env, n), k)
    decreases e, 2
  {
    match e {
      case Tuple(_) => DisplayShift(e, env, n, k);
      case List(_) => DisplayShift(e, env, n, k);
      case Set(_) => DisplayShift(e, env, n, k);
      case Dict(_, _) => DisplayShift(e, env, n, k);
      case Call(f, args, kw) =>
        if |args| == 1 {
          EvalShift(args[0], env, n, k);
          ApplyShift(e, f, Eval(args[0], env, n), env, k);
        }
      case Compare(_, _, _) => ComparisonShift(e, env, n, k);
      case BoolOp(isOr, es) => EvalBoolShift(isOr, es, env, n, k);
      case Not(x) =>
        EvalShift(x, env, n, k);
        NotShift(Eval(x, env, n), k);
      case Neg(x) =>
        EvalShift(x, env, n, k);
        SignShift(e, true, Eval(x, env, n), env, k);
      case Pos(x) =>
        EvalShift(x, env, n, k);
        SignShift(e, false, Eval(x, env, n), env, k);
      case _ =>
    }
  }

  lemma {:induction false} ComparisonShift(e: Expr, env: Env, n: nat, k: nat)
    requires e.Compare?
    ensures Eval(e, env, n + k) == ShiftRes(Eval(e, env, n), k)
    decreases e, 1
  {
    EvalShift(e.left, env, n, k);
    var v := Eval(e.left, env, n);
    if v.Val? {
      EvalShift(e.right, env, v.next, k);
      CompareShift(e, e.op, v.v, Eval(e.right, env, v.next), env, k);
    }
  }

  lemma {:induction false} DisplayShift(e: Expr, env: Env, n: nat, k: nat)
    requires e.Tuple? || e.List? || e.Set? || e.Dict?
    ensures Eval(e, env, n + k) == ShiftRes(Eval(e, env, n), k)
    decreases e, 1
  {
    match e {
      case Tuple(es) => EvalAllShift(es, env, n, k);
      case List(es) => EvalAllShift(es, env, n, k);
      case Set(es) =>
        EvalAllShift(es, env, n, k);
        SetShift(EvalAll(es, env, n), k);
      case Dict(ks, es) =>
        EvalAllShift(ks, env, n, k);
        var kv := EvalAll(ks, env, n);
        if kv.Vals? {
          EvalAllShift(es, env, kv.next, k);
          DictShift(kv.vs, EvalAll(es, env, kv.next), k);
        }
    }
  }

  lemma {:induction false} EvalAllShift(es: seq<Expr>, env: Env, n: nat, k: nat)
    ensures EvalAll(es, env, n + k) == ShiftResAll(EvalAll(es, env, n), k)
    decreases es, 0
  {
    if es != [] {
      EvalShift(es[0], env, n, k);
      var v := Eval(es[0], env, n);
      if v.Val? {
        EvalAllShift(es[1..], env, v.next, k);
      }
    }
  }

  lemma {:induction false} EvalBoolShift(isOr: bool, es: seq<Expr>, env: Env, n: nat, k: nat)
    ensures EvalBool(isOr, es, env, n + k) == ShiftRes(EvalBool(isOr, es, env, n), k)
    decreases es, 0
  {
    if es != [] {
      EvalShift(es[0], env, n, k);
      var v := Eval(es[0], env, n);
      if v.Val? {
        TruthShift(v.v, k);
        EvalBoolShift(isOr, es[1..], env, v.next, k);
      }
    }
  }

  // ---------------------------------------------------------------- operands that stay put

  /** No part of the value of `e` is a function or bare object built by evaluating `e`. */
  predicate NoFresh(e: Expr) {
    match e
    case Tuple(es) => forall x | x in es :: NoFresh(x)
    case List(es) => forall x | x in es :: NoFresh(x)
    case Set(es) => forall x | x in es :: NoFresh(x)
    case Dict(ks, vs) => (forall x | x in ks :: NoFresh(x)) && (forall x | x in vs :: NoFresh(x))
    case Lambda(_) => false
    case Call(f, args, _) => !(f == "object" && args == [])
    case BoolOp(_, es) => forall x | x in es :: NoFresh(x)
    case _ => true
  }

  /** Evaluating `e` yields an object that already existed, never one built on the spot. */
  predicate Settled(e: Expr) {
    match e
    case Tuple(_) => false
    case List(_) => false
    case Set(_) => false
    case Dict(_, _) => false
    case Lambda(_) => false
    case Call(f, args, _) => !(f == "object" && args == [])
    case BoolOp(_, es) => forall x | x in es :: Settled(x)
    case _ => true
  }

  ghost predicate Plain(v: Value) {
    match v
    case VFresh(_) => false
    case VSeq(_, _, items) => PlainAll(items)
    case VDict(_, es) => PlainEntries(es)
    case _ => true
  }

  ghost predicate PlainAll(vs: Values) {
    vs.More? ==> Plain(vs.head) && PlainAll(vs.tail)
  }

  ghost predicate PlainEntries(es: Entries) {
    es.Entry? ==> Plain(es.key) && Plain(es.val) && PlainEntries(es.rest)
  }

  lemma {:induction false} PlainAdd(vs: Values, v: Value)
    requires PlainAll(vs) && Plain(v)
    ensures PlainAll(Add(vs, v))
  {
    if vs.More? { PlainAdd(vs.tail, v); }
  }

  lemma {:induction false} PlainDistinct(kept: Values, vs: Values)
    requires PlainAll(kept) && PlainAll(vs)
    ensures PlainAll(Distinct(kept, vs))
    decreases vs
  {
    if vs.More? {
      PlainAdd(kept, vs.head);
      PlainDistinct(Add(kept, vs.head), vs.tail);
    }
  }

  lemma {:induction false} PlainPut(es: Entries, k: Value, v: Value)
    requires PlainEntries(es) && Plain(k) && Plain(v)
    ensures PlainEntries(Put(es, k, v))
  {
    if es.Entry? { PlainPut(es.rest, k, v); }
  }

  lemma {:induction false} PlainPutAll(kept: Entries, ks: Values, vs: Values)
    requires PlainEntries(kept) && PlainAll(ks) && PlainAll(vs)
    ensures PlainEntries(PutAll(kept, ks, vs))
    decreases ks
  {
    if ks.More? && vs.More? {
      PlainPut(kept, ks.head, vs.head);
      PlainPutAll(Put(kept, ks.head, vs.head), ks.tail, vs.tail);
    }
  }

  lemma {:induction false} NoFreshPlain(e: Expr, env: Env, n: nat)
    requires NoFresh(e) && Eval(e, env, n).Val?
    ensures Plain(Eval(e, env, n).v)
    decreases e, 1
  {
    match e {
      case Tuple(es) => NoFreshPlainAll(es, env, n);
      case List(es) => NoFreshPlainAll(es, env, n);
      case Set(es) =>
        NoFreshPlainAll(es, env, n);
        PlainDistinct(Nil, EvalAll(es, env, n).vs);
      case Dict(ks, es) =>
        NoFreshPlainAll(ks, env, n);
        var kv := EvalAll(ks, env, n);
        NoFreshPlainAll(es, env, kv.next);
        PlainPutAll(Empty, kv.vs, EvalAll(es, env, kv.next).vs);
      case BoolOp(isOr, es) => NoFreshPlainBool(isOr, es, env, n);
      case _ =>
    }
  }

  lemma {:induction false} NoFreshPlainAll(es: seq<Expr>, env: Env, n: nat)
    requires (forall x | x in es :: NoFresh(x)) && EvalAll(es, env, n).Vals?
    ensures PlainAll(EvalAll(es, env, n).vs)
    decreases es, 0
  {
    if es != [] {
      NoFreshPlain(es[0], env, n);
      NoFreshPlainAll(es[1..], env, Eval(es[0], env, n).next);
    }
  }

  lemma {:induction false} NoFreshPlainBool(isOr: bool, es: seq<Expr>, env: Env, n: nat)
    requires (forall x | x in es :: NoFresh(x)) && EvalBool(isOr, es, env, n).Val?
    ensures Plain(EvalBool(isOr, es, env, n).v)
    decreases es, 0
  {
    if es != [] {
      NoFreshPlain(es[0], env, n);
      var v := Eval(es[0], env, n);
      if !(|es| == 1 || Truthy(v.v) == isOr) { NoFreshPlainBool(isOr, es[1..], env, v.next); }
    }
  }

  lemma {:induction false} PlainEqShift(v: Value, k: nat)
    requires Plain(v)
    ensures PyEq(v, Shift(v, k))
  {
    match v {
      case VSeq(_, _, items) =>
        PlainEqAll(items, k);
        LengthShift(items, k);
        EqAllIn(items, ShiftAll(items, k));
      case VDict(_, es) =>
        SizeShift(es, k);
        PlainEntriesIn(es, k);
      case _ =>
    }
  }

  lemma {:induction false} PlainEqAll(vs: Values, k: nat)
    requires PlainAll(vs)
    ensures EqAll(vs, ShiftAll(vs, k))
  {
    if vs.More? {
      PlainEqShift(vs.head, k);
      PlainEqAll(vs.tail, k);
    }
  }

  lemma {:induction false} AllInMore(a: Values, w: Value, b: Values)
    requires AllIn(a, b)
    ensures AllIn(a, More(w, b))
  {
    if a.More? { AllInMore(a.tail, w, b); }
  }

  lemma {:induction false} EqAllIn(a: Values, b: Values)
    requires EqAll(a, b)
    ensures AllIn(a, b)
  {
    if a.More? {
      EqAllIn(a.tail, b.tail);
      AllInMore(a.tail, b.head, b.tail);
    }
  }

  lemma {:induction false} AllEntriesInMore(a: Entries, k: Value, v: Value, b: Entries)
    requires AllEntriesIn(a, b)
    ensures AllEntriesIn(a, Entry(k, v, b))
  {
    if a.Entry? { AllEntriesInMore(a.rest, k, v, b); }
  }

  lemma {:induction false} PlainEntriesIn(es: Entries, k: nat)
    requires PlainEntries(es)
    ensures AllEntriesIn(es, ShiftEntries(es, k))
  {
    if es.Entry? {
      PlainEqShift(es.key, k);
      PlainEqShift(es.val, k);
      PlainEntriesIn(es.rest, k);
      AllEntriesInMore(es.rest, Shift(es.key, k), Shift(es.val, k), ShiftEntries(es.rest, k));
    }
  }

  lemma {:induction false} SettledValue(e: Expr, env: Env, n: nat)
    requires Settled(e) && Eval(e, env, n).Val?
    ensures Eval(e, env, n).v.VConst? || Eval(e, env, n).v.VEnv?
    decreases e, 1
  {
    match e {
      case BoolOp(isOr, es) => SettledBool(isOr, es, env, n);
      case _ =>
    }
  }

  lemma {:induction false} SettledBool(isOr: bool, es: seq<Expr>, env: Env, n: nat)
    requires (forall x | x in es :: Settled(x)) && EvalBool(isOr, es, env, n).Val?
    ensures EvalBool(isOr, es, env, n).v.VConst? || EvalBool(isOr, es, env, n).v.VEnv?
    decreases es, 0
  {
    if es != [] {
      SettledValue(es[0], env, n);
      var v := Eval(es[0], env, n);
      if !(|es| == 1 || Truthy(v.v) == isOr) { SettledBool(isOr, es[1..], env, v.next); }
    }
  }
}
