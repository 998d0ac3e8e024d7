module EnvAliases {
  // `_denotes_environ` and `_environ_aliases`: the names a module ever binds to the whole environment.
  //
  // The loop is proved to compute the least set of names closed under the module's assignments, and
  // that set is compared with the names that can hold the environment in a run of the program.

  datatype Expr =
    | Environ                              // any `....environ`
    | Name(id: string)
    | IfExp(body: Expr, orelse: Expr)
    | BoolOp(values: seq<Expr>)
    | CopyCall(target: Expr)               // `target.copy()`
    | DictCall(args: seq<Expr>, spread: seq<Expr>)    // `dict(...)`, with the `**` arguments apart
    | Comprehension(iters: seq<Expr>)      // the iterables of a comprehension
    | Reading(parts: seq<Expr>)            // a value that cannot be the mapping: a constant, a comparison, a display
                                           // without `**`, a formatted string
    | Unlisted(parts: seq<Expr>)           // any other form, whose value may be the mapping or a copy of it whatever its
                                           // parts are: a call, an attribute, a subscript, `{**x}`, `x | y`, a parameter

  /**
   What gives names a value: an assignment; another binding, such as `(name := value)`, an import or a
   parameter; or a statement that fills the object in place, such as `name.update(value)`, with every name
   the object goes by.
   */
  datatype Assign = Assign(names: seq<string>, value: Expr)

  /** Some part of the expression is an access to the environment. */
  predicate Mentions(e: Expr) {
    match e
    case Environ => true
    case Name(_) => false
    case IfExp(a, b) => Mentions(a) || Mentions(b)
    case BoolOp(es) => exists x | x in es :: Mentions(x)
    case CopyCall(x) => Mentions(x)
    case DictCall(es, ks) => (exists x | x in es :: Mentions(x)) || exists x | x in ks :: Mentions(x)
    case Comprehension(es) => exists x | x in es :: Mentions(x)
    case Reading(es) => exists x | x in es :: Mentions(x)
    case Unlisted(es) => exists x | x in es :: Mentions(x)
  }

  predicate Denotes(e: Expr, aliases: set<string>) {
    match e
    case Environ => true
    case Name(x) => x in aliases
    case IfExp(a, b) => Denotes(a, aliases) || Denotes(b, aliases)
    case BoolOp(es) => exists x | x in es :: Denotes(x, aliases)
    case CopyCall(x) => x == Environ
    case DictCall(es, _) => es != [] && Denotes(es[0], aliases)
    case Comprehension(es) => exists x | x in es :: Mentions(x)
    case Reading(_) | Unlisted(_) => false
  }

  function SetOf(names: seq<string>): set<string> { set n | n in names }

  ghost predicate Closed(assigns: seq<Assign>, s: set<string>) {
    forall a | a in assigns :: Denotes(a.value, s) ==> SetOf(a.names) <= s
  }

  /** The least set of names closed under the assignments. */
  ghost predicate Least(assigns: seq<Assign>, s: set<string>) {
    Closed(assigns, s) && forall t | Closed(assigns, t) :: s <= t
  }

  lemma {:induction false} DenotesMonotone(e: Expr, s: set<string>, t: set<string>)
    requires s <= t && Denotes(e, s)
    ensures Denotes(e, t)
  {
    match e {
      case IfExp(a, b) => if Denotes(a, s) { DenotesMonotone(a, s, t); } else { DenotesMonotone(b, s, t); }
      case BoolOp(es) =>
        var x :| x in es && Denotes(x, s);
        DenotesMonotone(x, s, t);
      case DictCall(es, _) => DenotesMonotone(es[0], s, t);
      case _ =>
    }
  }

  ghost function AllNames(assigns: seq<Assign>): set<string> {
    if assigns == [] then {} else SetOf(assigns[0].names) + AllNames(assigns[1..])
  }

  lemma {:induction false} NamesWithin(assigns: seq<Assign>, a: Assign)
    requires a in assigns
    ensures SetOf(a.names) <= AllNames(assigns)
  {
    if a != assigns[0] { NamesWithin(assigns[1..], a); }
  }

  /** Names added because of an assignment belong to every closed set. */
  lemma {:induction false} AddedToAll(assigns: seq<Assign>, a: Assign, s: set<string>)
    requires a in assigns && Denotes(a.value, s) && forall t | Closed(assigns, t) :: s <= t
    ensures forall t | Closed(assigns, t) :: s + SetOf(a.names) <= t
  {
    forall t | Closed(assigns, t) ensures s + SetOf(a.names) <= t { DenotesMonotone(a.value, s, t); }
  }

  method EnvironAliases(assigns: seq<Assign>) returns (aliases: set<string>)
    ensures Least(assigns, aliases)
  {
    aliases := {};
    var changed := true;
    while changed
      invariant aliases <= AllNames(assigns)
      invariant forall t | Closed(assigns, t) :: aliases <= t
      invariant !changed ==> Closed(assigns, aliases)
      decreases AllNames(assigns) - aliases, if changed then 1 else 0
    {
      changed := false;
      ghost var before := aliases;
      for i := 0 to |assigns|
        invariant before <= aliases <= AllNames(assigns)
        invariant forall t | Closed(assigns, t) :: aliases <= t
        invariant !changed ==> aliases == before
        invariant changed ==> before < aliases
        invariant !changed ==> forall j | 0 <= j < i :: Denotes(assigns[j].value, aliases) ==> SetOf(assigns[j].names) <= aliases
      {
        var a := assigns[i];
        if Denotes(a.value, aliases) {
          AddedToAll(assigns, a, aliases);
          NamesWithin(assigns, a);
          ghost var start := aliases;
          for k := 0 to |a.names|
            invariant aliases == start + SetOf(a.names[..k])
            invariant changed <==> before < aliases
            invariant before <= start
          {
            assert SetOf(a.names[..k + 1]) == SetOf(a.names[..k]) + {a.names[k]} by {
              assert a.names[..k + 1] == a.names[..k] + [a.names[k]];
            }
            if a.names[k] !in aliases {
              aliases := aliases + {a.names[k]};
              changed := true;
            }
          }
          assert a.names[..|a.names|] == a.names;
        }
      }
    }
  }

  /** The answer does not depend on the order, or the repetition, of the assignments. */
  lemma {:induction false} OrderIrrelevant(xs: seq<Assign>, ys: seq<Assign>, s: set<string>, t: set<string>)
    requires (forall a :: a in xs <==> a in ys) && Least(xs, s) && Least(ys, t)
    ensures s == t
  {
    assert Closed(xs, t) && Closed(ys, s);
  }

  // ---------------------------------------------------------------- runs

  /** The value of `e` may be the whole environment, or a copy of it, when `held` are the names that hold it. */
  predicate MayHold(e: Expr, held: set<string>) {
    match e
    case Environ => true
    case Name(x) => x in held
    case IfExp(a, b) => MayHold(a, held) || MayHold(b, held)
    case BoolOp(es) => exists x | x in es :: MayHold(x, held)
    case CopyCall(x) => MayHold(x, held)
    case DictCall(es, ks) => (es != [] && MayHold(es[0], held)) || exists x | x in ks :: MayHold(x, held)
    case Comprehension(es) => exists x | x in es :: Mentions(x) || Uses(x, held)
    case Reading(_) => false
    case Unlisted(_) => true
  }

  /** Some part of the expression is a name that holds the environment, or may itself give it. */
  predicate Uses(e: Expr, held: set<string>) {
    match e
    case Environ => false
    case Name(x) => x in held
    case IfExp(a, b) => Uses(a, held) || Uses(b, held)
    case BoolOp(es) => exists x | x in es :: Uses(x, held)
    case CopyCall(x) => Uses(x, held)
    case DictCall(es, ks) => (exists x | x in es :: Uses(x, held)) || exists x | x in ks :: Uses(x, held)
    case Comprehension(es) => exists x | x in es :: Uses(x, held)
    case Reading(es) => exists x | x in es :: Uses(x, held)
    case Unlisted(_) => true
  }

  /** The assignments the analysis collects are among the bindings of the module. */
  ghost predicate Recorded(assigns: seq<Assign>, bindings: seq<Assign>) { forall a | a in assigns :: a in bindings }

  /** One executed binding, and whether its value turned out to be the environment. */
  datatype Event = Event(a: Assign, whole: bool)

  function Exec(held: set<string>, ev: Event): set<string> {
    if ev.whole then held + SetOf(ev.a.names) else held - SetOf(ev.a.names)
  }

  ghost predicate Possible(bindings: seq<Assign>, held: set<string>, ev: Event) {
    ev.a in bindings && (ev.whole ==> MayHold(ev.a.value, held))
  }

  /** Running the events, in any order and any number of times, takes `held` to `after`. */
  ghost predicate Runs(bindings: seq<Assign>, held: set<string>, evs: seq<Event>, after: set<string>)
    decreases evs
  {
    if evs == [] then held == after
    else Possible(bindings, held, evs[0]) && Runs(bindings, Exec(held, evs[0]), evs[1..], after)
  }

  lemma {:induction false} DenotesMayHold(e: Expr, s: set<string>)
    requires Denotes(e, s)
    ensures MayHold(e, s)
  {
    match e {
      case IfExp(a, b) => if Denotes(a, s) { DenotesMayHold(a, s); } else { DenotesMayHold(b, s); }
      case BoolOp(es) =>
        var x :| x in es && Denotes(x, s);
        DenotesMayHold(x, s);
      case DictCall(es, _) => DenotesMayHold(es[0], s);
      case _ =>
    }
  }

  lemma {:induction false} UsesMonotone(e: Expr, s: set<string>, t: set<string>)
    requires s <= t && Uses(e, s)
    ensures Uses(e, t)
  {
    match e {
      case IfExp(a, b) => if Uses(a, s) { UsesMonotone(a, s, t); } else { UsesMonotone(b, s, t); }
      case BoolOp(es) => var x :| x in es && Uses(x, s); UsesMonotone(x, s, t);
      case CopyCall(x) => UsesMonotone(x, s, t);
      case DictCall(es, ks) => var x :| (x in es || x in ks) && Uses(x, s); UsesMonotone(x, s, t);
      case Comprehension(es) => var x :| x in es && Uses(x, s); UsesMonotone(x, s, t);
      case Reading(es) => var x :| x in es && Uses(x, s); UsesMonotone(x, s, t);
      case _ =>
    }
  }

  lemma {:induction false} MayHoldMonotone(e: Expr, s: set<string>, t: set<string>)
    requires s <= t && MayHold(e, s)
    ensures MayHold(e, t)
  {
    match e {
      case IfExp(a, b) => if MayHold(a, s) { MayHoldMonotone(a, s, t); } else { MayHoldMonotone(b, s, t); }
      case BoolOp(es) => var x :| x in es && MayHold(x, s); MayHoldMonotone(x, s, t);
      case CopyCall(x) => MayHoldMonotone(x, s, t);
      case DictCall(es, ks) =>
        if es != [] && MayHold(es[0], s) {
          MayHoldMonotone(es[0], s, t);
        } else {
          var x :| x in ks && MayHold(x, s);
          MayHoldMonotone(x, s, t);
        }
      case Comprehension(es) =>
        var x :| x in es && (Mentions(x) || Uses(x, s));
        if !Mentions(x) { UsesMonotone(x, s, t); }
      case _ =>
    }
  }

  /** A run that makes every alias hold the environment: nothing in the set is there by mistake. */
  lemma {:induction false} AliasesReached(assigns: seq<Assign>, bindings: seq<Assign>, aliases: set<string>)
    returns (evs: seq<Event>)
    requires Least(assigns, aliases) && Recorded(assigns, bindings)
    ensures Runs(bindings, {}, evs, aliases)
  {
    evs := [];
    var held: set<string> := {};
    while !Closed(assigns, held)
      invariant held <= aliases && Runs(bindings, {}, evs, held)
      decreases aliases - held
    {
      var a :| a in assigns && Denotes(a.value, held) && !(SetOf(a.names) <= held);
      DenotesMonotone(a.value, held, aliases);
      DenotesMayHold(a.value, held);
      RunsExtend(bindings, {}, evs, held, Event(a, true));
      evs, held := evs + [Event(a, true)], held + SetOf(a.names);
    }
    assert held == aliases;
  }

  lemma {:induction false} RunsExtend(bindings: seq<Assign>, held: set<string>, evs: seq<Event>, after: set<string>, ev: Event)
    requires Runs(bindings, held, evs, after) && Possible(bindings, after, ev)
    ensures Runs(bindings, held, evs + [ev], Exec(after, ev))
    decreases evs
  {
    if evs == [] {
      assert (evs + [ev])[1..] == [];
    } else {
      assert (evs + [ev])[1..] == evs[1..] + [ev];
      RunsExtend(bindings, Exec(held, evs[0]), evs[1..], after, ev);
    }
  }

  /** No binding moves the environment out of the set: by a form that is not listed, or in a place that is not collected. */
  ghost predicate NoEscape(bindings: seq<Assign>, aliases: set<string>) {
    forall a | a in bindings :: MayHold(a.value, aliases) ==> SetOf(a.names) <= aliases
  }

  lemma {:induction false} RunsStayInside(bindings: seq<Assign>, aliases: set<string>, held: set<string>,
                                          evs: seq<Event>, after: set<string>)
    requires NoEscape(bindings, aliases) && held <= aliases && Runs(bindings, held, evs, after)
    ensures after <= aliases
    decreases evs
  {
    if evs != [] {
      if evs[0].whole { MayHoldMonotone(evs[0].a.value, held, aliases); }
      RunsStayInside(bindings, aliases, Exec(held, evs[0]), evs[1..], after);
    }
  }

  /** Every name that holds the environment at some point of some run is in the set. */
  ghost predicate Confined(bindings: seq<Assign>, aliases: set<string>) {
    forall evs, after | Runs(bindings, {}, evs, after) :: after <= aliases
  }

  /** The set is complete exactly when no binding moves the environment out of it. */
  lemma {:induction false} AliasesExact(assigns: seq<Assign>, bindings: seq<Assign>, aliases: set<string>)
    requires Least(assigns, aliases) && Recorded(assigns, bindings)
    ensures NoEscape(bindings, aliases) <==> Confined(bindings, aliases)
  {
    if NoEscape(bindings, aliases) {
      forall evs, after | Runs(bindings, {}, evs, after) ensures after <= aliases {
        RunsStayInside(bindings, aliases, {}, evs, after);
      }
    } else {
      var a :| a in bindings && MayHold(a.value, aliases) && !(SetOf(a.names) <= aliases);
      var evs := AliasesReached(assigns, bindings, aliases);
      RunsExtend(bindings, {}, evs, aliases, Event(a, true));
      var after := aliases + SetOf(a.names);
      assert Runs(bindings, {}, evs + [Event(a, true)], after);
      var n :| n in SetOf(a.names) && n !in aliases;
      assert n in after && !(after <= aliases);
    }
  }

  /** Only the listed whole-map forms: nothing but the environment itself is copied or iterated over. */
  predicate Listed(e: Expr) {
    match e
    case IfExp(a, b) => Listed(a) && Listed(b)
    case BoolOp(es) => forall x | x in es :: Listed(x)
    case CopyCall(x) => x == Environ || !Names(x)
    case DictCall(es, ks) => (es != [] ==> Listed(es[0])) && forall x | x in ks :: !Names(x)
    case Comprehension(es) => (exists x | x in es :: Mentions(x)) || forall x | x in es :: !Names(x)
    case Unlisted(_) => false
    case _ => true
  }

  /** The expression mentions a name or the environment, or has a part that may give it. */
  predicate Names(e: Expr) {
    match e
    case Environ => true
    case Name(_) => true
    case IfExp(a, b) => Names(a) || Names(b)
    case BoolOp(es) => exists x | x in es :: Names(x)
    case CopyCall(x) => Names(x)
    case DictCall(es, ks) => (exists x | x in es :: Names(x)) || exists x | x in ks :: Names(x)
    case Comprehension(es) => exists x | x in es :: Names(x)
    case Reading(es) => exists x | x in es :: Names(x)
    case Unlisted(_) => true
  }

  lemma {:induction false} UsesNames(e: Expr, s: set<string>)
    requires Uses(e, s)
    ensures Names(e)
  {
    match e {
      case IfExp(a, b) => if Uses(a, s) { UsesNames(a, s); } else { UsesNames(b, s); }
      case BoolOp(es) => var x :| x in es && Uses(x, s); UsesNames(x, s);
      case CopyCall(x) => UsesNames(x, s);
      case DictCall(es, ks) => var x :| (x in es || x in ks) && Uses(x, s); UsesNames(x, s);
      case Comprehension(es) => var x :| x in es && Uses(x, s); UsesNames(x, s);
      case Reading(es) => var x :| x in es && Uses(x, s); UsesNames(x, s);
      case _ =>
    }
  }

  lemma {:induction false} MentionsNames(e: Expr)
    requires Mentions(e)
    ensures Names(e)
  {
    match e {
      case IfExp(a, b) => if Mentions(a) { MentionsNames(a); } else { MentionsNames(b); }
      case BoolOp(es) => var x :| x in es && Mentions(x); MentionsNames(x);
      case CopyCall(x) => MentionsNames(x);
      case DictCall(es, ks) => var x :| (x in es || x in ks) && Mentions(x); MentionsNames(x);
      case Comprehension(es) => var x :| x in es && Mentions(x); MentionsNames(x);
      case Reading(es) => var x :| x in es && Mentions(x); MentionsNames(x);
      case _ =>
    }
  }

  lemma {:induction false} MayHoldNames(e: Expr, s: set<string>)
    requires MayHold(e, s)
    ensures Names(e)
  {
    match e {
      case IfExp(a, b) => if MayHold(a, s) { MayHoldNames(a, s); } else { MayHoldNames(b, s); }
      case BoolOp(es) => var x :| x in es && MayHold(x, s); MayHoldNames(x, s);
      case CopyCall(x) => MayHoldNames(x, s);
      case DictCall(es, ks) =>
        if es != [] && MayHold(es[0], s) {
          MayHoldNames(es[0], s);
          assert es[0] in es;
        } else {
          var x :| x in ks && MayHold(x, s);
          MayHoldNames(x, s);
        }
      case Comprehension(es) =>
        var x :| x in es && (Mentions(x) || Uses(x, s));
        if Mentions(x) { MentionsNames(x); } else { UsesNames(x, s); }
      case _ =>
    }
  }

  lemma {:induction false} ListedDenotes(e: Expr, s: set<string>)
    requires Listed(e) && MayHold(e, s)
    ensures Denotes(e, s)
  {
    match e {
      case IfExp(a, b) => if MayHold(a, s) { ListedDenotes(a, s); } else { ListedDenotes(b, s); }
      case BoolOp(es) => var x :| x in es && MayHold(x, s); ListedDenotes(x, s);
      case CopyCall(x) => if x != Environ { MayHoldNames(x, s); }
      case DictCall(es, ks) =>
        if es != [] && MayHold(es[0], s) {
          ListedDenotes(es[0], s);
        } else {
          var x :| x in ks && MayHold(x, s);
          MayHoldNames(x, s);
        }
      case Comprehension(es) =>
        if !exists x | x in es :: Mentions(x) {
          var x :| x in es && (Mentions(x) || Uses(x, s));
          UsesNames(x, s);
        }
      case _ =>
    }
  }

  /**
   In a module that binds names only by assignments and uses only the listed forms in them, whatever holds
   the environment in any run is an alias.
   */
  lemma {:induction false} ListedFormsSuffice(assigns: seq<Assign>, aliases: set<string>, evs: seq<Event>, after: set<string>)
    requires Least(assigns, aliases) && forall a | a in assigns :: Listed(a.value)
    requires Runs(assigns, {}, evs, after)
    ensures after <= aliases
  {
    forall a | a in assigns && MayHold(a.value, aliases) ensures SetOf(a.names) <= aliases {
      ListedDenotes(a.value, aliases);
    }
    RunsStayInside(assigns, aliases, {}, evs, after);
  }

  // ---------------------------------------------------------------- what is missed

  lemma {:induction false} OneBinding(bindings: seq<Assign>, held: set<string>, a: Assign)
    requires a in bindings && MayHold(a.value, held)
    ensures Runs(bindings, held, [Event(a, true)], held + SetOf(a.names))
  {
    var after := held + SetOf(a.names);
    assert Possible(bindings, held, Event(a, true)) && Exec(held, Event(a, true)) == after;
    assert [Event(a, true)][1..] == [];
    assert Runs(bindings, after, [], after);
  }

  /** `env = os.environ; snapshot = env.copy()`: the copy is missed. */
  lemma {:induction false} CopyOfAliasMissed()
    ensures var assigns := [Assign(["env"], Environ), Assign(["snapshot"], CopyCall(Name("env")))];
            Least(assigns, {"env"}) && exists evs :: Runs(assigns, {}, evs, {"env", "snapshot"})
  {
    var a, b := Assign(["env"], Environ), Assign(["snapshot"], CopyCall(Name("env")));
    var assigns := [a, b];
    assert SetOf(["env"]) == {"env"};
    assert SetOf(["snapshot"]) == {"snapshot"};
    forall t | Closed(assigns, t) ensures {"env"} <= t { assert a in assigns; }
    OneBinding(assigns, {}, a);
    assert {} + SetOf(a.names) == {"env"};
    RunsExtend(assigns, {}, [Event(a, true)], {"env"}, Event(b, true));
    assert {"env"} + SetOf(b.names) == {"env", "snapshot"};
  }

  /** A name bound to a value in an unlisted form is no alias, and may hold the environment. */
  lemma {:induction false} UnlistedMissed(name: string, parts: seq<Expr>)
    ensures var assigns := [Assign([name], Unlisted(parts))];
            Least(assigns, {}) && exists evs :: Runs(assigns, {}, evs, {name})
  {
    var a := Assign([name], Unlisted(parts));
    OneBinding([a], {}, a);
    assert {} + SetOf(a.names) == {name};
  }

  /** `snapshot = {**os.environ}`. */
  lemma {:induction false} SpreadMissed()
    ensures var assigns := [Assign(["snapshot"], Unlisted([Environ]))];
            Least(assigns, {}) && exists evs :: Runs(assigns, {}, evs, {"snapshot"})
  {
    UnlistedMissed("snapshot", [Environ]);
  }

  /** `snapshot = _env(root)`, where `_env` returns such a display: no part of the call mentions the environment. */
  lemma {:induction false} CallMissed()
    ensures var call := Unlisted([Name("_env"), Name("root")]);
            var assigns := [Assign(["snapshot"], call)];
            !Mentions(call) && Least(assigns, {}) && exists evs :: Runs(assigns, {}, evs, {"snapshot"})
  {
    UnlistedMissed("snapshot", [Name("_env"), Name("root")]);
  }

  /** `(env := os.environ)`: a binding that is no assignment statement is not looked at. */
  lemma {:induction false} WalrusMissed()
    ensures var bindings := [Assign(["env"], Environ)];
            Recorded([], bindings) && Least([], {}) && exists evs :: Runs(bindings, {}, evs, {"env"})
  {
    var a := Assign(["env"], Environ);
    OneBinding([a], {}, a);
    assert {} + SetOf(a.names) == {"env"};
  }

  /** `env = {}; env.update(os.environ)`: filling a dict is no binding, so it is not looked at either. */
  lemma {:induction false} UpdateMissed()
    ensures var first, fill := Assign(["env"], Reading([])), Assign(["env"], Environ);
            Recorded([first], [first, fill]) && Least([first], {}) && exists evs :: Runs([first, fill], {}, evs, {"env"})
  {
    var fill := Assign(["env"], Environ);
    OneBinding([Assign(["env"], Reading([])), fill], {}, fill);
    assert {} + SetOf(fill.names) == {"env"};
  }
}
