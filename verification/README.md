# Verification of the assurance scripts

The repository guards a release pipeline with scripts that draw conclusions nobody can check by
looking at an example: that an assertion in a test always executes, that a cached answer may be
believed, that a workflow step finds every variable it reads, that the last statement denying a
capability is the one that decides. This project models six of those components in Dafny and proves
what their docstrings claim, or, where a claim is false of the code, the exact condition under which
it holds together with a concrete counterexample.

`dafny verify dfyconfig.toml` checks everything. There is one module for each component or layer:

| component | modules |
|---|---|
| static analyser for assertions | `PyExpr`, `Reevaluation`, `Triviality`, `PyStmt`, `Reachability`, `ReachabilitySound`, `PassingRuns`, `MissingRuns`, `NestedRuns`, `Contracts`, `PyWalk`, `Dispositions`, `CleanReports` |
| frozen values, identity pins, cache suspension | `Frozen`, `CanonicalDicts`, `Pins`, `Views`, `Suspension` |
| Docker assurance state and its governed cache | `DockerState`, `DockerValid`, `DockerThaw`, `StateShape`, `CacheKey`, `GovernedCache`, `CacheEntries`, `StateOrder`, `Session`, `SessionLimits` |
| CI environment dataflow | `EnvAliases`, `AliasForms`, `ImportClosure`, `Availability` |
| final-defender exhaustion | `DenyExhaustion` |
| canonical graph form, ARNs, `exec` scanners | `CanonicalSteps`, `Arns`, `ExecGrammar`, `ExecScan`, `CommandWords`, `CommandPieces` |

`Sorting` (Python's `sorted`) and `Common` are shared.

## What is proved

**The analyser.** `PyExpr` and `PyStmt` give a Python fragment a meaning: expressions with object
identity, and statements with assertions, branches, loops, `try`, `with`, nested functions and every
form of abrupt exit. A run is driven by a tree that supplies whatever the text does not determine, so
"for every run" covers every choice of conditions, iterables, exceptions, swallowed exceptions and
nested calls, including runs that are cut off. Against this meaning UNREACHABLE is sound for all runs;
REACHABLE is sound for all runs in which nothing leaves a statement early. Whether every passing run
evaluates every REACHABLE assertion is decided by a check on the syntax, which is proved sufficient for
all functions and, for functions without nested ones in which a test is either folded or can turn out
either way, necessary: where it fails, a passing run that misses an assertion is built. The assertions of
a nested helper are evaluated in every undisturbed run exactly when no way through the function avoids
calling it. The end-to-end result connects a satisfied contract to one assertion that all telling runs
evaluate. Apart from runs, `Dispositions` tells the disposition of every assertion from where it stands, and
`CleanReports` tells from that which problems a report holds, so a clean report is described without the
analyser.

**Frozen values and pins.** `Pins` is a heap in which the rest of the program may allocate, change any
mutable object it holds and follow any reference it can see. An object built by `deep_freeze` keeps
its content at every depth under any sequence of such steps, before it is pinned and after, so a pin that
still checks out guarantees the content that was derived. `Views` settles when deep content is constant:
exactly when no chain of references leads from what the program holds to something in it that can change.
For values that `is_frozen` accepts, that leaves dicts behind views and objects of kinds it does not know.

**The governed cache.** A lookup has no precondition on what the cache holds, so its guarantee covers
arbitrary writes by anybody: a hit is a valid state with the digest on the entry and the complete key
of the question. `StateShape` and `CacheEntries` describe valid states and acceptable entries field by field, and
`CacheKey` names the fields that two states must share to have the same key. Conversely an honest history never leads to a refusal, and a stored state stays a hit
whatever happens to other entries.

**Session finish.** A finish is clean exactly when the fresh state is the baseline up to the order of
records and site ids, unless all sections are `==` and one of them has a number of another kind than
before; in exactly those cases the finish is clean about states that differ. `RunSession` puts establishment,
arbitrary writes to the cache and the finish together.

**Workflow environment.** The alias loop computes the least closed set, and the set is complete exactly
when no binding moves the environment out of it; the import traversal returns exactly the reads of the
reachable scripts although its calls share one set; `check` is clean exactly when a runner executing the
steps in order finds every variable.

**Exhaustion, forms and scanners.** The removal loop terminates although names go stale, the graph form
is a complete invariant, ARN parsing is invertible, and the two index loops that look for the command
after `exec` make the same reading of the words they are given, which is compared with the words that Bash
takes for redirections, options and names. `CommandWords` adds how one scanner comes by its words: it cuts
the line first, so the two agree only up to the first separator.

## Findings

Where the code does less than its documentation says, the model follows the code.

* `assert [] is []` and `assert object() == object()` always fail, yet count as always true
  (`Triviality.FalseTrivia`). For literals, names, tuples, lists, lambdas and `object()` the shortcut for equal sides is
  right in every environment exactly when no operand builds the object that is compared (`SameSidesSettled`,
  `SameSidesFails`); for tuples of constants under `is` that depends on the interpreter, which may keep one object for both.
* `assert not ()`, `assert -1` and `assert 1 < 2` cannot fail, yet count as meaningful
  (`Triviality.LiteralsMissed`). `LiteralExact` says which expressions made of literals are missed: those that
  are truthy because of a `not` of something other than a constant, a sign, or a comparison other than `==` and
  than a comparison of a literal with itself.
* An exit inside a branch does not end the enclosing block (`ReachabilitySound.GapInnerReturn`), a `with`
  may swallow what its body raises (`GapSwallowed`), and a nested function counts as called when the call
  itself is dead (`GapUncalled`). Each makes an assertion REACHABLE that some completed run misses.
  `MissingRuns.SecureExactly` gives the exact condition for functions without nested ones, and
  `NestedRuns.NestedExactly` that for the assertions of a helper.
* The verdict NOT_DECISIVE cannot occur: under the assumptions on the evaluator every capability with a
  defender is EXHAUSTIBLE_AND_DECISIVE (`DenyExhaustion.Exhaust`).
* `env.copy()`, where `env` is an alias, and `{**os.environ}` are not recognised as the environment
  (`EnvAliases.CopyOfAliasMissed`, `SpreadMissed`); scripts/site_coverage.py:44 and
  scripts/execution_trace.py:102 build their environments in the second way. Neither is `_env(root)`, where
  `_env` returns such a display, as in scripts/site_behavior.py:112-114 (`CallMissed`); no part of that call
  mentions the environment. Nor are bindings that are no assignment statements, `(env := os.environ)`
  (`WalrusMissed`), and dicts filled in place, `env.update(os.environ)` (`UpdateMissed`). `AliasesExact` gives the
  exact condition.
* `is_frozen` accepts a view of a dict that somebody still holds (`Views.ViewIsNotAFreeze`), and every object of a
  kind it does not know, such as a deque, which `deep_freeze` leaves alone (`DequeLeftAlone`, `DequeIsNotFrozen`).
  A pin over either goes on passing after a change (`PinMisses`). `FrozenExactly` gives the exact condition.
* A container classified under two names loses its contents when the caches are suspended
  (`Suspension.Bracket`, `TwoNames`).
* `canonical` does not always forget the iteration order of a dict: `{1: "a", "1": "b"}` and `{"1": "b", 1: "a"}`
  are equal and have different forms (`CanonicalDicts.OrderShows`). The order is forgotten exactly when keys with
  the same text have values with the same form (`OrderForgottenExactly`).
* The copy made for checking a cached state turns tuples into lists, so a state whose ids are tuples can be
  stored but raises on lookup (`GovernedCache.StoredIsHit`). The ids that the repository derives are strings.
* The report by section compares with `==`, to which `1`, `True` and `1.0` are the same. Finishing with
  the load-bearing count as a float changes the digest and is reported clean (`SessionLimits.MaskedChange`).
  `LostExactly` says that this is the only way to lose a difference. The counts that the repository derives are integers.
* `exec >log docker run` runs `docker`, and neither scanner finds it (`ExecScan.LogMissed`): a redirection with a file
  name attached is taken for the command (`TakenForCommand`).
* On `exec 2>&1 docker run` the oracle names `docker` and `docker_boundary` reports `1`
  (`CommandWords.DuplicateDiffers`): scripts/docker_boundary.py:668 cuts the line at `&` before it is split into
  words, so the test for `&1` and `&2` at line 707 never sees a word with `&`. On `exec 3>&- docker run` the oracle
  names `run` and `docker_boundary` reports `-` (`CloseDiffers`). `NamesExactly` says which words each scanner names,
  and `ScannersAgree` when they agree about the command that Bash runs.

## Assumptions

* SHA-256 of the JSON text is a function of the canonical form. Results that need it assume that the two forms being
  compared do not collide; nothing is assumed of other forms.
* Object identities are never reused while a pin is held.
* The policy evaluator answers EXPLICIT_DENY exactly when it can evaluate every statement of a policy and some
  Deny statement applies, and then names the applicable Deny statements by `Sid` or `<statement i>`.
* Evaluating an expression that the model does not look into has no effect on another one: asked again, it gives the
  same answer, so `f() == f()` is true. Equal constants are the same object; whether equal tuples of constants are is
  left open.
* A mapping proxy wraps a dict, and gives out the dict's values but never the dict. Dict keys, and the values that
  `Pins.AtomCell` stands for, cannot change.
* Calling the bare name of a nested function that is in scope calls that function.
* An expression that cannot give the environment mapping (a constant, a comparison, a display without `**`) is told
  from one that may (`EnvAliases.Reading` and `Unlisted`); which of the two an expression is, is an input. So is the
  list of statements that fill an object in place, each with all names of the object.
* The words after `exec` are those of one simple command: no control operator or comment among them, a redirection
  starts its word, and nothing before the command is quoted or expanded.
* The interpreter's builtin conversions give `True` and `1`, and `False` and `0`, results of the same truth value.

## Model

| member | source | states |
|---|---|---|
| Triviality.ConstTruthSound | scripts/assertion_contracts.py:195-210 | a Boolean from `_const_truth` is the truth value of the expression in every environment |
| Triviality.ConstIterations | scripts/assertion_contracts.py:266-276 | an iterable folded to true yields an item and one folded to false yields none |
| Triviality.AlwaysTrueSound | scripts/assertion_contracts.py:106-174 | an expression accepted as always true never evaluates to a falsy value, through nested `and`/`or`, folded builtins and same-expression comparisons, if one accepted operand of each `or` does not rest on a comparison that can be told apart |
| Triviality.LiteralExact | scripts/assertion_contracts.py:106-174 | on expressions made of literals exactly the truthy ones are accepted, but for those that are truthy because of a part that is not folded |
| Triviality.LiteralsMissed | scripts/assertion_contracts.py:149-174 | three expressions made of literals that are truthy in every environment and not accepted |
| Triviality.SameSidesAccepted | scripts/assertion_contracts.py:149-156 | `x op x` is accepted for `==`, `is`, `<=` and `>=` whatever `x` is; with another operator, or with two different sides that are not both constants, a comparison is not |
| Triviality.NeutralisedAccepted | scripts/assertion_contracts.py:157-169 | an accepted operand makes an `or` accepted at whatever place, and makes no difference to an `and` |
| Triviality.TrueOrAnything | scripts/assertion_contracts.py:157-169 | `True or x`, `x or 1`, `(y,) or x`, `x or (lambda: y)` and `object() or x` are accepted for any `x`, and `x and True` exactly when `x` is |
| Triviality.DisplaysAccepted | scripts/assertion_contracts.py:110-147 | a display, and `bool` or `len` of it, is accepted exactly when it is not empty, whatever is in it |
| Triviality.CallsAccepted | scripts/assertion_contracts.py:119-143 | a call with one constant is accepted exactly when it is one of the six builtins, has no keywords and gives something true, and a call without arguments exactly when it is `object()` |
| Triviality.OpaqueKept | scripts/assertion_contracts.py:170-174 | an expression that the check does not look into, an attribute call, and their negations are never accepted |
| Reevaluation.EvalShift | scripts/assertion_contracts.py:152-156 | evaluating an expression a second time gives the same value up to the identities of newly built objects |
| Triviality.SameSidesSettled | scripts/assertion_contracts.py:152-156 | `x op x` is never falsy when the operand builds no object that the comparison can tell apart |
| Triviality.SameSidesFails | scripts/assertion_contracts.py:152-156 | otherwise, for displays, the comparison is accepted and there is an environment in which it is false |
| Triviality.FalseTrivia | scripts/assertion_contracts.py:152-156 | two concrete assertions that always fail and are accepted as always true |
| Reachability.Analyser.Walk | scripts/assertion_contracts.py:239-318 | the walk of a block records exactly the visits of the specification, in order, and returns the liveness after the block; `Dispositions.DispositionExactly` says what those are |
| Reachability.Analyser.WalkStatement | scripts/assertion_contracts.py:239-318 | the same for one statement of any kind: the new dictionary is the old one with the statement's visits recorded |
| Reachability.Analyser.WalkTry | scripts/assertion_contracts.py:283-291 | the same for `try`, with handlers and `else` capped at CONDITIONAL and `finally` live |
| ReachabilitySound.Capped | scripts/assertion_contracts.py:222-225 | no disposition recorded inside a block outranks the one the block is walked with |
| ReachabilitySound.TerminatorLeaves | scripts/assertion_contracts.py:213-219 | return, raise, break, continue and the three pytest exits never complete normally |
| ReachabilitySound.NeverEvaluated | scripts/assertion_contracts.py:228-318 | an assertion classified UNREACHABLE is evaluated in no run of the function |
| ReachabilitySound.AlwaysEvaluated | scripts/assertion_contracts.py:228-318 | a run in which nothing leaves a statement early evaluates every REACHABLE assertion outside nested functions |
| PassingRuns.BlockEnds | scripts/assertion_contracts.py:190-219 | every run of a block that is not cut off ends in one of the ways read off its syntax |
| PassingRuns.PassingRunEvaluates | scripts/assertion_contracts.py:228-318 | in a secure function every run in which the test passes evaluates every REACHABLE assertion outside nested functions |
| MissingRuns.OpaqueOpen | scripts/assertion_contracts.py:195-210 | an expression that the walk cannot look into can turn out either way, can raise, and can yield nothing or an item |
| MissingRuns.RunBlock | scripts/assertion_contracts.py:190-219 | for each way a block may end there is a run of it that does |
| MissingRuns.InsecureMisses | scripts/assertion_contracts.py:228-318 | a function that is not secure has a run in which the test passes and a REACHABLE assertion is not evaluated |
| MissingRuns.SecureExactly | scripts/assertion_contracts.py:228-318 | all REACHABLE assertions are evaluated in all runs in which the test passes exactly when the function is secure |
| ReachabilitySound.DeadBodyReported | scripts/assertion_contracts.py:253-282 | a body under a false literal test or an empty literal iterable is UNREACHABLE throughout, whatever it contains |
| ReachabilitySound.DeadTailReported | scripts/assertion_contracts.py:309-315 | so is everything after an exit in the same block |
| ReachabilitySound.LiteralFolds | scripts/assertion_contracts.py:195-210 | literals under any number of `not` fold to their truth value |
| PyWalk.CalledExactly | scripts/assertion_contracts.py:232-237 | a name is collected from an expression exactly when a call of it occurs there, at any depth |
| PyWalk.InvokedExactly | scripts/assertion_contracts.py:232-237 | a name is collected from a function exactly when a call of it occurs in some statement, at any depth |
| Dispositions.DispositionExactly | scripts/assertion_contracts.py:228-318 | each assertion is UNREACHABLE exactly when it stands in dead code (after an exit, under a literal that excludes it, or in a nested function no call names), otherwise CONDITIONAL exactly when an undecided test or iterable, a handler or the `else` of a `try` encloses it, otherwise REACHABLE |
| Dispositions.UncalledDead | scripts/assertion_contracts.py:295-304 | the assertions of a nested function, at any depth, that no call in the whole function names are UNREACHABLE |
| Dispositions.AssertsInExactly | scripts/assertion_contracts.py:466-487 | the assertions listed are those of the function, at any depth, and no others |
| Dispositions.InFunctionExactly | scripts/assertion_contracts.py:295-304 | the assertions exempted as nested are those of functions defined in the block, at any depth, and no others |
| ReachabilitySound.GapInnerReturn | scripts/assertion_contracts.py:250-252 | after `if True: return` an assertion is REACHABLE and no run evaluates it |
| ReachabilitySound.GapSwallowed | scripts/assertion_contracts.py:292-294 | a passing run that misses a REACHABLE assertion because the `with` swallowed an exception |
| ReachabilitySound.GapUncalled | scripts/assertion_contracts.py:295-304 | a run without any early exit that misses a REACHABLE assertion in a nested function called only from dead code |
| NestedRuns.FreeOrCalled | scripts/assertion_contracts.py:295-304 | a run in which nothing ends early takes a way that avoids the call, or evaluates what is due in the nested function |
| NestedRuns.NestedExactly | scripts/assertion_contracts.py:233-304 | what is due in a helper is REACHABLE, and is evaluated in every run in which nothing ends early exactly when no way through the rest avoids the call |
| Contracts.AnalyseFunction | scripts/assertion_contracts.py:466-510 | the analysis lists every assertion in the function with its disposition, triviality, classes and tokens |
| Contracts.AnalysisFaithful | scripts/assertion_contracts.py:466-487 | the disposition looked up for an assertion is the only one the walk gave it |
| Contracts.NoneUnresolved | scripts/assertion_contracts.py:239-318 | the walk never produces UNRESOLVED |
| Contracts.MeetsRequirement | scripts/assertion_contracts.py:618-647 | the loop over assertions succeeds exactly when one of them can stand for the requirement, or a non-empty `pytest.raises` does |
| Contracts.CheckRequirements | scripts/assertion_contracts.py:614-647 | the classes met and missing, in order; an unknown class is an error |
| Contracts.CheckContract | scripts/assertion_contracts.py:544-675 | the result and problems of one contract, for missing, unparseable and present tests, undeclared helpers included; `CleanReports` says what they are |
| Contracts.Validate | scripts/assertion_contracts.py:531-686 | the report over all contracts in order; it is an error exactly when a present test's contract names an unknown class, and clean exactly when no problem was found; which those are is said by `CleanReports.ReportedExactly` |
| Contracts.MetRequirementIsEvaluated | scripts/assertion_contracts.py:621-644 | a requirement that is met has a meaningful assertion with its class and tokens that is evaluated by every undisturbed run and, in a secure function, by every passing run, unless it is inside a nested function; or, if conditional ones are allowed, there is another meaningful assertion of which that holds for all these runs |
| Contracts.SatisfiedContract | scripts/assertion_contracts.py:614-675 | end to end: so it is, assertions inside nested functions again apart, for every requirement of every contract marked satisfied |
| Contracts.CleanMeansLive | scripts/assertion_contracts.py:648-686 | under a clean report every contract is satisfied, no two have the same id, and no classified meaningful assertion is in dead code |
| Contracts.UndeclaredHelpers | scripts/assertion_contracts.py:596-612 | the loop collects the helpers that are whole assertions and that neither Python, pytest nor the contract declares |
| Contracts.CleanMeansDeclared | scripts/assertion_contracts.py:596-612 | under a clean report every assertion that is nothing but a call, negated or not, calls a declared helper |
| CleanReports.MinimumExactly | scripts/assertion_contracts.py:571-580 | what is compared with the minimum is the number of positions whose assertion can fail and stands as REACHABLE, the CONDITIONAL ones only if some requirement allows them and there is a REACHABLE one, and the `pytest.raises` blocks and `pytest.fail` calls |
| CleanReports.TrivialExactly | scripts/assertion_contracts.py:589-594 | a test is reported as unable to fail exactly when it has REACHABLE assertions, none of them can fail, and it has no `pytest.raises` and no `pytest.fail` |
| CleanReports.MetExactly | scripts/assertion_contracts.py:618-647 | a requirement is met exactly when an assertion that counts has its class and tokens, or it is EXPECTED_EXCEPTION and a `pytest.raises` block does something |
| CleanReports.ReportedExactly | scripts/assertion_contracts.py:531-686 | the report holds a problem exactly when some contract has it, said of the tests themselves for each of the eight kinds of problem |
| CleanReports.CleanExactly | scripts/assertion_contracts.py:531-686 | the report is clean exactly when no two contracts share an id, every test is there, reaches its minimum, can fail, consists of declared helpers, has no classified meaningful assertion in dead code and answers every requirement |
| CleanReports.SatisfiedExactly | scripts/assertion_contracts.py:614-675 | a contract is satisfied exactly when its test is there and answers every requirement |
| CleanReports.UncalledCountsForNothing | scripts/assertion_contracts.py:295-304 | an assertion in a nested function that no call names neither meets a requirement nor counts towards the minimum |
| CleanReports.UncalledNeverClean | scripts/assertion_contracts.py:648-655 | and if it is meaningful and classified, no report with its contract is clean |
| CleanReports.MechanismExactly | scripts/assertion_contracts.py:446-459 | the helper of an assertion is the name of the call that it is, under any number of `not` |
| CleanReports.BareExactly | scripts/assertion_contracts.py:603 | the bare name is what follows the last dot |
| CleanReports.DeclaredExactly | scripts/assertion_contracts.py:603-605 | a helper is declared exactly when the contract lists it, it is one of pytest's three or a builtin, or it ends in a known predicate method |
| Frozen.FreezeFrozen | scripts/cache_authority.py:107-145 | `is_frozen` accepts a value after `deep_freeze` exactly when it accepts everything that freezing leaves alone |
| Frozen.FreezeIdempotent | scripts/cache_authority.py:107-132 | freezing twice is freezing once |
| Frozen.ThawFreeze | scripts/docker_assurance_state.py:508-517 | thawing a frozen value gives what thawing the value itself gives |
| Frozen.ThawCanonical | scripts/docker_assurance_state.py:508-517 | thawing does not change the canonical form |
| Frozen.ThawUnfrozen | scripts/docker_assurance_state.py:508-517 | outside sets nothing frozen is left in a thawed value, if `sorted` adds no members |
| Frozen.FreezeRoundTrip | scripts/cache_authority.py:74-145 | a derived value is frozen at every depth after freezing, and freezing and thawing it leaves the canonical form as it was |
| CanonicalDicts.DictOrderForgotten | scripts/cache_authority.py:74-93 | dicts that differ only in iteration order have the same canonical form, if keys with the same text have values with the same form |
| CanonicalDicts.OrderForgottenExactly | scripts/cache_authority.py:80-86 | the form of a dict is that of all its rearrangements exactly when keys with the same text have values with the same form |
| CanonicalDicts.OrderShows | scripts/cache_authority.py:85-86 | two equal dicts with different forms |
| CanonicalDicts.DictsSame | scripts/cache_authority.py:85-86 | dicts without such a clash have the same canonical form exactly when they have the same named values |
| CanonicalDicts.SameDictSameValues | scripts/cache_authority.py:85-86 | dicts with the same keys in the same order and the same canonical form agree value by value |
| CanonicalDicts.SequencesSame | scripts/cache_authority.py:87-88 | a list has the form of the tuple, and two lists have the same form exactly when they look the same place by place |
| CanonicalDicts.SetsSame | scripts/cache_authority.py:89-90 | two sets have the same form exactly when their members look the same, in whatever order they are iterated |
| CanonicalDicts.AtomsSame | scripts/cache_authority.py:91-93 | two plain values have the same form exactly when they are the same or are rendered as the same text |
| CanonicalDicts.OthersSame | scripts/cache_authority.py:93 | two views or bytearrays have the same form exactly when their `repr` is the same |
| Sorting.SortPermutation | scripts/cache_authority.py:85-92 | sorting forgets the order of its input when only equal elements are level |
| Sorting.SortMap | scripts/lifecycle_canonical.py:79-88 | sorting by a key commutes with a mapping that keeps the key |
| Pins.FrozenForever | scripts/cache_authority.py:107-132 | an object immutable to a depth stays so, and keeps its content to that depth, under any sequence of heap steps |
| Pins.FreezeBuilds | scripts/cache_authority.py:107-132 | what `deep_freeze` returns for a value of dicts, lists, tuples, sets, frozensets, numbers, strings and None is such an object at every depth, with the content of the value, even once it is handed out |
| Pins.Registry.PinContainer | scripts/cache_authority.py:152-161 | the registry gains the container's identity and the identities of its values under the label |
| Pins.Registry.AssertPinned | scripts/cache_authority.py:164-182 | passes exactly when the label is unknown, or the container is the same and every pinned key still holds the same object; each refusal names a key that is gone or swapped |
| Pins.IntactMeansSameContent | scripts/cache_authority.py:147-182 | over frozen values, a passing check after any sequence of steps implies that every pinned key has the same deep content |
| Pins.PinSensitivity | scripts/cache_authority.py:164-182 | adding a key keeps a pin good; replacing or removing a pinned value breaks it |
| Pins.ContentKept | scripts/cache_authority.py:107-161 | a value frozen from a derivation has its content at every depth after any two runs in a row |
| Pins.PinAndCheck | scripts/cache_authority.py:107-182 | freeze, any run, pin, any run, check: if the check passes the cache has the content of the derived value under the key, at every depth |
| Views.HeldExactly | scripts/cache_authority.py:110-113 | an object comes to be held in some run exactly when references lead to it from something held now |
| Views.ConstantExactly | scripts/cache_authority.py:135-145 | no run changes the deep content of an object exactly when nothing in it that can change can be reached by following references from what is held |
| Views.Overlooked | scripts/cache_authority.py:135-145 | in a value that `is_frozen` accepts, what can change is exactly the dicts it views, the objects of other kinds in it, and what those show |
| Views.FrozenExactly | scripts/cache_authority.py:135-145 | no run changes the content of a value that `is_frozen` accepts exactly when none of these can be reached |
| Views.PinMisses | scripts/cache_authority.py:135-182 | if one can be reached, some run changes the content under an intact pin |
| Views.ImmutableClosed | scripts/cache_authority.py:107-145 | an object as `deep_freeze` makes it is accepted, and nothing in it that can change can be reached |
| Views.ViewIsNotAFreeze | scripts/cache_authority.py:135-145 | a concrete view over a held dict passes `is_frozen` at every depth, and its content changes under an intact pin |
| Views.DequeLeftAlone | scripts/cache_authority.py:126-132 | `deep_freeze` of a dict with a deque in it leaves the deque as it is |
| Views.DequeIsNotFrozen | scripts/cache_authority.py:135-145 | such a dict, held by nobody, passes `is_frozen` at every depth, and its content changes under an intact pin |
| Suspension.Suspend | scripts/cache_authority.py:302-309 | every container reached is empty and its contents are saved; the others are untouched |
| Suspension.Restore | scripts/cache_authority.py:311-313 | every container listed ends with the contents saved for its last listing |
| Suspension.Bracket | scripts/cache_authority.py:285-315 | all containers are empty when the body starts; afterwards each has its earlier contents whatever the body did, except one listed twice, which is empty |
| Suspension.DistinctBracket | scripts/cache_authority.py:285-315 | with pairwise distinct containers nothing is lost, even when suspension is cut short by an exception |
| Suspension.TwoNames | scripts/cache_authority.py:302-313 | with two classified names both containers keep their contents exactly when they are different, or one that was empty |
| DockerValid.SetSize | scripts/docker_assurance_state.py:256-271 | comparing the size of the set with the length finds exactly the repeated ids |
| DockerValid.SitesReconcile | scripts/docker_assurance_state.py:265-286 | no problem about sites exactly when there are records, all at a position, none twice, for the same sites as the universe |
| DockerValid.ValidMeans | scripts/docker_assurance_state.py:219-307 | in a valid state the record ids and the site ids are the same, none twice, as many as counted, and every record passes at a known position; `StateShape.ValidExactly` has the rest |
| StateShape.ValidExactly | scripts/docker_assurance_state.py:219-307 | a state is valid exactly when it is a dict with the eight fields, the versions and the marker are as expected, the pair digest is that of its own fields, the policy has its digests, the parser has no untrustworthy sources, the universes agree on a number of different sites, there is one passing record at a position for each of them and no other, and the aggregate is clean |
| StateShape.SampleValid | scripts/docker_assurance_state.py:219-307 | there is a valid state, whatever the digest |
| StateShape.HashableExactly | scripts/docker_assurance_state.py:264-271 | a value can be a member of the sets of ids exactly when nothing unhashable is in it, through tuples within tuples |
| StateShape.FalsyExactly | scripts/docker_assurance_state.py:243-267 | what counts as missing, false or empty: None, False, zero and empty texts and containers |
| StateShape.MixedIdsRaise | scripts/docker_assurance_state.py:281-286 | two ids that the other side does not know, one text and one not, make the check raise |
| DockerThaw.ThawValid | scripts/docker_assurance_state.py:409-412 | checking the thawed copy of a valid state finds no problem if its ids are plain values and raises otherwise |
| DockerThaw.ThawDigest | scripts/docker_assurance_state.py:195-216 | the thawed copy has the same state digest |
| DockerThaw.ThawKeyDigest | scripts/docker_assurance_state.py:320-361 | the thawed copy has the same cache key, or raises for the same missing or empty component |
| GovernedCache.HitIsSound | scripts/docker_assurance_state.py:393-442 | whatever the cache holds, a hit returns the entry's state, which is valid, has the digest on the entry, is filed under its own key and, unless the two keys collide, has the same identity as the state asked for: the same twelve fields by section and name, none of them missing, None or empty in either state |
| CacheKey.FormsEqual | scripts/docker_assurance_state.py:320-361 | the forms of two keys made of named components are the same exactly when every component is present in both and looks the same |
| CacheKey.KeyExactly | scripts/docker_assurance_state.py:320-361 | unless they collide, two keys are the same exactly when the assertion-contract digests are and the two states agree on all twelve fields of the identity, each given by section and name |
| CacheKey.KeyComplete | scripts/docker_assurance_state.py:340-361 | a key can be made exactly when none of the twelve fields and not the contract digest is missing, None or the empty string |
| GovernedCache.ChangedIsMiss | scripts/docker_assurance_state.py:375-442 | after any history of stores and resets of states that differ from the one asked for in at least one field of the identity, or in the contract, and do not collide with it, a lookup is a miss |
| CacheEntries.EntryExactly | scripts/docker_assurance_state.py:393-426 | an entry passes the checks exactly when it has the six fields and the labels, its state is a valid one, the two digests on it are those of the state, it is filed under that key, and its provenance has the six fields |
| CacheEntries.HitExactly | scripts/docker_assurance_state.py:429-442 | a lookup is a hit exactly when the identity asked for is complete and such an entry is filed under its key; the answer is the state of the entry |
| CacheEntries.MissExactly | scripts/docker_assurance_state.py:429-442 | a lookup is a miss exactly when the identity is complete and nothing, or None, is filed under its key |
| CacheEntries.FiledExactly | scripts/docker_assurance_state.py:363-390 | `store` succeeds exactly for a valid state with a complete identity and a digest, and the provenance it files says when, in which process, for which tree and why |
| GovernedCache.FiledIsClean | scripts/docker_assurance_state.py:375-426 | what `store` files passes every check of `lookup`, as far as its ids survive the copy |
| GovernedCache.StoredIsHit | scripts/docker_assurance_state.py:375-442 | a stored state asked for again is a hit with the same digest after any interference with other entries, if its ids are plain values |
| GovernedCache.HonestNeverRejected | scripts/docker_assurance_state.py:375-442 | after any history of stores and resets without a collision with the key asked for, a lookup is never rejected; it is a miss exactly when nothing is filed under the key, and otherwise gives the state filed, or raises if the ids of that are not plain values |
| GovernedCache.Governed.constructor | scripts/docker_assurance_state.py:88 | the cache starts empty |
| GovernedCache.Governed.Reset | scripts/docker_assurance_state.py:91-93 | the cache is empty |
| GovernedCache.Governed.Store | scripts/docker_assurance_state.py:375-390 | files the frozen entry under the state's key and changes nothing else; an invalid or incomplete state raises and changes nothing |
| GovernedCache.Governed.Ask | scripts/docker_assurance_state.py:429-442 | the answer of the specification; a hit is valid, has the key of the question and, unless the two keys collide, its identity; `CacheEntries.HitExactly` says when it is a hit |
| GovernedCache.Governed.Establish | scripts/docker_assurance_state.py:446-463 | succeeds exactly when the derivation is valid and complete; then the cache holds its entry alone, whatever it held before, and the baseline is a copy with that state's digest and key, the entry's provenance and the schema version |
| StateOrder.SortedRecords | scripts/docker_assurance_state.py:195-206 | rendering the sorted records is sorting the rendered records |
| StateOrder.RecordsSortExactly | scripts/docker_assurance_state.py:195-201 | the records can be sorted exactly when they are mappings and, if there are several, all ids are text or count as empty text, or all are numbers |
| StateOrder.NormalForm | scripts/docker_assurance_state.py:195-206 | `_normalize` sorts the records by id and the site ids, and changes nothing else |
| StateOrder.StatesAgree | scripts/docker_assurance_state.py:195-216 | two normal forms compare equal exactly when the states are the same up to the order of records and site ids |
| Session.EqualKinds | scripts/docker_assurance_state.py:473 | two forms are the same exactly when they are equal under `==` and have numbers of the same kind in the same places |
| Session.EqualExactly | scripts/docker_assurance_state.py:473 | the comparison is Python's equality: place by place, numbers by value whatever their kinds |
| Session.CompareStates | scripts/docker_assurance_state.py:466-476 | raises exactly when a digest cannot be taken or a state with another digest is no mapping; nothing is reported about equal digests; otherwise nothing exactly when all sections are `==`, and just the sections that are not |
| Session.ReverifyState | scripts/docker_assurance_state.py:479-499 | clean exactly when the derivation succeeded, is valid, a baseline is bound and the comparison finds nothing, and then the state is as `StateShape.ValidExactly` describes; the problems are those of each part; no cache takes part |
| Session.ComparedExactly | scripts/docker_assurance_state.py:466-499 | unless the two forms collide, the comparison finds nothing exactly when the states are the same up to order or every section is equal under `==` |
| Session.EstablishedBaseline | scripts/docker_assurance_state.py:446-463 | the bound copy is valid by itself, is its own copy and has the digest on record |
| Session.NothingChanged | scripts/docker_assurance_state.py:446-499 | finishing with the state that was established finds nothing |
| SessionLimits.SameExactly | scripts/docker_assurance_state.py:470-475 | states whose sections are all equal under `==` are the same up to order exactly when every number keeps its kind |
| SessionLimits.LostExactly | scripts/docker_assurance_state.py:466-476 | the comparison finds nothing exactly when the states are the same up to order, except exactly when all sections are `==` and a number changes its kind |
| SessionLimits.RunSession | scripts/docker_assurance_state.py:446-499 | establish, any writes to the cache, finish: the finish is clean exactly when the fresh state is valid and the same as the established one up to order, or masked by `==`; it raises exactly when validation does |
| SessionLimits.MaskedChange | scripts/docker_assurance_state.py:470-475 | from any valid state, rewriting the load-bearing count as a float gives a valid state with another digest about which the comparison finds nothing |
| EnvAliases.EnvironAliases | scripts/ci_env_dataflow.py:110-141 | the loop terminates with the least set of names closed under the assignments |
| EnvAliases.OrderIrrelevant | scripts/ci_env_dataflow.py:122-141 | the set depends neither on the order nor on the repetition of assignments |
| AliasForms.MentionsExactly | scripts/ci_env_dataflow.py:102-106 | an expression mentions the environment exactly when an access to it is a part of it, at any depth |
| AliasForms.DenotesExactly | scripts/ci_env_dataflow.py:73-107 | an expression is taken for the environment exactly when choices, `and`/`or` and the first argument of `dict` lead from it to an access, an alias, `os.environ.copy()` or a comprehension with an access somewhere in its iterables |
| EnvAliases.AliasesReached | scripts/ci_env_dataflow.py:73-141 | some execution makes every name in the set hold the environment |
| EnvAliases.AliasesExact | scripts/ci_env_dataflow.py:73-141 | every name that ever holds the environment is in the set exactly when no binding moves it out, by an unlisted form or in a place that is not collected |
| EnvAliases.ListedFormsSuffice | scripts/ci_env_dataflow.py:73-141 | with assignments only and with only the listed whole-map forms in them, whatever holds the environment in any execution is an alias |
| EnvAliases.CopyOfAliasMissed | scripts/ci_env_dataflow.py:96-99 | a copy of an alias holds the environment and is not in the set |
| EnvAliases.UnlistedMissed | scripts/ci_env_dataflow.py:85-107 | a name bound in any unlisted form may hold the environment and is not in the set |
| EnvAliases.SpreadMissed | scripts/ci_env_dataflow.py:85-107 | a display that spreads the environment is missed |
| EnvAliases.CallMissed | scripts/ci_env_dataflow.py:95-107 | so is a call that returns the environment and mentions it nowhere |
| EnvAliases.WalrusMissed | scripts/ci_env_dataflow.py:122-129 | so is a name bound by anything but an assignment |
| EnvAliases.UpdateMissed | scripts/ci_env_dataflow.py:122-129 | so is a dict filled in place |
| ImportClosure.Reader.EnvReads | scripts/ci_env_dataflow.py:144-190 | with any shared set, the call returns the direct reads of exactly the scripts it newly visited, all reachable from its own, and leaves no import of theirs unvisited |
| ImportClosure.Reader.ReadImports | scripts/ci_env_dataflow.py:179-189 | the same for the imports of one node |
| ImportClosure.ReadByExactly | scripts/ci_env_dataflow.py:162-178 | what the walk over the nodes of a script finds is what the script reads directly |
| ImportClosure.ReadsOfScript | scripts/ci_env_dataflow.py:144-190 | from a fresh set, exactly the direct reads of all existing, parseable scripts reachable through imports, a direct read being `getenv("v")`, or `b["v"]` or `b.get("v")` where `b` is an access to the environment, the name `environ` or a name in the least closed set |
| Availability.Model | scripts/ci_env_dataflow.py:235-268 | one row for each graded step, with the writes of earlier steps of its job carried to it |
| Availability.AvailableIsSet | scripts/ci_env_dataflow.py:235-268 | a variable is available in the row exactly when it is set for the step by a runner executing the job in order |
| Availability.Check | scripts/ci_env_dataflow.py:271-312 | a variable is reported as laundered exactly when it is ambient and produced, as too late or unknown exactly when a graded step consumes it before it is set and some step or none supplies it; so the report is clean exactly when every step finds what it consumes |
| Availability.WorkflowEnvValues | scripts/ci_harness.py:112-134 | for each id, the values the runner starts the last graded step with that id in; nothing for other ids |
| Availability.HarnessAgrees | scripts/ci_harness.py:112-134 | the harness gives a step what the model calls available, except what the step exports itself |
| Availability.Precedence | scripts/ci_harness.py:117-134 | a value comes from the step's own environment, else from the last earlier step that writes it, else from the job |
| Availability.CarriedLast | scripts/ci_harness.py:126-134 | the last step that writes a variable decides its carried value |
| DenyExhaustion.StripKeeps | scripts/deny_exhaustion.py:51-53 | a statement that goes by another name is kept |
| DenyExhaustion.StripRemoves | scripts/deny_exhaustion.py:51-53 | every statement that is kept goes by another name |
| DenyExhaustion.PositionNamesDistinct | scripts/deny_exhaustion.py:51-53 | nameless statements at different positions have different names |
| DenyExhaustion.DenySidsExactly | scripts/deny_exhaustion.py:56-63 | the names listed for a policy are those of its applicable Deny statements, each once and in order |
| DenyExhaustion.DefendersIn | scripts/deny_exhaustion.py:56-63 | the defenders are the names of the applicable Deny statements of the policies that can be evaluated |
| DenyExhaustion.DefendedIff | scripts/deny_exhaustion.py:56-63 | there is a defender exactly when some policy answers EXPLICIT_DENY |
| DenyExhaustion.RemovalProgress | scripts/deny_exhaustion.py:78-88 | a removal shortens some policy, or changes nothing because its name was stale |
| DenyExhaustion.RemoveNext | scripts/deny_exhaustion.py:78-91 | one turn: the list afterwards is what was left of it with all current defenders, and the measure decreases |
| DenyExhaustion.Exhaust | scripts/deny_exhaustion.py:66-108 | terminates; every entry has the number of defenders left after replaying the removals, only names that had been defenders are removed, those found first in the order in which they were found, only the last entry leaves none, no policy denies afterwards, and the verdict is decided by whether there was a defender |
| DenyExhaustion.Run | scripts/deny_exhaustion.py:111-133 | clean exactly when there are capabilities and each has an initial defender; the number failing is that of the capabilities without one |
| DenyExhaustion.NameGoesStale | scripts/deny_exhaustion.py:51-53 | removing one of two nameless statements renames the other |
| CanonicalSteps.Canonical | scripts/lifecycle_canonical.py:75-88 | the loops build the rows of the steps in sequence order |
| CanonicalSteps.CanonicalGraph | scripts/lifecycle_canonical.py:50-88 | the same for the semantic fields of the source |
| CanonicalSteps.SequenceIsSemantic | scripts/lifecycle_canonical.py:50-69 | the sequence number is a semantic field and commentary is not |
| CanonicalSteps.SemanticExactly | scripts/lifecycle_canonical.py:50-69 | the semantic fields are the fourteen that are not commentary |
| CanonicalSteps.RowAgrees | scripts/lifecycle_canonical.py:80-87 | two steps have the same row exactly when all their semantic fields mean the same |
| CanonicalSteps.FormIsBagOfRows | scripts/lifecycle_canonical.py:75-88 | for unique sequences, forms are equal exactly when the rows are the same in any order |
| CanonicalSteps.SameGraphSameForm | scripts/lifecycle_canonical.py:75-88 | reordering steps or dependencies, tuples for lists and other commentary leave the form unchanged |
| CanonicalSteps.SameFormSameGraph | scripts/lifecycle_canonical.py:75-88 | equal forms have for each step a counterpart with its number and the same semantic fields |
| CanonicalSteps.GraphExactly | scripts/lifecycle_canonical.py:50-88 | two graphs with unique sequence numbers have the same form exactly when they have as many steps and each has a counterpart with the same value of every field but commentary, dependencies in any order, other lists in order |
| CanonicalSteps.ChangeShows | scripts/lifecycle_canonical.py:50-88 | changing one of the fourteen fields of one step, beyond the order of what it depends on, changes the form |
| CanonicalSteps.CommentaryIgnored | scripts/lifecycle_canonical.py:69-87 | changing a field that is not semantic does not change what a step means |
| Arns.ParseRendered | scripts/arn_model.py:71-105 | rendering the components of a parsed name gives the name back, under every separator convention |
| Arns.RenderParsed | scripts/arn_model.py:71-105 | parsing a rendered tuple of well-formed components gives the tuple back |
| Arns.WellFormedExactly | scripts/arn_model.py:71-105 | the well-formed tuples are exactly those that parsing produces |
| Arns.ServicesExactly | scripts/arn_model.py:65-68 | the services without a type and those with a colon |
| Arns.DiffersFrom | scripts/arn_model.py:55-62 | the names listed are those of the components that differ, in order, so none exactly when the names are the same |
| Arns.Compare | scripts/arn_model.py:108-120 | MALFORMED exactly when a name does not parse, MATCH exactly when both are the same parseable name |
| ExecGrammar.BashReadIsGrammar | scripts/docker_boundary.py:694-698 | the recursive reading finds position k exactly when, redirections apart, the words before it are options, their names and possibly `--`, and the word is no redirection |
| ExecScan.FindsExactly | scripts/docker_boundary.py:698-723 | the reading of the loops ends at position k exactly when they look at it and pass every word they look at before it |
| ExecScan.OrdinaryFound | scripts/exec_transfer_oracle.py:80-121 | after flags, names for `-a`, redirections with a separate target and those ending in `&1` or `&2`, the loop finds the command that Bash runs |
| ExecScan.DashedFound | scripts/exec_transfer_oracle.py:90-93 | so it does when `--` precedes the command, whatever the command looks like |
| ExecScan.TakenForTarget | scripts/exec_transfer_oracle.py:94-98 | any other redirection that is complete in Bash, right before the command, makes the loop miss it |
| ExecScan.TakenForCommand | scripts/docker_boundary.py:705-711 | a redirection with a file name in its word is named instead of the command |
| ExecScan.CloseMissed | scripts/exec_transfer_oracle.py:94-98 | the words `3>&-`, `docker`, `run` make Bash run `docker`, and the loop ends at `run` |
| ExecScan.LogMissed | scripts/docker_boundary.py:705-711 | `exec >log docker run` runs `docker` and the loops end at `>log` |
| ExecScan.NameIsNotTheChild | scripts/docker_boundary.py:694-697 | the word after `-a` is not the command in Bash and is not found by the loops |
| ExecScan.CandidateChild | scripts/exec_transfer_oracle.py:80-121 | the first index loop terminates with the command of the reading, unquoted and classified, or with the reason there is none; it collects only option words |
| ExecScan.SkipToChild | scripts/docker_boundary.py:698-723 | the second index loop terminates at the command of the reading, or past the end exactly when there is none |
| ExecScan.LoopsAgree | scripts/docker_boundary.py:698-723 | given the same words both loops name the same word or neither names one, and that is the command Bash runs exactly when the loops find it |
| CommandWords.Tokenise | scripts/docker_boundary.py:639-674 | the loop cuts the line into the pieces of the specification: at separators and substitutions, honouring quotes |
| CommandPieces.PiecesExactly | scripts/docker_boundary.py:639-674 | what is reported about a line is reported about its longest stretches without a separator outside quotes and without the start of a substitution outside single quotes, all of them and in order |
| CommandPieces.WordsExactly | scripts/docker_boundary.py:683 | the words of a piece are its longest stretches without white space, all of them and in order |
| CommandPieces.PrefixExactly | scripts/docker_boundary.py:671-688 | what is skipped is the assignments and reserved words up to the first word that is neither |
| CommandPieces.StripQuotesExactly | scripts/docker_boundary.py:720-723 | what is left of a word is what stands between the quotes at its ends |
| CommandPieces.ReportExactly | scripts/docker_boundary.py:685-723 | what is reported about the words of a piece is the first one not skipped, without its quotes, or if that is `exec`, quoted or not, the command after it |
| CommandPieces.RedirectionExactly | scripts/docker_boundary.py:705 | a word is taken for a redirection exactly when it is digits, one of four operators, possibly `&`, and digits and minus signs |
| CommandPieces.SelfContainedExactly | scripts/docker_boundary.py:707 | it needs no further word exactly when it ends in `&1` or `&2` |
| CommandPieces.FlagsExactly | scripts/docker_boundary.py:716 | a word is taken for flags exactly when it is a minus sign and letters `c` and `l` |
| CommandPieces.ClassifyExactly | scripts/exec_transfer_oracle.py:116-121 | a command is unresolved exactly when it has a `$` among its first two characters or a backtick, and static exactly when it is spelled with the listed characters only |
| CommandWords.ReportOf | scripts/docker_boundary.py:676-723 | after assignments and keywords, the word reported is the first one, or the command the `exec` loop finds |
| CommandWords.CommandWords | scripts/docker_boundary.py:621-724 | the words reported about a line are those of its pieces, in order, comment apart |
| CommandWords.NamesExactly | scripts/docker_boundary.py:668-723 | the oracle names a word exactly when the loop finds it, the `exec` loop of `docker_boundary` exactly when besides no word up to it has a separator in it |
| CommandWords.ScannersAgree | scripts/docker_boundary.py:668-723 | about the command that Bash runs the two agree exactly when no word up to it has a separator, or both miss it |
| CommandWords.OracleScan | scripts/exec_transfer_oracle.py:80-121 | on a line of plain words the oracle gives the word that the reading of all of them ends at |
| CommandWords.DockerScan | scripts/docker_boundary.py:621-724 | on the same line `docker_boundary` reports what the pieces of the whole line give |
| CommandWords.FirstReport | scripts/docker_boundary.py:668-723 | that is first the command among the words up to the first separator, and then what the other pieces start with |
| CommandWords.DescriptorReported | scripts/docker_boundary.py:668-723 | after `exec 2>&1` and the like only what follows the `&` is reported, whatever the command |
| CommandWords.DuplicateDiffers | scripts/docker_boundary.py:668-707 | on `exec 2>&1 docker run`, which runs `docker`, the oracle names `docker` and `docker_boundary` reports `1` alone |
| CommandWords.CloseDiffers | scripts/docker_boundary.py:668-707 | on `exec 3>&- docker run`, which runs `docker`, the oracle names `run` and `docker_boundary` reports `-` alone |
| ExecScan.StripComment | scripts/docker_boundary.py:602-618 | the line up to its first comment outside quotes |
| ExecScan.StripInert | scripts/exec_transfer_oracle.py:51-77 | the same cut, with quotes and quoted text blanked and every other character in place |
| ExecScan.CutUnique | scripts/exec_transfer_oracle.py:51-77 | the cut is unique, so positions in one stripped line are positions in the other |

## Left out

Deliberately narrower than the source:

- AlwaysTrueSound: comparisons of an operand with itself are covered when the operand builds no object the comparison can tell apart; the converse is proved for literals, names, tuples, lists, lambdas and `object()` only.
- LiteralExact: `in` and comparisons are folded on constants only, and builtins on constants and displays, so a truthy `1 in (1, 2)` or `bool(not 0)` is not covered.
- AlwaysEvaluated: excludes assertions inside nested functions, because the code takes a function to be called as soon as its name occurs in a call (`GapUncalled`).
- SecureExactly: a test that is not folded can turn out either way, so one like `x == x` is not covered; `with` contexts may raise; a constant that cannot be iterated over is not an iterable; and no function is nested. `PassingRunEvaluates` has no such limits.
- NestedExactly: the function starts with the one helper, which defines none itself and is secure; runs in which something ends early are not covered.
- ScannersAgree: the words have no quotes and no `$(`, and a command reported for a piece after the first separator does not count as named by the `exec` loop.
- MetRequirementIsEvaluated: the assertion may be inside a nested function that is called from dead code only (`GapUncalled`), and excludes requirements met by a `pytest.raises` block alone, which name no assertion.
- SatisfiedContract: with the same two exceptions, for every requirement of a satisfied contract.
- ComparedExactly: the ids of records and sites are strings and no two keys of a dict have the same text, as in every derived state; other ids are sorted or refused by Python's own rules, which are modelled in `DockerState` but not compared here.
- LostExactly: the ids of records and sites are strings, as in every derived state.
- Compare: an argument that is not a string, which the source also reports as malformed, is not modelled.

Not modelled:

- Class bodies, `match`, starred elements, generator functions, several context managers in one `with`, assertion messages, and functions called through an attribute or another name.
- NaN, comparison methods with side effects, builtins that the module under analysis redefines, and the identity of computed constants (equal constants are taken to be the same object).
- The matching of classes and tokens to an assertion's text: each assertion carries them as sets. The number of `pytest.fail` calls and the `pytest.raises` blocks are inputs.
- The region and dominator texts, and the wording of all problems: problems are recorded by kind.
- File access, parsing of Python, JSON and YAML, git, subprocesses, clocks and process ids: parsed values, existing files, derivations and stamps are inputs.
- The regular expressions that find script names, `$GITHUB_ENV` writes and exports in shell text: each step carries what they find, and the two scripts are given the same writes.
- The policy evaluator itself, the probe resources and the text of the exhaustion report.
- The cached containers of `_suspend_caches` that are sets, and its import of modules that are not loaded.
- Sorting of unknown field names of mixed types in an error message, and sorting of site ids that are themselves lists, which Python may refuse: the first is recorded as the problem it reports, the second as a refusal.
- JSON and bytes of canonical forms: the digest is taken of the form.
- Names of variables outside ASCII in `NAME=value` prefixes, and how `exec_transfer_oracle` locates `exec` on a line.
- Everything in the two `exec` scripts that lists and compares call sites once they are found.
- The tables of builtins, predicate methods and assertion classes are transcribed; nothing is said about which names belong there.
- The discovery and classification of caches, the assertion meta-contract, and the other validators, which add only membership checks.
