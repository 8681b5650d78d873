# Forward chaining over a three-valued knowledge base

A Dafny model of the inference core of `ponens/models.py`. The repository keeps
a knowledge base in a relational store:

- **Predicates** are named facts with a display label.
- **Expressions** are ID (one predicate), AND, OR or NOT nodes. Their links to
  predicates and children are stored as ExpressionPredicate and
  ExpressionChild rows.
- **Rules** say `antecedent => consequent`.

A partial truth assignment maps predicate ids to booleans; a missing key means
unknown. Evaluating an expression gives True, False or unknown.

`entail` chains forward. In one pass it takes every predicate of the input,
every expression that mentions it, and every rule whose antecedent is that
expression or one of its ancestors. It evaluates each such rule against the
pass's input and writes True for every ID consequent whose antecedent is True.
It repeats on the combined result while a pass adds a new key.

The knowledge base is an immutable value (`Knowledge.KnowledgeBase`): the
labels, the operator of each expression, and the link, child and rule tables
in row order. The database allows cycles in the child relation; the model
takes a ghost rank map `h` as a witness that there is none (`Knowledge.Valid`).
Everything that raises in the source returns `Err` (expression operations) or
`None` (a pass, `entail`).

Files and modules:

- `wrappers.dfy` (`Wrappers`): `Option`, `Result`, and `Collect`, the
  "first failure wins" evaluation of a list comprehension.
- `truth.dfy` (`Truth`): the three values and the AND, OR and NOT branches
  of `Expression.evaluate`. They are related to Kleene's strong connectives.
- `knowledge.dfy` (`Knowledge`): the tables, and these table queries:
  - `children`, `parents`, `predicate`;
  - `Predicate.expressions`;
  - the `antecedent_rules` that is in effect.
- `ancestry.dfy` (`Ancestry`): `all_parents` and `all_antecedent_rules`. Each
  is proved exact against a path-based reference definition of "ancestor".
- `evaluation.dfy` (`Evaluation`): `Expression.evaluate` and `Rule.evaluate`,
  and what they promise.
- `entailment.dfy` (`Entailment`): one pass and `entail`, with these results:
  - termination;
  - success on well-formed inputs;
  - the characterisation of a pass;
  - in a well-formed knowledge base, from an all-True seed whose keys all
    name predicates, the result is the least closed extension of the seed.
- `pass_loop.dfy` (`PassLoop`): `entail` as the source writes it. The three
  nested loops become folds over the input's keys, their expressions and
  those expressions' rules, with the `found_new` flag. The order in which a
  pass visits its keys is a parameter. For every order, the folds are proved
  to compute the pass and the fixpoint of `Entailment`.
- `rendering.dfy` (`Rendering`): `Expression.__unicode__` and
  `Rule.__unicode__`. Renderings are balanced parenthesis groups, and a
  rendered rule splits back into its two sides.
- `examples.dfy`, `example_rendering.dfy`, `example_entailment.dfy`: the unit
  test's knowledge bases and its assertions, made exact. A third knowledge
  base shows what happens to a seed value of False.

Behaviour of `ponens/models.py` that the model keeps:

- **Rules see the pass's input.** A pass evaluates every rule against its
  input `truth_values` (models.py:191), not against the growing `combined`.
- **The result need not be closed.** A rule's True overwrites a seed False
  (models.py:192-195). That adds no key, so `entail` stops (models.py:197-204)
  even though a rule may now fire. See `ExampleEntailment.OverturnedSeed`.
- **Ancestors are a list.** `all_parents` and `all_antecedent_rules`
  (models.py:69-78, 137-141) return lists that may hold duplicates. Their
  contracts speak about membership.
- **NOT reads only its first child.** NOT looks at its first child and ignores
  the rest (models.py:124-129). The other children are still evaluated
  (models.py:103), so their failures propagate
  (`Evaluation.ChildFailurePropagates`).
- **No False facts are derived.** A consequent that is not an ID expression
  yields nothing (models.py:170-174), so `entail({god: True})` says nothing
  about "mortal" (`ExampleEntailment.GodEntail`).
- **Cycles end in an interpreter error.** `evaluate`, `__unicode__` and
  `all_parents` (models.py:62, 69-78, 103, 125) recurse through the
  ExpressionChild rows. On a cycle they raise RuntimeError once the
  interpreter's recursion limit is reached, and `entail` raises with them
  through `all_antecedent_rules`. The model excludes cyclic tables (rank
  witness `h`) rather than modelling that limit.
- **Unknown operators.** An operator string outside ID/AND/OR/NOT gives
  unknown (models.py:130-132). `Op.Other` holds only such strings
  (`Knowledge.OtherName`), so each stored string has exactly one `Op`.

## Model

| member | source | states |
|---|---|---|
| Wrappers.Collect | ponens/models.py:103 | evaluating a list of children succeeds exactly when every child does, yields their values in order, and otherwise fails with the first child's failure |
| Truth.Conjunction | ponens/models.py:104-112 | AND is False iff some operand is False; unknown iff none is False and one is unknown; True iff the list is non-empty and all are True; an empty list fails |
| Truth.ConjunctionIsKleene | ponens/models.py:104-112 | on a non-empty list the AND branch equals the left fold of Kleene's strong conjunction |
| Truth.Disjunction | ponens/models.py:113-123 | OR is True iff some operand is True; unknown iff none is True and one is unknown; False iff the list is non-empty and all are False; an empty list fails |
| Truth.DisjunctionIsKleene | ponens/models.py:113-123 | on a non-empty list the OR branch equals the left fold of Kleene's strong disjunction |
| Truth.Negation | ponens/models.py:124-129 | NOT is unknown exactly on unknown and flips a known value |
| Truth.NegationInvolutive | ponens/models.py:124-129 | NOT applied twice is the identity on all three values |
| Truth.DeMorgan | ponens/models.py:104-129 | on a non-empty operand list, OR of the negated operands is the negation of their AND |
| Truth.JunctionsMonotone | ponens/models.py:104-123 | a known AND or OR result is unchanged when unknown operands become known |
| Knowledge.ChildrenInMembers | ponens/models.py:53-55 | an expression's child list holds exactly the children of its ExpressionChild rows |
| Knowledge.ParentsInMembers | ponens/models.py:66-67 | an expression's parent list holds exactly the parents of the rows naming it as child |
| Knowledge.FirstPredicateFirst | ponens/models.py:49-51 | `predicate()` reads the first link row of the expression, and fails exactly when there is none |
| Knowledge.PredicateLinked | ponens/models.py:49-51 | the predicate of an expression fails iff no link row names it, and otherwise is a linked, existing predicate |
| Knowledge.ExpressionsInMembers | ponens/models.py:31-32 | `Predicate.expressions` holds exactly the expressions linked to the predicate |
| Knowledge.OperatorName | ponens/models.py:39-47 | the stored operator string is one of ID, AND, OR and NOT exactly when the operator is one of the four choices |
| Knowledge.OperatorNameDetermines | ponens/models.py:94-132 | two operators are stored as the same string exactly when they are equal, so the string tests choose one branch per operator |
| Knowledge.RulesWithAntecedentFromMembers | ponens/models.py:134-135 | the direct antecedent rules of `e` are exactly the rule rows whose antecedent is `e` |
| Ancestry.AboveRanked | ponens/models.py:69-78 | in a valid knowledge base an ancestor outranks what it contains, so no expression is its own ancestor and ancestry is never mutual |
| Ancestry.AllParentsSound | ponens/models.py:69-78 | everything `all_parents` lists is a strict ancestor along ExpressionChild edges |
| Ancestry.AllParentsComplete | ponens/models.py:69-78 | every strict ancestor along an upward path is listed |
| Ancestry.AllParentsExact | ponens/models.py:69-78 | `a` is in `all_parents(e)` iff `a` is a strict ancestor of `e` |
| Ancestry.AllAntecedentRulesSound | ponens/models.py:137-141 | every listed rule has `e` or an ancestor of `e` as antecedent |
| Ancestry.AllAntecedentRulesComplete | ponens/models.py:137-141 | every rule whose antecedent is `e` or an ancestor of `e` is listed |
| Ancestry.AllAntecedentRulesExact | ponens/models.py:137-141 | a rule is listed iff its antecedent is `e` or one of its ancestors |
| Evaluation.ChildFailurePropagates | ponens/models.py:103 | a non-ID expression, NOT and unknown operators included, evaluates its children in table order and fails with the error of its first failing child |
| Evaluation.EvaluateIdentity | ponens/models.py:94-100 | an ID expression yields the assignment's value for its predicate, unknown when the key is absent |
| Evaluation.EvaluateAnd | ponens/models.py:104-112 | with at least one child and children that evaluate, AND is False iff a child is False, unknown iff none is False and one is unknown, True iff all are True |
| Evaluation.EvaluateOr | ponens/models.py:113-123 | with at least one child and children that evaluate, OR is True iff a child is True, unknown iff none is True and one is unknown, False iff all are False |
| Evaluation.EvaluateNot | ponens/models.py:124-129 | with at least one child and children that evaluate, NOT is unknown when its first child is, and the negation of its first child otherwise |
| Evaluation.EvaluateNotWithoutChild | ponens/models.py:124-125 | a NOT without children fails for every assignment |
| Evaluation.EvaluateEmptyJunction | ponens/models.py:104-123 | an AND without children fails (empty `reduce`) and an OR without children fails (the assertion) |
| Evaluation.EvaluateOther | ponens/models.py:130-132 | an unknown operator yields unknown once its children evaluate |
| Evaluation.CombineFailsByArity | ponens/models.py:103-132 | whether an operator fails on its evaluated children depends only on their number |
| Evaluation.EvaluateErrorsAreStructural | ponens/models.py:89-132 | whether evaluation fails, and how, does not depend on the assignment |
| Evaluation.EvaluateWellFormed | ponens/models.py:89-132 | in a well-formed knowledge base evaluation never fails |
| Evaluation.EvaluateMonotone | ponens/models.py:89-132 | a known value stays the same when the assignment learns more keys |
| Evaluation.KnownNeedsFact | ponens/models.py:89-132 | a known value needs an ID expression at or below `e` whose predicate the assignment holds |
| Evaluation.EvaluateEmptyAssignment | ponens/models.py:92-93 | with no truth values (the default) an expression that evaluates is unknown |
| Evaluation.FireRule | ponens/models.py:162-178 | a rule returns `{p: True}` iff its antecedent is True and its consequent is the ID expression of `p`, an empty map otherwise, and fails iff the antecedent fails or a True antecedent meets an unlinked ID consequent |
| Entailment.FireRuleConclusion | ponens/models.py:169-171 | a key returned by a rule comes from a True antecedent and an ID consequent linked to an existing predicate, with value True |
| Entailment.FiredMembers | ponens/models.py:190-195 | a pass writes a key exactly when one of its candidate rules returns it |
| Entailment.CandidatesCover | ponens/models.py:187-190 | every rule whose antecedent has a known value under the input is among the pass's candidates |
| Entailment.Pass | ponens/models.py:184-195 | a pass fails iff a seed key names no predicate or a candidate rule fails; otherwise it keeps every seed key, keeps True values, and makes no new False |
| Entailment.PassValue | ponens/models.py:184-195 | a key is in the pass's result iff it is in the input or some candidate rule derives it, and it is True iff it was True or is derived |
| Entailment.PassDerives | ponens/models.py:184-195 | the same with "some rule of the knowledge base derives it" in place of "some candidate" |
| Entailment.PassIs | ponens/models.py:184-195 | in a well-formed base, a pass over a seed of existing predicates returns the assignment with exactly those keys and values |
| Entailment.DerivedInPass | ponens/models.py:190-195 | whatever a rule derives from the pass's input is True in the pass's result |
| Entailment.PassFixpointClosed | ponens/models.py:192-197 | when a pass returns its own input no rule can add anything to it |
| Entailment.PassShrinksUnassigned | ponens/models.py:197-200 | a pass that finds a new key leaves fewer predicates unassigned, which bounds the recursion |
| Entailment.MergeAbsorbed | ponens/models.py:199-200 | merging the recursion's result over `combined` gives the recursion's result, as it already has every key |
| Entailment.Entail | ponens/models.py:180-204 | when `entail` returns, it keeps every seed key, keeps True values, and makes no new False |
| Entailment.EntailStep | ponens/models.py:197-200 | `entail` returns the pass when it found no new key, and otherwise `entail` of the pass's result |
| Entailment.EntailStopsWithoutNewKey | ponens/models.py:197-204 | a pass that adds no key is `entail`'s result |
| Entailment.EntailEmptySeed | ponens/models.py:180-184 | `entail` of no truth values returns an empty assignment |
| Entailment.EntailSucceeds | ponens/models.py:186-200 | `entail` fails when a seed key names no predicate, and succeeds on a well-formed base with a seed of existing predicates |
| Entailment.EntailEndsAtFixpoint | ponens/models.py:197-202 | from an all-True seed the result is a fixpoint of a pass |
| Entailment.EntailClosed | ponens/models.py:180-204 | from an all-True seed the result is all True, extends the seed, and is closed under every rule |
| Entailment.EntailIdempotent | ponens/models.py:180-204 | from an all-True seed, `entail` of the result is the result |
| Entailment.PassInsideClosed | ponens/models.py:184-195 | every key a pass writes is present, with the same value, in every closed extension of its input |
| Entailment.EntailLeast | ponens/models.py:180-204 | every closed extension of the seed extends `entail`'s result |
| Entailment.EntailIsLeastClosed | ponens/models.py:180-204 | in a well-formed knowledge base, from an all-True seed whose keys all name predicates, an all-True closed extension contained in every closed extension is exactly `entail`'s result |
| Entailment.EntailNothingFires | ponens/models.py:180-204 | when the pass does not raise (every seed key names a predicate and every candidate rule evaluates) and no rule's antecedent is True under the seed, `entail` returns the seed unchanged |
| PassLoop.FireAll | ponens/models.py:190-195 | the innermost loop only adds keys to `combined`, and once `found_new` is set it stays set |
| PassLoop.FireExpressions | ponens/models.py:189-195 | the same for the loop over a predicate's expressions |
| PassLoop.FireKeys | ponens/models.py:187-195 | the same for the loop over the input's keys |
| PassLoop.RunPass | ponens/models.py:184-195 | a pass that returns keeps every key of its input |
| PassLoop.KeysInOrder | ponens/models.py:187 | the keys visited are exactly the keys of the input that the listing holds |
| PassLoop.FiredAdd | ponens/models.py:191-195 | the keys written after one more rule are the earlier ones plus that rule's result, and every value in the result is True |
| PassLoop.WriteStep | ponens/models.py:192-195 | `combined.update(results)` with True values writes True at the result's keys, and `found_new` afterwards says exactly that a key was added to the input |
| PassLoop.AbsorbRule | ponens/models.py:191-195 | one more rule that returns extends the pass's state by its result |
| PassLoop.FireAllRaises | ponens/models.py:190-191 | the innermost loop raises exactly when one of its rules raises under the pass's input |
| PassLoop.FireAllAbsorbs | ponens/models.py:190-195 | when the innermost loop returns, `combined` is the input with True at every key its rules returned, and `found_new` says a key was added |
| PassLoop.RulesBelowCons | ponens/models.py:189-190 | the rules reached from a list of expressions are those of its first expression and those of the rest |
| PassLoop.FireExpressionsRaises | ponens/models.py:189-191 | the loop over expressions raises exactly when a rule of some expression's `all_antecedent_rules` raises |
| PassLoop.FireExpressionsStep | ponens/models.py:189-195 | when the loop over expressions returns, its first expression's rules returned, and the loop carries on from the state they left |
| PassLoop.FireExpressionsAbsorbs | ponens/models.py:189-195 | when the loop over expressions returns, it has written the results of every rule below them |
| PassLoop.CandidatesCons | ponens/models.py:187-190 | the rules reached from a list of keys are those below the first key's expressions and those reached from the rest |
| PassLoop.FireKeysRaises | ponens/models.py:187-191 | the loop over keys raises exactly when a key names no predicate or a rule reached from the keys raises |
| PassLoop.FireKeysStep | ponens/models.py:187-195 | when the loop over keys returns, its first key names a predicate, the rules below it returned, and the loop carries on from the state they left |
| PassLoop.FireKeysAbsorbs | ponens/models.py:187-195 | when the loop over keys returns, it has written the results of every rule reached from them |
| PassLoop.RunPassRaises | ponens/models.py:184-195 | whatever the order of the keys, the pass as written raises exactly when the set-based pass does |
| PassLoop.AbsorbedAll | ponens/models.py:184-195 | once every rule reached from the input has been written, `combined` is the pass's result and `found_new` says a key was added |
| PassLoop.RunPassIsPass | ponens/models.py:184-195 | whatever the order of the keys, the pass as written computes the set-based pass, and `found_new` holds exactly when the pass added a key |
| PassLoop.RunPassInOrder | ponens/models.py:184-201 | a pass of `entail` as written computes the set-based pass; when it finds a new key, its result stays within the listing and leaves fewer predicates unassigned |
| PassLoop.ForwardChainIsEntail | ponens/models.py:180-204 | for every listing of the predicates, `entail` as written returns what `Entailment.Entail` returns, failure included |
| Rendering.RenderIdentity | ponens/models.py:58-59 | an ID expression renders as its predicate's label in parentheses |
| Rendering.RenderOperator | ponens/models.py:60-63 | any other expression renders as its operator, a space and its children's renderings joined by spaces, in parentheses |
| Rendering.RenderFailsOnlyWhereEvaluateFails | ponens/models.py:57-63 | rendering fails only where evaluation also fails, under every assignment |
| Rendering.RenderWellFormed | ponens/models.py:57-63 | in a well-formed base every expression renders |
| Rendering.RenderIsGroup | ponens/models.py:57-63 | with labels and unknown operator names free of parentheses, every rendering is one balanced parenthesised group |
| Rendering.SplitJoined | ponens/models.py:159-160 | for a balanced group `a` and any `c`, splitting `a => c` after its first group returns exactly `a` and `c` |
| Rendering.RuleRoundTrip | ponens/models.py:159-160 | splitting a rendered rule after its first balanced group and ` => ` gives back the renderings of the antecedent and the consequent |
| ExampleRendering.MortalityRendering | ponens/models.py:229-231 | the two mortality rules render as `(is Human) => (is Mortal)` and `(is a God) => (NOT (is Mortal))` |
| ExampleRendering.MortalityRenderingExample | ponens/models.py:229-231 | the same for the unit test's mortality knowledge base itself |
| ExampleRendering.ChainRendering | ponens/models.py:251 | the first conjunction rule renders as `(AND (a) (b)) => (c)` |
| ExampleRendering.ChainRenderingExample | ponens/models.py:251 | the same for the unit test's conjunction knowledge base itself |
| ExampleEntailment.MortalityEntail | ponens/models.py:233-234 | from "human" True, `entail` returns exactly "human" and "mortal" True |
| ExampleEntailment.MortalityExample | ponens/models.py:233-234 | the same for the unit test's mortality knowledge base itself |
| ExampleEntailment.GodDerivesNothing | ponens/models.py:162-178 | under "god" alone no rule returns a key: "human" is unknown, and the NOT consequent of the immortality rule yields nothing |
| ExampleEntailment.GodEntail | ponens/models.py:170-204 | from "god" True, `entail` returns the seed unchanged, with no value for "mortal" |
| ExampleEntailment.GodExample | ponens/models.py:170-204 | the same for the unit test's mortality knowledge base itself |
| ExampleEntailment.ChainEntail | ponens/models.py:253-284 | from a and b True, `entail` returns exactly a, b, c, d and e True |
| ExampleEntailment.ChainExample | ponens/models.py:281-284 | the same for the unit test's final conjunction knowledge base |
| ExampleEntailment.OverturnPass | ponens/models.py:187-195 | with rules b => a and a => d, a pass from a False and b True makes a True but does not fire a => d |
| ExampleEntailment.OverturnedSeed | ponens/models.py:184-200 | `entail` stops after that pass, and its result is not closed under the rules |
| ExampleEntailment.OverturnExample | ponens/models.py:184-200 | the same for a concrete knowledge base |

## Left out

- The Django ORM: queries become scans over immutable tables. `id_exp`, which
  creates rows, and the admin registration are not modelled.
- The first `antecedent_rules` (models.py:80-87) is not modelled. The second
  definition (models.py:134-135) replaces it when the class is built.
- The `print` statements are not modelled. They have no effect on results.
- Python exception types become `Err` values naming the failing expression, or
  `None` for a pass or `entail`. Which exception is raised is not
  distinguished.
- The order of `truth_values.keys()` is a parameter of `PassLoop`, not a
  particular dict order. Every value a pass writes is True, so the result does
  not depend on that order (`PassLoop.RunPassIsPass`,
  `PassLoop.ForwardChainIsEntail`). `Entailment` therefore treats the candidate
  rules as a set.
- PassLoop.ForwardChain: every pass visits its keys in the order of one fixed
  listing of predicate ids, while a dict may order each pass differently.
  `PassLoop.RunPassIsPass` holds for any order of a single pass, so the choice
  does not change what a pass computes.
- Cycles in ExpressionChild are not modelled. On them `evaluate`,
  `__unicode__`, `all_parents` and so `entail` raise RuntimeError once the
  interpreter's recursion limit is reached; the model excludes cyclic tables
  (rank witness `h`) rather than modelling that limit.
- Truth values other than booleans are not modelled. An assignment maps to
  `bool`, as the callers in the unit test pass.
- The `name` and `comment` fields of predicates and rules are not modelled.
  Only labels are rendered.
- Rendering goes through `str`, which the model treats as the identity on
  labels and operator names. No Unicode encoding is modelled.
- The unit test builds one growing database. The examples are separate
  knowledge bases, one per scenario, and the conjunction base holds all three
  of the test's conjunction rules, as at models.py:281-284.
- Rendering.RuleRoundTrip: holds only when labels and unknown operator names
  contain no parentheses (`PlainNames`). Otherwise a rendering need not split
  back.
- Entailment.EntailClosed: states closure only for all-True seeds. With a seed
  False that a rule overturns, the source's result need not be closed, as
  `ExampleEntailment.OverturnedSeed` shows.
