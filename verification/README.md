# Ergatai orchestration engine: verified model

Ergatai runs graphs of tasks on software agents. This project models the parts of it that decide
*what runs when*, and proves what those parts promise:

- **The condition language.** A condition is evaluated on its text: trim, strip one outer pair of
  parentheses, split at the first `||`, then `&&`, then a comparison. `Condition` is that evaluator
  together with the two scanning loops it uses; `ConditionGrammar` is an independent syntax tree with a meaning,
  and shows that every permitted way of writing a tree evaluates to its meaning; `ConditionTruth` says when a tree is true,
  from how its operands read, in nothing but `||`, `&&` and comparisons of values. `ConditionValues` has laws of
  the six comparison operators, `ConditionPanics` which texts make the evaluator panic; `ConditionRender`
  puts template rendering in front, and `ConditionContext` the data of a DAG run.
- **Templates and their data.** `Template` has the `{{name}}` renderer and the two scanners that list
  the names a text refers to; `ContextMap` is the data they read: variables, parameters and node
  outputs flattened into one map, compared with walking the JSON directly (`JsonLeaves`).
- **The task graph.** `Graphs` defines walks and reachability. `TaskGraphs` has the graph object with
  validation by depth-first search; `TaskRuns` the runs that a driver may take through it.
  `NameTranslation` and `DagYaml` build graphs from definitions that use names; `Mesh` decides which
  agents of a graph may talk to each other.
- **The scheduler.** `Scheduler` is the object with its queue, running list, semaphore, dedup set and
  queue file; every method is proved against a function on the abstract state. `SchedulerLaws` proves
  what single passes guarantee. In `SchedulerRuns` submissions and passes are split into steps that interleave,
  and it is stated exactly which steps keep the queue free of duplicates (`TaskBags`: tasks counted by id);
  `SchedulerCalls` puts the steps together to the methods again, `OrderlyRuns` gives conditions for safe runs
  and four runs that break them. `StrandedIds` says exactly when an id can not be submitted again,
  `PermitProtocol` that permits are conserved, and `AgentExclusivity` exactly when no agent has two tasks.
- **Structures that must agree with a simpler description.** `LegacyMessages` (replacing a conversation
  without losing what agents wrote), `ConfigReload` (hot reload by many threads), `Registry` (records
  with two secondary indices), `SnowflakeIds` and `TaskFiles` (ids, agent ids and result-file names).

`dafny verify dfyconfig.toml` checks everything.

## Conventions

Texts are sequences of Unicode scalar values, so positions count characters where the program counts
bytes; every position that is used lies next to an ASCII character, where the two agree. 64-bit limits are written
out (`ParseI64`, `ParseU64`, `Shl`, `IsI64`). Outcomes that the surroundings decide come in as parameters: whether
a plan file parses, an agent launches or a write succeeds, which ids are generated, what the clock says.
A hash map that is walked in no fixed order is walked in an arbitrary order here too. Lower-casing is
modelled on ASCII letters: no other letter lower-cases into any of the words that are compared.

## What the proofs found

- A group around a group, `((e))`, is never evaluated: exactly one pair is stripped, so it is false
  whatever `e` is (`DoubledParens`). `EvalGroup` states for all texts which groups mean their contents.
- An operand that is one lone quotation mark makes the evaluator panic, and for every text nothing else
  does (`ConditionPanics.EvalPanics`).
- `1 == 1.0` is false although `1 <= 1.0` and `1 >= 1.0` are both true, and `true == true` is true although
  neither `<=` nor `>=` holds. `EqualityAgrees` names exactly the pairs of values on which `==` and the order differ.
- A pending task that is not ready need not be waiting for a running, failed or skipped one: it may
  wait for one that is ready (`BlockedByReadyOnly`, `BlockedByHolder`). `BlockedExact` and `BlockedInRuns` say exactly
  when all blocked tasks do: each must have a dependency of its own that is neither completed nor ready. With nothing
  ready they always do (`StuckExplained`).
- `retry_failed` does not test that the node has failed, and `set_result` overwrites skipped nodes;
  `RetryKeepsOrder` and `ResultKeepsOrder` say exactly when such a call is harmless.
- Loading the queue file can queue a task twice or queue a running one. `SchedulerRuns.StepExact` and `RunExact` say
  exactly when: installing what was read is safe if and only if the queue is not empty, or it is distinct tasks that are in the
  dedup set and neither running, held by a pass nor being submitted; besides, a claim at the cap of the dedup set is unsafe, and so
  are ending an id that still waits and an attempt on a plan file that names another known task by now. Four runs in which a load is
  not safe: while a pass has drained the queue (`DrainWindowDuplicates`), after a pass whose save failed (`FailedSaveRequeues`), when
  the file was read before a pass and is installed behind it (`StaleReadRequeues`), and after a restart, because the dedup set is not
  filled from the file (`RestartDuplicates`). `OrderlyRunsAreSafe` gives conditions under which none can occur.
- An id can be left in the dedup set although nothing waits or runs under it; a task with it is then reported as
  accepted and dropped. `StrandedExactly` says when: after a launch error outside a pass, the cancellation of a queued
  task, or a start that stores no agent of the task, until the id is ended, reloaded, launched through another task's
  plan file or forgotten at the cap. `ResubmissionExact` and `DeliveredExact` say that no other idle id is dropped;
  `RedeliveryLost` is the case of a delivery that fails to launch: it is delivered again, acknowledged and lost.
  A cancelled task can also come back, through a load that had read the file before (`CancelledReturns`).
- An agent can get two tasks. `AgentExclusivity.StartExact` and `RunExact` say exactly when it does not: every store must add
  different agents that are all free at that moment. The scheduler checks the first agent of a plan only, so one
  uninterrupted call can break this (`SecondAgentUnchecked`), and it checks before it stores, so two
  calls can (`AgentTakenTwice`). Permits are conserved regardless.
- If two live agents carry the same external id, then removing one, or giving it another id, takes the index entry away from the
  other (`CollisionHidesSurvivor`). `Registry.StepExact` and `RunExact` say exactly which operations keep some agent findable under every
  id that is carried; while two carry it, only one of them is. `FoundExact` and `FoundRunExact` say exactly when each agent is found.
- A node called `global` or `param` can take keys of variables and parameters, and always wins, because outputs are inserted last
  (`NodeWins`). `CollisionExact` says exactly when two leaves share a key, `VariableVisible` and `ParameterVisible` what is hidden,
  and `LookupExact` what the map has under any name at all.
- An unclosed `{{` in one operand can pair with a `}}` in a later one. `RenderExact` says exactly when a condition is rendered operand by
  operand: when no reference that the scanner finds in its text holds an operator or a parenthesis.

## Model

| member | source | states |
|---|---|---|
| Condition.FindOperator | crates/ergatai-dag/src/condition.rs:81-98 | the result is the first position outside all parentheses where the operator starts, and there is none exactly when no such position exists |
| Condition.FindOperatorScan | crates/ergatai-dag/src/condition.rs:81-98 | the scan with a running depth counter finds that position |
| Condition.StripOuterParensScan | crates/ergatai-dag/src/condition.rs:164-191 | the walk strips the outer pair exactly when one pair encloses the whole text |
| ConditionGrammar.EvalPrint | crates/ergatai-dag/src/condition.rs:45-98 | for every expression tree and every printing of it with the parentheses precedence requires and at most one pair per subexpression, evaluation gives the tree's meaning |
| ConditionGrammar.EvalCore | crates/ergatai-dag/src/condition.rs:53-77 | the same for the text inside the optional pair |
| ConditionGrammar.OrChain | crates/ergatai-dag/src/condition.rs:53-58 | a printed tree followed by the or-operator and any text evaluates to the disjunction of both, however the tree is nested |
| ConditionGrammar.AndChain | crates/ergatai-dag/src/condition.rs:60-65 | likewise for the and-operator and conjunction |
| ConditionGrammar.EvalOr | crates/ergatai-dag/src/condition.rs:53-58 | balanced text without a top-level bar, the or-operator, anything: true exactly when one of the two sides is, and a panic if one side panics |
| ConditionGrammar.EvalAnd | crates/ergatai-dag/src/condition.rs:60-65 | two sides without a top-level bar, the left without ampersand, joined by the and-operator: true exactly when both sides are, and a panic if one side panics |
| ConditionGrammar.EvalCmp | crates/ergatai-dag/src/condition.rs:67-74 | operands free of operator characters around any of the six operators are compared by exactly that operator, although `<` is a prefix of `<=` |
| ConditionGrammar.EvalLit | crates/ergatai-dag/src/condition.rs:76-77 | text without operators and parentheses is a boolean literal |
| ConditionGrammar.EvalGroup | crates/ergatai-dag/src/condition.rs:48-51 | a group of balanced text means its contents, unless the trimmed contents are themselves one group: then it is false |
| ConditionGrammar.DoubledParens | crates/ergatai-dag/src/condition.rs:160-191 | doubled parentheses are false for every balanced text |
| ConditionGrammar.EvalBodyPadded | crates/ergatai-dag/src/condition.rs:53-77 | white space around a text never changes its value, also behind the stripped pair where nothing is trimmed |
| ConditionGrammar.OperatorAfter | crates/ergatai-dag/src/condition.rs:81-98 | the operator right after a balanced text without its first character is the one that is found |
| ConditionGrammar.PrintBalanced | crates/ergatai-dag/src/condition.rs:164-191 | every printing is balanced and exposes at depth 0 only the operators of its bare nodes |
| ConditionGrammar.EvalPanics | crates/ergatai-dag/src/condition.rs:123-129 | evaluating a printed tree panics exactly when a comparison operand, trimmed, is one quotation mark |
| ConditionTruth.EvalTruth | crates/ergatai-dag/src/condition.rs:45-98 | for every tree and every such printing, evaluation says whether the tree is true: a disjunction when a side is, a conjunction when both are, a comparison when the values that its operands read as stand in that relation, a literal when it is `true`, `yes` or `1` in any letter case and padding; it panics exactly if an operand cannot be read |
| ConditionTruth.ReadExact | crates/ergatai-dag/src/condition.rs:123-149 | an operand reads, padding aside, as exactly one value: a text in quotes, an integer that fits in 64 bits, a float, one of four keywords in any letter case, or the text itself |
| ConditionTruth.NoReading | crates/ergatai-dag/src/condition.rs:126-129 | an operand has no reading exactly when it is one quotation mark between white space |
| Text.WhiteSpaceExact | crates/ergatai-dag/src/condition.rs:46 | white space, which is trimmed, is the 25 code points of the Unicode property |
| ConditionTruth.ComparisonExact | crates/ergatai-dag/src/condition.rs:101-121 | each of the six operators is decided by the values: integers as integers, texts in lexicographic order, floats and mixed numbers as floats, booleans and nulls only for equality |
| ConditionPanics.EvalPanics | crates/ergatai-dag/src/condition.rs:45-129 | evaluating any text panics exactly when some comparison it comes down to has, trimmed, one quotation mark as an operand |
| ConditionPanics.OperandsFrom | crates/ergatai-dag/src/condition.rs:45-74 | every operand of these comparisons consists of characters of the text |
| ConditionPanics.NoQuoteNoPanic | crates/ergatai-dag/src/condition.rs:45-129 | a text without quotation marks never panics |
| ConditionValues.CompareStringsIsLex | crates/ergatai-dag/src/condition.rs:200 | comparing character by character decides the lexicographic order, in all three outcomes |
| ConditionValues.IntegersCompare | crates/ergatai-dag/src/condition.rs:101-134 | operands that read as 64-bit integers are compared as integers by each of the six operators |
| ConditionValues.QuotedCompare | crates/ergatai-dag/src/condition.rs:126-129 | quoted operands are compared as texts by each of the six operators, whatever is inside and whichever quotes are used |
| ConditionValues.EqualityAgrees | crates/ergatai-dag/src/condition.rs:101-119 | `==` says the same as `<=` and `>=` together if and only if the values are not two equal booleans, two nulls, or an integer and a float of equal size |
| ConditionValues.OneIsNotOnePointZero | crates/ergatai-dag/src/condition.rs:132-137 | the texts `1` and `1.0` are unequal and neither is smaller |
| ConditionRender.RenderPrint | crates/ergatai-dag/src/condition.rs:28-34 | rendering a printed condition is printing it with every leaf rendered, if no leaf has an open brace pair that is closed further on |
| ConditionRender.RenderExact | crates/ergatai-dag/src/condition.rs:28-34 | this holds for every context if and only if no reference in the text holds an operator or a parenthesis |
| ConditionRender.EvaluateRendered | crates/ergatai-dag/src/condition.rs:28-34 | rendering and evaluating then gives the meaning with the values in the leaves, whenever the rendered leaves are free of operators and parentheses |
| ConditionRender.EvaluateCommutes | crates/ergatai-dag/src/condition.rs:28-34 | the same from a check that can be made beforehand: clean leaves, clean references, and clean values under the names they refer to |
| ConditionContext.RenderOperand | crates/ergatai-dag/src/context.rs:247-250 | an operand of any number of texts and references renders to its texts with what the context has under each name; a name without a value stays |
| ConditionContext.EvaluateIn | crates/ergatai-dag/src/condition.rs:28-34 | evaluating against a context flattens it, renders and evaluates; the outcome does not depend on the order of the walk |
| ConditionContext.EvaluateGuard | crates/ergatai-dag/src/condition.rs:28-34 | a condition over a context, with any number of references in its operands and reserved node names allowed, evaluates to the meaning of its tree with the context's values in the leaves, when these are free of operators and parentheses |
| ConditionContext.GuardTruth | crates/ergatai-dag/src/condition.rs:28-34 | so it evaluates to whether that tree is true |
| ConditionContext.RenderOutput | crates/ergatai-dag/src/context.rs:280-312 | a reference to a value in the output of a node renders to a text without quotes, to `true`, `false` or `null`, to an integer in decimal or to an array as JSON |
| ConditionContext.BooleanGuard | crates/ergatai-dag/src/condition.rs:28-34 | a condition that is one reference to a boolean output has the value of that boolean |
| ConditionContext.IntegerGuard | crates/ergatai-dag/src/condition.rs:28-34 | a condition that compares an integer output with an integer by any of the six operators compares these integers |
| Template.RenderTemplate | crates/ergatai-dag/src/template.rs:18-56 | the rendering loop computes the block-wise rendering of the parsed template |
| Template.ExtractReferences | crates/ergatai-dag/src/template.rs:61-81 | the scanner returns the trimmed non-empty names of all blocks, first occurrences in order |
| Template.ExtractTemplateVars | crates/ergatai-dag/src/yaml_parser.rs:218-236 | the other scanner returns the first dotted segments of all blocks, first occurrences in order |
| Template.ScannersAgree | crates/ergatai-dag/src/yaml_parser.rs:218-236 | what the second scanner returns is the order-preserving dedup of the first segments of what the first one returns |
| Template.CloseFromOpen | crates/ergatai-dag/src/yaml_parser.rs:222-230 | searching the closing braces from the opening ones finds the same pair as searching behind them |
| Template.SourceOfParse | crates/ergatai-dag/src/template.rs:22-51 | cutting a template at its blocks loses nothing |
| Template.RenderDependsOnReferences | crates/ergatai-dag/src/template.rs:18-81 | contexts that agree on the extracted references render alike |
| Template.RenderUnbound | crates/ergatai-dag/src/template.rs:18-56 | with no reference bound, the template is returned unchanged exactly when no name is padded |
| Template.RenderReference | crates/ergatai-dag/src/template.rs:28-44 | a bound, possibly padded reference becomes its value; an unbound one keeps its braces and loses its padding |
| Template.ParseConcat | crates/ergatai-dag/src/template.rs:22-51 | blocks of a concatenation are those of the parts, if no brace pair arises at the seam and the first part closes its blocks |
| Template.RenderConcat | crates/ergatai-dag/src/template.rs:18-56 | rendering such a concatenation is concatenating the renderings |
| JsonLeaves.FlattenJsonValue | crates/ergatai-dag/src/context.rs:280-312 | the recursive insertion into the map computes the flattening |
| JsonLeaves.FlattenInserts | crates/ergatai-dag/src/context.rs:280-312 | flattening under a path inserts one entry per leaf below it, under the leaf's dotted name |
| JsonLeaves.LeavesExact | crates/ergatai-dag/src/context.rs:280-312 | the leaves below a value are exactly the paths that traversal follows to a non-object, with its text |
| ContextMap.DagContext.RecordOutput | crates/ergatai-dag/src/context.rs:91-95 | replaces one node's output and nothing else |
| ContextMap.DagContext.MergeOutput | crates/ergatai-dag/src/context.rs:125-224 | overwriting and the reducer replace; appending yields one array with the old items before the new ones; maximum and minimum keep the old value unless both are numbers and the new one is better; nothing else changes |
| ContextMap.AppendsCollect | crates/ergatai-dag/src/context.rs:138-170 | a series of appended outputs leaves all their items in order behind what was there |
| ContextMap.ExtremeStays | crates/ergatai-dag/src/context.rs:173-214 | over any series of maximum or minimum merges the outcome is one of the outputs and beats every number among them, unless the first is no number: then it stays for good |
| ContextMap.DagContext.BuildContextMap | crates/ergatai-dag/src/context.rs:256-277 | the map has the keys of all leaves, and under each the text of a leaf from the last source that has the key: outputs before parameters before variables, collisions included |
| ContextMap.DagContext.RenderTemplate | crates/ergatai-dag/src/context.rs:247-250 | the text rendered is the same for every order within the three maps, reserved node names or not, when names are dot-free |
| ContextMap.KeyInjective | crates/ergatai-dag/src/context.rs:256-293 | different stored paths have different dotted names |
| ContextMap.NoCollisions | crates/ergatai-dag/src/context.rs:256-312 | when no node has a reserved name, two leaves with one key are the same leaf of the same source |
| ContextMap.CollisionExact | crates/ergatai-dag/src/context.rs:256-312 | with dot-free names two different leaves share a key if and only if some variable's name, split at its dots, is a leaf path of a node called `global`, or a leaf path of a parameter is one of a node called `param` |
| ContextMap.LastSourceWins | crates/ergatai-dag/src/context.rs:261-274 | under each key the map has the text of the last source's leaf |
| ContextMap.NodeWins | crates/ergatai-dag/src/context.rs:271-274 | the leaves of nodes are in the map whatever variables and parameters there are |
| ContextMap.NodeValueShows | crates/ergatai-dag/src/context.rs:271-312 | a value that traversal finds in the output of a node is in the map under its dotted name, as a text, word, number or JSON array |
| ContextMap.LookupExact | crates/ergatai-dag/src/context.rs:256-312 | under every name, spelled in whatever way and reserved names included, the map has exactly what the last source has: a node output or parameter along the dotted segments, or the variable with the rest of the name |
| ContextMap.VariableVisible | crates/ergatai-dag/src/context.rs:261-274 | a variable's key holds its own text exactly when no node called `global` has a leaf where its name leads, else that leaf's |
| ContextMap.ParameterVisible | crates/ergatai-dag/src/context.rs:261-274 | a leaf of a parameter is in the map with its own text exactly when no node called `param` has a leaf there, else with that one's |
| ContextMap.LookupIsTraversal | crates/ergatai-dag/src/context.rs:256-312 | looking up a dotted name equals walking the variables, parameters or node outputs along its segments; both fail together |
| ContextMap.KeysAreLeafPaths | crates/ergatai-dag/src/context.rs:256-312 | the keys of the map are exactly the dotted names of leaf paths |
| ContextMap.ContextUnique | crates/ergatai-dag/src/context.rs:256-277 | with dot-free names the map does not depend on the order within the sources, reserved names or not |
| ContextMap.RenderName | crates/ergatai-dag/src/context.rs:239-250 | a reference to a name renders to what the last source has under it, and stays as it is when none has anything |
| TaskGraphs.TaskGraph.UpdateStatus | crates/ergatai-dag/src/dag_topology.rs:356-362 | changes the status of the first node with the id and nothing else; fails exactly when there is none |
| TaskGraphs.TaskGraph.SetResult | crates/ergatai-dag/src/dag_topology.rs:365-378 | completes the node with its result unless it is failed or completed |
| TaskGraphs.TaskGraph.RetryFailed | crates/ergatai-dag/src/dag_topology.rs:381-393 | sends the node back to pending and counts, exactly while retries are left |
| TaskGraphs.TaskGraph.DfsCycle | crates/ergatai-dag/src/dag_topology.rs:473-496 | one visit finds a real cycle, or leaves finished nodes closed under dependencies and free of cycles; it terminates although visited nodes are entered again |
| TaskGraphs.TaskGraph.HasCycle | crates/ergatai-dag/src/dag_topology.rs:456-466 | true exactly when some node reaches itself by a non-empty dependency path |
| TaskGraphs.TaskGraph.Validate | crates/ergatai-dag/src/dag_topology.rs:419-453 | succeeds exactly when ids are unique, dependencies exist and no node reaches itself; reports the first failing of these |
| TaskGraphs.ReadyUpToMember | crates/ergatai-dag/src/dag_topology.rs:321-334 | the ready tasks are exactly the pending nodes whose dependencies are all completed |
| TaskRuns.StepKeepsInv | crates/ergatai-dag/src/dag_topology.rs:321-393 | every driver step, late results included, keeps a valid graph, budgets, and completed dependencies of everything ever started |
| TaskRuns.StepOutcome | crates/ergatai-dag/src/dag_topology.rs:355-393 | what each driver step does to its node and to no other: start, finish with a path, fail, retry, skip, and a late result that a failed or completed node ignores |
| TaskRuns.DependenciesFirst | crates/ergatai-dag/src/dag_topology.rs:321-393 | in every reachable state all transitive dependencies of a running or completed node are completed |
| TaskRuns.StartsBounded | crates/ergatai-dag/src/dag_topology.rs:381-393 | no run starts a node more than max_retries + 1 times |
| TaskRuns.RunsAreShort | crates/ergatai-dag/src/dag_topology.rs:356-393 | a run changes state at most 3 * max_retries + 2 times per node, summed over the nodes |
| TaskRuns.ResultKeepsOrder | crates/ergatai-dag/src/dag_topology.rs:365-378 | a result keeps the order of completion if and only if it is ignored or all dependencies are completed |
| TaskRuns.RetryKeepsOrder | crates/ergatai-dag/src/dag_topology.rs:381-393 | a retry keeps it if and only if it is refused, the node is not completed, or no running or completed node depends on it |
| TaskRuns.BlockedByHolder | crates/ergatai-dag/src/dag_topology.rs:321-334 | a pending node that is not ready has a dependency path to a running, failed, skipped or ready node |
| TaskRuns.BlockedByReadyOnly | crates/ergatai-dag/src/dag_topology.rs:321-334 | two fresh tasks in a row: the second is blocked although nothing runs, has failed or was skipped |
| TaskRuns.BlockedExact | crates/ergatai-dag/src/dag_topology.rs:321-334 | in a graph whose started nodes have completed dependencies, every blocked node waits for a running, failed or skipped one if and only if every blocked node has a dependency of its own that is neither completed nor ready |
| TaskRuns.BlockedInRuns | crates/ergatai-dag/src/dag_topology.rs:321-393 | this is so in every reachable state |
| TaskRuns.StuckExplained | crates/ergatai-dag/src/dag_topology.rs:321-334 | when nothing is ready, every pending node has a dependency path to a running, failed or skipped node |
| TaskRuns.ReadyUntilComplete | crates/ergatai-dag/src/dag_topology.rs:321-416 | with nothing running, failed or skipped, some task is ready until the graph is complete |
| TaskRuns.CompleteIsQuiet | crates/ergatai-dag/src/dag_topology.rs:409-417 | a graph is complete exactly when no node can be finished, failed or skipped any more |
| TaskRuns.GreedyIsTopological | crates/ergatai-dag/src/dag_topology.rs:321-378 | executing ready tasks in any order executes each once and after its dependencies, and completes exactly those |
| TaskRuns.GreedyCompletes | crates/ergatai-dag/src/dag_topology.rs:321-416 | from a fresh valid graph, executing until nothing is ready completes every node in topological order |
| TaskRuns.GreedyOrderExists | crates/ergatai-dag/src/dag_topology.rs:321-416 | every valid graph can be executed to completion this way |
| NameTranslation.Translate | crates/ergatai-dag/src/yaml_parser.rs:437-480 | the two passes over a map from names to ids yield the translated nodes |
| NameTranslation.EdgesForward | crates/ergatai-dag/src/yaml_parser.rs:471-480 | every dependency between names is one between their ids |
| NameTranslation.EdgesBack | crates/ergatai-dag/src/yaml_parser.rs:471-480 | every dependency between ids is one between the names behind them |
| NameTranslation.ReachabilityPreserved | crates/ergatai-dag/src/yaml_parser.rs:437-480 | one id reaches another exactly when its name reaches the other's |
| NameTranslation.ValidIffAcyclicNames | crates/ergatai-dag/src/yaml_parser.rs:437-554 | the translated graph validates exactly when the name graph is acyclic |
| DagYaml.CheckNames | crates/ergatai-dag/src/yaml_parser.rs:326-341 | passes exactly when every name is non-blank and no two are equal |
| DagYaml.CheckTemplate | crates/ergatai-dag/src/yaml_parser.rs:253-266 | passes exactly when all variables of the template are declared; otherwise names one that is not |
| DagYaml.CheckTemplates | crates/ergatai-dag/src/yaml_parser.rs:242-269 | the same for the input and condition of all tasks, skipped when nothing is declared |
| DagYaml.CheckReferences | crates/ergatai-dag/src/yaml_parser.rs:396-435 | passes exactly when dependencies, parents and routing targets are task names; otherwise names one that is not |
| DagYaml.CheckDefinition | crates/ergatai-dag/src/yaml_parser.rs:309-435 | the checks in their order pass exactly for acceptable definitions |
| DagYaml.AcceptableExact | crates/ergatai-dag/src/yaml_parser.rs:154-435 | what acceptable means, field by field: at most 1000 tasks with different non-blank names, communication and priorities absent, blank or written like one of the allowed forms, no zero timeout, known references, declared variables |
| DagYaml.ParseDagYaml | crates/ergatai-dag/src/yaml_parser.rs:309-557 | with distinct generated ids a definition is accepted exactly when the checks pass and the name graph is acyclic; the result is the translated, valid graph |
| DagYaml.ParsedReachability | crates/ergatai-dag/src/yaml_parser.rs:437-480 | in an accepted graph one task waits for another exactly when the definition says so |
| DagYaml.ParsedDependencies | crates/ergatai-dag/src/yaml_parser.rs:463-500 | a node depends on the images of the listed names, in order, and of the parent once if it is not listed; it is pending, for the agent of its task, with the retries that the task asks for or none |
| DagYaml.FormattedIdsDistinct | crates/ergatai-dag/src/yaml_parser.rs:438-441 | formatted task ids of different raw ids are different, as the translation needs |
| DagYaml.ToTaskGraph | crates/ergatai-collab/src/task_coordinator.rs:361-418 | a plan's graph is the translation of its assignments by agent name, unknown names left as they are |
| DagYaml.PlanGraphValid | crates/ergatai-collab/src/task_coordinator.rs:361-418 | with distinct agents and known names it is valid exactly when the names are acyclic |
| Mesh.ComputeAdjacency | crates/ergatai-collab/src/collaboration.rs:146-160 | the pairs are exactly the different agents owning two nodes joined by an edge in either direction |
| Mesh.ComputeRestrictedPairs | crates/ergatai-collab/src/collaboration.rs:164-178 | the pairs are exactly the listed ones and their swaps, and none for other policies |
| Mesh.FromGraph | crates/ergatai-collab/src/collaboration.rs:130-142 | a session's participants and pair sets are those of its graph and policy |
| Mesh.AllowsIsPermitted | crates/ergatai-collab/src/collaboration.rs:181-199 | the lookup answers what the policy says about the raw graph, and is symmetric for every policy |
| Mesh.LinkedIsEdge | crates/ergatai-collab/src/collaboration.rs:146-160 | with unique ids, agents are linked exactly when an edge of the dependency graph joins nodes of theirs |
| Mesh.AdjacentByNames | crates/ergatai-collab/src/collaboration.rs:146-199 | in the session of an accepted definition, two different agents may talk exactly when a task of one lists a task of the other as dependency or parent |
| Mesh.AcceptedPolicyParses | crates/ergatai-dag/src/yaml_parser.rs:154-193 | a non-blank policy is accepted exactly when the mesh parser accepts it and any hub is a task's agent; the stored text parses to the same policy |
| Mesh.ParsePolicyExact | crates/ergatai-collab/src/collaboration.rs:46-69 | a text parses as open or adjacent exactly if it is that word in any letter case and padding, as a star exactly if it is `star:` and a hub name, and not at all otherwise |
| Mesh.CommunicationAllows | crates/ergatai-collab/src/dag_scheduler/lifecycle.rs:84-99 | from the text of an accepted definition to its session: without one, or with `open`, any two participants may talk; with `adjacent` exactly different agents of which one lists a task of the other; with a star exactly pairs with the hub, which is the agent of a task |
| TaskFiles.ParseMakeAgentId | crates/ergatai-collab/src/agent_launcher.rs:524-531 | parsing an agent id gives back the task id and agent name for every valid task id |
| TaskFiles.ComponentExact | crates/ergatai-collab/src/task_coordinator.rs:30-51 | a name is safe exactly when it is not empty and contains neither two dots in a row nor a separator, colon, bar, star or question mark |
| Scheduler.TaskScheduler.constructor | crates/ergatai-collab/src/task_scheduler.rs:136-158 | a limit of 0 means 8; everything else starts empty with all permits free |
| Scheduler.TaskScheduler.LoadFromDisk | crates/ergatai-collab/src/task_scheduler.rs:209-271 | fills the queue only if it is empty, with the tasks of the versioned or the older format, with none for a newer version; fails without effect on an unreadable file; leaves the dedup set alone |
| Scheduler.TaskScheduler.TryInsertSeen | crates/ergatai-collab/src/task_scheduler.rs:169-181 | reports whether the id is new, forgetting all ids first when the cap is reached |
| Scheduler.TaskScheduler.CheckAgentAvailability | crates/ergatai-collab/src/task_scheduler.rs:466-481 | busy exactly when some running entry has the agent's name |
| Scheduler.StoredArePlanEntries | crates/ergatai-collab/src/task_scheduler.rs:435-459 | parsing the launched ids back and storing them yields one entry per agent of the plan, the first with the permit |
| Scheduler.TaskScheduler.TrySchedule | crates/ergatai-collab/src/task_scheduler.rs:374-463 | makes the stated decision, and every way out but a stored launch puts the permit back |
| Scheduler.TaskScheduler.SubmitTask | crates/ergatai-collab/src/task_scheduler.rs:302-362 | the new state and the reported outcome of a submission: unreadable queue file, plan that does not parse, duplicate, launch, queueing, errors |
| Scheduler.TaskScheduler.HandleNatsTask | crates/ergatai-collab/src/task_scheduler.rs:864-874 | the same for a delivered task, which loads nothing from disk |
| Scheduler.TaskScheduler.ProcessPending | crates/ergatai-collab/src/task_scheduler.rs:484-541 | the new state of a pass, how many tasks it started, and that permits still add up |
| Scheduler.TaskScheduler.CancelTask | crates/ergatai-collab/src/task_scheduler.rs:554-566 | removes exactly the queued tasks with the id, and saves only then |
| Scheduler.TaskScheduler.MarkCompleted | crates/ergatai-collab/src/task_scheduler.rs:569-585 | drops the task's entries, releases the permits they hold, frees the id |
| Scheduler.TaskScheduler.CancelRunningTask | crates/ergatai-collab/src/task_scheduler.rs:590-636 | the same, and reports whether anything was running under the id |
| SchedulerLaws.SortLaws | crates/ergatai-collab/src/task_scheduler.rs:493-497 | sorting the queue permutes it and leaves no task behind a later one |
| SchedulerLaws.SortKeepsOrder | crates/ergatai-collab/src/task_scheduler.rs:493-497 | sorting is stable: a task that was queued earlier stays in front of a later one that has no higher priority and, with the same priority, no earlier time |
| SchedulerLaws.PassConserves | crates/ergatai-collab/src/task_scheduler.rs:484-541 | the old queue is the started tasks together with the remaining ones, and these are sorted by priority descending, then time |
| SchedulerLaws.OvertakenWhenBusy | crates/ergatai-collab/src/task_scheduler.rs:374-418 | waiting strategies: a task overtaken without an error of its own found its agent busy, never a lack of permits, and the overtaking task is for another agent |
| SchedulerLaws.ParallelStartsPrefix | crates/ergatai-collab/src/task_scheduler.rs:404-414 | parallel strategy: only an error of its own lets a later task start before an earlier one |
| SchedulerLaws.SubmissionPlaced | crates/ergatai-collab/src/task_scheduler.rs:302-362 | a new task is launched with one permit, or queued last with its plan file, agent, time and priority and saved; otherwise only its id in the dedup set is left, and success is reported only for a plan without agents |
| SchedulerLaws.SubmissionOutcome | crates/ergatai-collab/src/task_scheduler.rs:302-463 | which of these happens, exactly: queued without a permit or with the first agent busy under a waiting strategy, else launched if the names are safe and the agents start, with one entry per agent of which the first has the permit; and what is reported |
| SchedulerLaws.SubmissionOrder | crates/ergatai-collab/src/task_scheduler.rs:341-497 | of two submissions that are queued, the one with the higher priority stands in front in the order of the next pass, of equal ones the earlier, and with equal times the one that came first |
| SchedulerLaws.CancelKeepsOrder | crates/ergatai-collab/src/task_scheduler.rs:554-566 | cancelling takes out exactly the queued tasks with the id and leaves the others in their order |
| SchedulerRuns.StepExact | crates/ergatai-collab/src/task_scheduler.rs:169-566 | every step of every interleaving, with any decision on a placement or an attempt and saves that may fail or land late, keeps the queue free of duplicates if and only if it is safe, which is a check on the state before it |
| SchedulerRuns.LoadExact | crates/ergatai-collab/src/task_scheduler.rs:209-271 | a load that is not interrupted does so if and only if it changes nothing, or reloads distinct tasks that are in the dedup set and neither running, held by a pass nor being submitted |
| SchedulerRuns.InstallExact | crates/ergatai-collab/src/task_scheduler.rs:264-268 | installing what was read at any earlier time does so if and only if the queue is not empty or what was read is like that now |
| SchedulerRuns.ClaimExact | crates/ergatai-collab/src/task_scheduler.rs:169-181 | claiming an id does so if and only if the dedup set is below its cap or nothing else is going on |
| SchedulerRuns.TerminateExact | crates/ergatai-collab/src/task_scheduler.rs:569-610 | ending an id does so if and only if it neither waits nor is being submitted |
| SchedulerRuns.TryExact | crates/ergatai-collab/src/task_scheduler.rs:504-530 | an attempt of a pass does so if and only if it launches nothing, the task itself, or an id in the dedup set under which nothing waits or runs |
| SchedulerRuns.RunExact | crates/ergatai-collab/src/task_scheduler.rs:169-566 | a run is free of duplicates in every state if and only if every step is safe |
| SchedulerCalls.SubmissionExact | crates/ergatai-collab/src/task_scheduler.rs:302-362 | a submission is so after its load, its claim and its placement if and only if what it reloads is safe and the dedup set is below its cap or nothing else is going on |
| SchedulerRuns.NoDuplicateExecution | crates/ergatai-collab/src/task_scheduler.rs:302-636 | from any queue file, in every run of safe steps: no id is queued twice, held by a pass as well, or queued and running; all of them are in the dedup set; every running id holds exactly one permit; nothing that runs is launched again |
| SchedulerCalls.SubmissionSteps | crates/ergatai-collab/src/task_scheduler.rs:302-362 | a submission that is not interrupted is a read, an installation, a claim and a placement with the scheduler's decision, with the same outcome as the method |
| SchedulerCalls.EnterSteps | crates/ergatai-collab/src/task_scheduler.rs:864-874 | so is a delivered task, without the load |
| SchedulerCalls.PassSteps | crates/ergatai-collab/src/task_scheduler.rs:484-541 | a pass that is not interrupted is draining, one attempt per task and putting back, with the same outcome as the method |
| OrderlyRuns.OrderlyRunsAreSafe | crates/ergatai-collab/src/task_scheduler.rs:209-636 | every run from a file without tasks is safe in which saves succeed, no load overlaps a pass, the dedup set stays below its cap, plan files keep naming their tasks and only running tasks are ended |
| OrderlyRuns.DrainWindowDuplicates | crates/ergatai-collab/src/task_scheduler.rs:491-536 | a load between draining and putting back is not safe, and leaves every task of the queue there twice if the pass starts none |
| OrderlyRuns.FailedSaveRequeues | crates/ergatai-collab/src/task_scheduler.rs:532-538 | after a pass that started the only task and failed to save, a load is not safe and queues the task while it runs |
| OrderlyRuns.StaleReadRequeues | crates/ergatai-collab/src/task_scheduler.rs:209-271 | although every save succeeds, a load that reads before such a pass and gets the lock behind it queues the task while it runs |
| OrderlyRuns.RestartDuplicates | crates/ergatai-collab/src/task_scheduler.rs:209-327 | after a restart a load is not safe: a task that is queued and submitted again is launched while it is queued |
| StrandedIds.StrandedStep | crates/ergatai-collab/src/task_scheduler.rs:302-585 | a safe step strands exactly the id of a launch error outside a pass, an agentless start or the cancellation of a queued task, and frees exactly those it ends, reloads, launches or forgets at the cap |
| StrandedIds.StrandedExactly | crates/ergatai-collab/src/task_scheduler.rs:302-585 | in every safe run an id is stranded if and only if some step stranded it and no later one freed it |
| StrandedIds.ResubmissionExact | crates/ergatai-collab/src/task_scheduler.rs:302-327 | submitting an id under which nothing waits or runs is dropped, with success, if and only if the id is stranded and the dedup set is below its cap |
| StrandedIds.DeliveredExact | crates/ergatai-collab/src/task_scheduler.rs:864-874 | a delivered task under whose id nothing waits or runs is dropped, and acknowledged, if and only if the id is stranded and the dedup set is below its cap |
| StrandedIds.RedeliveryLost | crates/ergatai-collab/src/task_scheduler.rs:864-922 | a delivery whose launch fails is reported as an error and leaves its id; delivered again it changes nothing and is reported as a success, exactly if the dedup set is below its cap by then |
| StrandedIds.CancelledCannotReturn | crates/ergatai-collab/src/task_scheduler.rs:554-566 | a queued task that is cancelled leaves the queue, and submitting its id again is dropped |
| StrandedIds.NothingLaunchedStrands | crates/ergatai-collab/src/task_scheduler.rs:321-362 | so is submitting again after a launch error or an agentless start |
| StrandedIds.CancelledReturns | crates/ergatai-collab/src/task_scheduler.rs:209-271 | although every save succeeds, a load that has read the file before a cancellation and gets the lock behind it queues the cancelled task again |
| PermitProtocol.StepKeepsInv | crates/ergatai-collab/src/task_scheduler.rs:374-463 | acquire, check, give up, store and remove, by any thread, keep the sum of permits and each task's share |
| PermitProtocol.PermitsConserved | crates/ergatai-collab/src/task_scheduler.rs:374-463 | in every interleaving, available, in-flight and stored permits add up to the limit, and each task holds one permit per launch that has not ended |
| PermitProtocol.RemoveReturnsOwnPermits | crates/ergatai-collab/src/task_scheduler.rs:569-585 | completing a task returns exactly its permits and touches no other task's |
| AgentExclusivity.StoreExact | crates/ergatai-collab/src/task_scheduler.rs:435-459 | storing the agents of a plan leaves no agent with two tasks if and only if they are different and none is busy |
| AgentExclusivity.StartExact | crates/ergatai-collab/src/task_scheduler.rs:374-463 | the same for a start as the scheduler decides it |
| AgentExclusivity.OneAgentIsSafe | crates/ergatai-collab/src/task_scheduler.rs:388-402 | under a waiting strategy a plan with the one agent that is checked never gives an agent two tasks |
| AgentExclusivity.SecondAgentUnchecked | crates/ergatai-collab/src/task_scheduler.rs:329-334 | a plan whose second agent is busy gives it a second task in one uninterrupted submission |
| AgentExclusivity.StepExact | crates/ergatai-collab/src/task_scheduler.rs:374-463 | every interleaved step leaves no agent with two tasks if and only if it is no store, or a store of different agents that are all free then |
| AgentExclusivity.RunExact | crates/ergatai-collab/src/task_scheduler.rs:374-463 | in every interleaving no agent ever has two tasks if and only if every store is like that |
| AgentExclusivity.AgentTakenTwice | crates/ergatai-collab/src/task_scheduler.rs:388-394 | an interleaving, possible under every strategy, whose second store is not |
| LegacyMessages.MessageTable.Append | crates/ergatai-api/src/user_data_db.rs:1427-1480 | adds one row behind the largest sequence number, which is the last row; fails without effect on a taken id or a missing conversation |
| LegacyMessages.MessageTable.ReplaceLegacy | crates/ergatai-api/src/user_data_db.rs:1569-1702 | replaces the conversation by the merged rows numbered from 0, or changes nothing; ids stay unique in the whole table and every list strictly in the order of its sequence numbers |
| LegacyMessages.InsertRows | crates/ergatai-api/src/user_data_db.rs:1680-1694 | the inserts succeed exactly when ids are new and distinct and the conversation exists |
| LegacyMessages.MergeContents | crates/ergatai-api/src/user_data_db.rs:1534-1678 | the payload rows appear in order, each once; the others are exactly the old rows with agent metadata whose id the payload does not carry and which no payload row of their role says as well, in old order, in one block directly before a final assistant row or at the end |
| LegacyMessages.MergeKeeps | crates/ergatai-api/src/user_data_db.rs:1534-1678 | for each old row: with an id that the payload does not carry it is in the result exactly if its metadata decodes to an object with the source `agent` and no payload row of its role has the same text items, joined by lines and trimmed; with a carried id only as a payload row |
| LegacyMessages.DraftExact | crates/ergatai-api/src/user_data_db.rs:1595-1627 | what a payload item becomes: its integer or numeric id or a new one, its role or `user`, its parts or itself, its metadata unless that is null |
| LegacyMessages.MergeTwice | crates/ergatai-api/src/user_data_db.rs:1629-1678 | merging the same payload into its own outcome changes nothing |
| LegacyMessages.ReplaceTwice | crates/ergatai-api/src/user_data_db.rs:1569-1702 | with explicit ids, replacing twice equals replacing once, row by row |
| LegacyMessages.SerializeThenReplace | crates/ergatai-api/src/user_data_db.rs:1704-1727 | replacing a conversation of valid JSON by its own serialisation changes only timestamps and how the JSON is printed |
| LegacyMessages.SerializedExact | crates/ergatai-api/src/user_data_db.rs:1704-1727 | the fields of a printed row; parts that are no JSON become a text, such metadata null |
| LegacyMessages.SerializeThenReplaceTidy | crates/ergatai-api/src/user_data_db.rs:1704-1727 | on rows written by this program it changes only the timestamps |
| LegacyMessages.AppendKeepsTidy | crates/ergatai-api/src/user_data_db.rs:1440-1458 | appending keeps rows numbered without gaps and printed by the program |
| LegacyMessages.ReplaceKeepsTidy | crates/ergatai-api/src/user_data_db.rs:1593-1694 | so does replacing, whatever the payload |
| ConfigReload.ConfigManager.Create | crates/ergatai-lock/src/config.rs:110-136 | installs the file's content with its time, or without if that cannot be read, the defaults without a file; fails exactly on an invalid file; starts as the protocol assumes |
| ConfigReload.ConfigManager.ReloadIfChanged | crates/ergatai-lock/src/config.rs:218-269 | installs the content exactly when the file exists, its time can be read and is newer than recorded, and it is valid; fails on an unreadable time or invalid content; otherwise changes nothing |
| ConfigReload.ConfigManager.GetConfig | crates/ergatai-lock/src/config.rs:184-215 | checks at most once per interval, keeps the old configuration when a reload fails, returns what is installed |
| ConfigReload.StepKeepsInv | crates/ergatai-lock/src/config.rs:218-269 | every step of every thread, and every write, keeps the invariant, and the recorded time never goes back |
| ConfigReload.NeverOlder | crates/ergatai-lock/src/config.rs:110-269 | from a fresh manager, over all interleavings, the recorded time never decreases and the installed content is never older than it |
| ConfigReload.FinalContentStays | crates/ergatai-lock/src/config.rs:110-269 | from a fresh manager, once writes stop, a call that begins afterwards and succeeds leaves the final content installed, and no later step of any thread removes it |
| ConfigReload.SoloCall | crates/ergatai-lock/src/config.rs:218-269 | a call that is not interrupted does what the sequential method does |
| ConfigReload.WriteThenCall | crates/ergatai-lock/src/config.rs:218-269 | what was written last is installed by the next call that runs alone, with its time, if it is valid; an invalid file is reported and a missing one is not |
| ConfigReload.FailsExactly | crates/ergatai-lock/src/config.rs:218-269 | in every interleaving a call ends with an error exactly when the time cannot be read or the file is gone or invalid when it is loaded, and never because another thread was faster |
| Registry.UnifiedAgentRegistry.Register | crates/ergatai-core/src/unified_registry.rs:96-128 | the new records and indices, every entry still pointing to a live record with the id |
| Registry.UnifiedAgentRegistry.Unregister | crates/ergatai-core/src/unified_registry.rs:134-151 | the same for removal, which returns the record |
| Registry.UnifiedAgentRegistry.SetMcpAgentId | crates/ergatai-core/src/unified_registry.rs:276-298 | the same for a changed id; fails exactly for an unknown agent |
| Registry.UnifiedAgentRegistry.GetByMcpId | crates/ergatai-core/src/unified_registry.rs:163-168 | a hit is a live record with the id; a miss means there is none if the index is complete |
| Registry.UnifiedAgentRegistry.GetByConversationId | crates/ergatai-core/src/unified_registry.rs:175-180 | likewise for conversation ids |
| Registry.AlwaysSound | crates/ergatai-core/src/unified_registry.rs:96-151 | over all runs, id collisions included, every index entry points to a live record carrying that id |
| Registry.LookupIsScan | crates/ergatai-core/src/unified_registry.rs:163-180 | while external ids stay unique, index lookup has exactly the answer of scanning all records |
| Registry.StepExact | crates/ergatai-core/src/unified_registry.rs:96-298 | each operation keeps an index entry under every id that a live agent carries if and only if the id it takes out of the index is put back or carried by no other live agent |
| Registry.RunExact | crates/ergatai-core/src/unified_registry.rs:96-298 | in a run some agent is found under every carried id in every state if and only if every operation was such a one when it came |
| Registry.LookupFinds | crates/ergatai-core/src/unified_registry.rs:163-180 | after such a run a lookup succeeds exactly when some live agent carries the id |
| Registry.FoundExact | crates/ergatai-core/src/unified_registry.rs:96-298 | from a state in which every agent is what a lookup of its id returns, an operation keeps that if and only if it brings in no id that another live agent carries |
| Registry.FoundRunExact | crates/ergatai-core/src/unified_registry.rs:96-298 | in a run every agent is found by its id in every state if and only if no operation brought in an id that another live agent carried then |
| Registry.CollisionHidesSurvivor | crates/ergatai-core/src/unified_registry.rs:134-298 | after a collision, removing one agent or giving it another id leaves the survivor alive, alone with its id, and not found |
| SnowflakeIds.PrefixPlain | crates/ergatai-error/src/id.rs:120-156 | each prefix is read back as its type, no other text is, and it contains no separator |
| SnowflakeIds.ParseExact | crates/ergatai-error/src/id.rs:342-378 | a text parses exactly if it is a known prefix and three unsigned 64-bit numbers joined by underscores, in whatever number of digits |
| Text.ParseU64Exact | crates/ergatai-error/src/id.rs:342-378 | such a number is an optional plus sign and at least one digit, with a value below 2 to the power of 64 |
| SnowflakeIds.RoundTrip | crates/ergatai-error/src/id.rs:300-465 | every non-negative id is read back from its formatted text, by the typed variant exactly for its own type |
| SnowflakeIds.RangesSuffice | crates/ergatai-error/src/id.rs:382-404 | the three range checks alone decide: the shifts lose nothing and the checked additions never fail behind them |
| SnowflakeIds.FieldOrder | crates/ergatai-error/src/id.rs:9-12 | ids are ordered as numbers exactly as by time, instance and sequence |
| SnowflakeIds.FormatInjective | crates/ergatai-error/src/id.rs:300-321 | different ids or types have different texts |
| SnowflakeIds.FormatWidths | crates/ergatai-error/src/id.rs:300-314 | the fields are written in decimal, the time without leading zeros, the instance in at least three digits and the sequence in four |
| SnowflakeIds.NegativeNeverParses | crates/ergatai-error/src/id.rs:315-319 | the fallback text of a negative id is never read back as an id |
| SnowflakeIds.ResultFilenameExact | crates/ergatai-collab/src/result_monitor.rs:336-379 | a file name is accepted with a task id exactly when it is that id, a hyphen, a non-empty rest and `.md` |
| SnowflakeIds.ResultNameSafe | crates/ergatai-collab/src/task_coordinator.rs:216-220 | a result file is named exactly for a safe task id and a safe agent, and its name leads into no other directory |
| SnowflakeIds.ResultFileRoundTrip | crates/ergatai-collab/src/task_coordinator.rs:216-220 | the file written for a formatted task id and any valid agent name is read back as that id |

## Left out

- Floats: reading, comparing and converting them in conditions is an abstract `FloatOps`, and the number of a JSON value is a real; progress and tier timeouts are not part of this model.
- The 32-bit counter of parenthesis depth: depth is unbounded here, so texts with more than two thousand million parentheses are not modelled as the program handles them.
- The driver (`dag_scheduler`): its calls appear as the guarded steps of `TaskRuns`, not as its code; conditional routing at run time is not modelled.
- YAML and JSON text, glob patterns, parameter resolution and state schemas: definitions start from deserialised values, JSON text goes through a codec, and the outcome of the other checks is given.
- The parts of one placement and of one attempt (taking the permit, launching, storing, queueing) are one step of `SchedulerRuns`, which may come to any decision; the parts interleave in `PermitProtocol` and `AgentExclusivity`.
- SchedulerRuns.TerminateExact: dropping the entries of an ended task and forgetting its id are one step; the program takes two locks, one after the other.
- Launching agents: a plan launches as a whole or not at all; agents already running when a later one of the same plan fails are not tracked, neither here nor by the scheduler.
- Scheduler.TaskScheduler.HandleNatsTask: the containment checks and the writing of the plan file before line 864 are not part of this model, nor are NATS, acknowledgements and the background loop.
- Reading a configuration file is one step; a file caught half-written counts as a version that may be invalid, and settings inside a configuration are not modelled.
- The manual `reload` of the configuration manager, which does not record the time, and calls whose locks are poisoned.
- Restricted pairs of a session that was stored and read back: they are not serialised and would be empty.
- Agent records are reduced to the three ids that the indices depend on; lifecycle states and events are not modelled.
- Generating ids and the clock: ids are given, distinct where the program relies on it.
- SQLite: tables are maps, transactions are atomic, and the timestamp of the conversation row is not kept.
- Nodes keep only the fields that scheduling depends on; prompts, inputs, outputs, scopes and profiles are not carried along.
