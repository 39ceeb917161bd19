# floxy: verified model of the saga workflow engine

This project models the core of the floxy saga workflow engine in Dafny and proves what the
engine, its builder, its join protocol, its queue and its definition cache promise.

* **Definitions and graphs.** A workflow definition is an immutable map from step names to step
  definitions (`Definitions.dfy`). `Graphs.dfy` and `Trees.dfy` hold paths, cycles and the tree
  shape (Next, Parallel and Else links as children, Prev as parent) that the builder produces.
* **Builder.** Programs of the builder language (Step, OnFailure, Fork, Join, SavePoint,
  Condition with else branch, nested sub-builders) are a datatype; `Builder.dfy` says what each
  call does to the graph, `BuilderObject.dfy` is the mutable builder proved against it, and
  `BuilderNames`, `BuilderTrees`, `BuilderJoins`, `BuilderHealth`, `BuilderComplete`,
  `BuilderExact`, `BuilderJoinsKept` and `BuilderLayout` prove what programs build, exactly which
  programs are accepted, what the joins of a finished definition wait for, and that the graph is
  the one the calls and options describe.
* **Rollback.** `Rollback.dfy` is the recursive walk with its shared visited set, as a function;
  `RollbackEngine.dfy` is the walk in place on the store. `RollbackTrees`, `RollbackExact`,
  `RollbackTheorems`, `RollbackMeaning` and `RollbackEffects` prove which steps it covers, in
  which order, what it leaves alone, and what it does to the store.
* **Engine.** `Store.dfy` is the persistent state, join states included, and `MemoryStore.dfy` the
  class of maps and counters that holds it. `Engine.dfy` describes each `ExecuteNext` as one atomic
  transition of the state; handler results, condition outcomes and the iteration order of the
  definition's map come from outside, everything else, joins included, is determined.
  `EngineObject.dfy` is the engine itself, methods on the store, and proves that every execution is
  such a transition. `EngineFrames`, `EngineTame` and `EngineSteps` prove what every handler keeps.
  What each handler does to the store, said without the handler's own functions: `EngineBirths` and
  `EngineOutcomes` (successors, conditions, joins, starts, missing handlers), `EngineForks` (branches
  and the joins they open), `EngineBranches` and `EngineSettles` (the searches around forks and what
  the end of a branch tells its join), `EngineReactions` (the end of a workflow and its reactive
  rollback), `EngineFailures` (retry, dead letter, final failure, compensation, cancellation);
  `EngineRuns`, `EngineBounds` and `EngineRetries` prove the dead-letter freeze, the retry and
  compensation bounds and the exact number of retries over all runs; `EngineJoins` and `EngineJoinRuns` prove which joins hear of a
  step and, over all runs, when join steps appear; `SagaChains`, `Sagas`, `SagaSteps`,
  `SagaRollback`, `SagaCancel` and `SagaRuns` prove the safety of linear sagas over all runs,
  cancellations included, and `SagaBuilds` ties them to the builder and to a new store.
* **Joins, queue, cache.** `Joins.dfy`/`JoinStore.dfy`, `Queue.dfy` and `DefinitionCache.dfy`.
* **Witnesses.** `RollbackExample`, `SagaWitness` and `SagaRobbery` build the concrete runs and
  records that show a property to be false of the code.

Conventions: an absent link is the empty string; durations and clock readings are real numbers of
seconds; integers are unbounded; a Go error return is `None`, `false` or an unchanged state.
Where the iteration order of a Go map matters, the method picks any element and the proof covers
every choice.

Properties that are false of the code as it stands are shown false by a concrete case, and what
holds instead is proved with its exact condition:

* the two aging formulas differ for a negative priority: `Queue.FormulasDiffer`; they agree if and
  only if `Queue.FormulasAgreeIff`;
* a due item of top priority can be overtaken for ever: `Queue.OvertakenForever`; it is served
  within the bound if and only if it is overdue: `Queue.OvertakingBoundIff`;
* the join count test can be fooled: `Joins.StrangerFoolsTheCount`; its exact meaning is
  `Joins.CountTestMeans`;
* executing an item of one instance can delete the only item of another, which then stays running
  for ever: `SagaRobbery.ForeignItemLost` and `SagaRobbery.StuckForever`; it happens if and only if
  `SagaRuns.ForeignItemLostIff`;
* a savepoint does not protect against a cancel request: `SagaWitness.CancelUndoesProtected` (for
  every linear workflow with a savepoint before its last step) and `SagaWitness.CancelExample`;
  after a cancel every completed step is reverted, after an abort every one is kept:
  `SagaCancel.CancelledHalts`, `SagaRuns.CancelIgnoresSavePoints`;
* a completed step behind the join of a fork is not rolled back when another branch fails:
  `RollbackExample.CompletedContinuationKept`; what is rolled back is exactly
  `RollbackTheorems.RollbackIsExact`.

## Model

| member | source | states |
|---|---|---|
| `Definitions.VirtualNamesNeverCollide` | builder.go:708-729 | the virtual name of a condition is never a valid step name, and distinct conditions have distinct virtual names |
| `CycleDetection.DetectCycles` | builder.go:637-688 | one recursive call: it reports true only if a cycle is reachable, and otherwise extends the finished steps to a closed set in topological order |
| `CycleDetection.HasCycle` | builder.go:628-688 | an error if and only if a cycle over Next, OnFailure, Else, Parallel and WaitFor is reachable from the start; otherwise a topological order of the reachable part |
| `Reachability.Reachable` | engine.go:2749-2786 | true if and only if the target is reachable over Next, Else and Parallel, on any graph, cyclic or not |
| `Reachability.IsStepDescendantOf` | engine.go:2880-2907 | true if and only if the ancestor is an existing step on the Prev chain, on any graph |
| `Reachability.SearchesAgree` | engine.go:2749-2907 | on builder trees the forward search and the backward Prev walk agree for every pair of steps |
| `Builder.NoIdempotentHasOneRetry` | builder_opts.go:10-33 | a non-idempotent step has exactly one retry whatever the order of its options |
| `BuilderLayout.OptionsMean` | builder_opts.go:10-33 | the last option of each kind counts: an idempotent step has the retries of its last MaxRetries option, or the default; a non-idempotent one has one |
| `BuilderTrees.ProgramsBuildTrees` | builder.go:46-495 | every program with fresh names, opened by Step or Fork, builds a tree rooted at the start with Prev as parent map, over exactly the program's names |
| `BuilderTrees.GraftValid` | builder.go:199-249 | hanging the tree of a sub-builder under a step of a tree gives a tree |
| `BuilderTrees.BranchesGrow` | builder.go:199-249 | merging the branches of a fork keeps the tree and adds exactly their names |
| `BuilderJoins.SeekConditionDecides` | builder.go:731-775 | the branch search returns a condition reachable along Next and Else exactly if there is one |
| `BuilderJoins.TerminalOfIsTerminal` | builder.go:777-826 | the terminal search returns a step without Next that is reachable from the branch start |
| `BuilderJoins.JoinWaitsForEveryBranch` | builder.go:324-347 | Join after Fork waits for one entry per branch, pairwise distinct: the virtual name of a condition of the branch, or a terminal step where there is none |
| `BuilderJoinsKept.FinishedJoinsWait` | builder.go:295-371 | in every definition that Build accepts, every join, however deeply nested, stands behind a fork and waits for exactly one entry per branch, the right one, none twice; later calls and merges do not disturb it |
| `BuilderJoinsKept.AwaitedKept` | builder.go:731-826 | what is right to wait for in a branch stays right as long as the branch is left alone |
| `BuilderHealth.HealthyIsValid` | builder.go:571-635 | a graph with ranks that fall along every dependency passes validation: references resolve and no cycle is reachable |
| `BuilderComplete.OpenedCertified` | builder.go:46-569 | a complete program runs without error and its result, sub-builders included, carries such ranks |
| `BuilderExact.AcceptedIffComplete` | builder.go:532-635 | for fresh names and builders opened by Step or Fork: Build accepts if and only if the builder is named, every name is valid and the program is complete (handlers given, Join only directly after Fork, SavePoint only at top level, conditions and branches likewise) |
| `BuilderNames.ExecKeys` | builder.go:46-495 | a builder without error holds the names of all calls so far, nested ones included, and no other |
| `BuilderNames.AcceptedNamesValid` | builder.go:571-600 | Build accepts no program with an invalid name, whatever its shape |
| `BuilderNames.ExecHeaded` | builder.go:175-495 | in everything a program with fresh valid names builds, no join begins a workflow, a branch or an else side |
| `BuilderObjects.BuilderObject.Step` | builder.go:46-86 | the object's graph after the call is the one the language defines, including the duplicate-name error |
| `BuilderObjects.BuilderObject.OnFailure` | builder.go:92-119 | likewise for a compensation step |
| `BuilderObjects.BuilderObject.Fork` | builder.go:175-252 | likewise for a fork with its sub-builders, their validation and their merge |
| `BuilderObjects.BuilderObject.Join` | builder.go:295-371 | likewise for a join with its computed wait list |
| `BuilderObjects.BuilderObject.SavePoint` | builder.go:388-421 | likewise for a savepoint, refused inside branches |
| `BuilderObjects.BuilderObject.Condition` | builder.go:423-495 | likewise for a condition with an optional else branch |
| `BuilderObjects.BuilderObject.Build` | builder.go:532-569 | succeeds if and only if the builder and all its sub-builders are valid |
| `BuilderObjects.ValidateDefinition` | builder.go:571-635 | decides name validity, resolved references, handlers and the absence of reachable cycles |
| `BuilderObjects.WaitForOf` | builder.go:324-347 | the loop over the branches computes the wait list |
| `BuilderObjects.BuildProgram` | builder.go:30-635 | a whole program on a fresh builder: accepted if and only if named, with valid names and complete; then the graph its calls describe, a tree over exactly the program's names whose joins wait for every branch |
| `BuilderLayout.ProgramsAreLaidOut` | builder.go:46-495 | what a program builds is the graph its calls describe, nested branches included: kinds, handlers, options, strategies, Next, Prev, Else, branches and compensation links, beginning with its first call |
| `Rollback.WalkChainSound` | engine.go:2397-2495 | on any definition, cyclic or not, the walk terminates and hands each step to compensation at most once, and only completed or failed steps |
| `RollbackExact.WalkIsRollbackLog` | engine.go:2397-2495 | on a tree the walk with its visited set equals a plain recursion: own branches, then backward along Prev with the other branches of each fork |
| `RollbackTheorems.RollbackIsExact` | engine.go:2351-2495 | a step is compensated if and only if it is completed or failed and lies on the Prev path up to the savepoint or is reached, along the taken links, in another branch of a fork on that path |
| `RollbackMeaning.RollbackCovers` | engine.go:2397-2495 | the same extent said by ancestry alone: completed or failed, and on the Prev path between the failed step and the stop, or below another branch of a fork on that path along the links actually followed |
| `RollbackTheorems.SavePointBarrier` | engine.go:2318-2495 | the savepoint and its Prev ancestors are never touched, not even through sibling branches |
| `RollbackTheorems.ContinuationKept` | engine.go:2420-2492 | steps behind a non-branch continuation of a fork on the path are never rolled back |
| `RollbackExample.CompletedContinuationKept` | engine.go:2397-2495 | a fork with a join of strategy any and a step behind it: the step is completed when the other branch fails, and is not rolled back |
| `RollbackTheorems.RollbackOrder` | engine.go:2397-2495 | every compensated step is handed over before its compensated Prev ancestors |
| `RollbackEffects.RollbackAllEffect` | engine.go:2497-2567 | each handed-over step without a compensation step ends rolled back with nothing new; with attempts left it ends in compensation with its counter raised by one and exactly one new item after the back-off; with none left it ends failed with exactly one new dead letter; every other step, item and letter is untouched |
| `RollbackEffects.BackOff` | helpers.go:92-109 | between two compensation attempts the pause stays the same, grows by one base delay or doubles, from the stated first pause on; a zero pause is replaced by the step's delay |
| `RollbackEngine.FindNearestSavePoint` | engine.go:2318-2349 | on every tree the loop returns the closest savepoint on the Prev chain, or the root |
| `RollbackEngine.RollbackChain` | engine.go:2397-2495 | the recursion in place follows the walk function and has compensated exactly its log |
| `RollbackEngine.RollbackOne` | engine.go:2497-2567 | one compensation in place is the step of the model whose outcome `RollbackAllEffect` states by the definition and the counter |
| `RollbackEngine.RollbackToSavePointOrRoot` | engine.go:2307-2377 | after a final failure the store is the old store with the walk's log compensated; on a tree the log is the exact rollback up to the nearest savepoint |
| `RollbackEngine.RollbackOnTree` | engine.go:2307-2567 | coverage and effect together, on the store: exactly the steps of the exact rollback end as their definitions and counters say, everything else is untouched |
| `RollbackEngine.SomeStop` | engine.go:2318-2349 | the nearest savepoint depends only on the definition, not on how the tree is laid out |
| `MemoryStores.MemoryStore.UpdateStep` | memory_store.go:196-229 | the new record, with the attempt counter raised on failure only; the not-found error |
| `MemoryStores.MemoryStore.UpdateStepCompensationRetry` | memory_store.go:599-617 | counter and status of one step; the not-found error |
| `MemoryStores.MemoryStore.GetStepsByInstance` | memory_store.go:231-252 | the instance's records in order of creation |
| `MemoryStores.MemoryStore.CreateStep` | memory_store.go:178-194 | a fresh id, filed under the instance |
| `MemoryStores.MemoryStore.EnqueueStep` | memory_store.go:254-276 | one new unclaimed item, scheduled after the delay |
| `MemoryStores.MemoryStore.DequeueStep` | memory_store.go:278-320 | claims a due unclaimed item of maximal effective priority and, among those, earliest schedule, for every map order; nothing only if no due item has a non-negative effective priority |
| `MemoryStores.MemoryStore.RescheduleAndReleaseQueueItem` | memory_store.go:346-366 | unclaims the item and never moves its schedule back |
| `MemoryStores.MemoryStore.PauseActiveStepsAndClearQueue` | memory_store.go:1117-1138 | exactly the running steps of the instance are paused and exactly its items removed |
| `MemoryStores.MemoryStore.GetActiveStepsForUpdate` | memory_store.go:879-903 | exactly the pending, running and waiting steps of the instance, newest first |
| `Queue.SelectItem` | memory_store.go:282-309 | the selection loop picks a maximal candidate for every iteration order |
| `Queue.FormulasAgreeIff` | store.go:338-358 | the truncated sum and the SQL aging formula agree for a due item if and only if the aged priority is not negative or the bonus is whole |
| `Queue.FormulasAgree` | memory_store.go:293-300 | they agree for every non-negative priority |
| `Queue.FormulasDiffer` | memory_store.go:293-300 | a negative priority on which they differ |
| `Queue.OneStep` | memory_store.go:254-366 | no admissible operation puts an item ahead of a waiting top item, and a dequeue that leaves it takes one from ahead of it |
| `Queue.BoundedOvertaking` | memory_store.go:254-366 | an overdue item of effective priority 100 is dequeued within as many dequeues as there were unclaimed items scheduled no later, plus one, whatever is enqueued, removed or rescheduled |
| `Queue.OvertakenForever` | memory_store.go:278-320 | an item of effective priority 100 that is due at this very moment can be left unclaimed through any number of dequeues |
| `Queue.OvertakingBoundIff` | memory_store.go:278-320 | a due item of top effective priority is served within the bound in every run if and only if it is overdue |
| `Queue.ClaimsAreExclusive` | memory_store.go:278-344 | a claimed item is not dequeued again until it is released or rescheduled |
| `Joins.TraceSemantics` | memory_store.go:436-491 | after any notifications the completed and failed lists hold exactly the steps by latest outcome, each once and disjoint, and the flag is the recomputed one |
| `Joins.ReadinessIgnoresInterleaving` | memory_store.go:436-491 | readiness depends only on each step's own notifications, not on how they interleave |
| `Joins.ReadyNeverReverts` | store.go:507-593 | with a fixed wait list a ready join stays ready |
| `Joins.AnyReadyIffNotified` | memory_store.go:590-597 | a join with strategy any is ready exactly from the first notification on |
| `Joins.NotifiedConsistent` | store.go:507-593 | a notification keeps the lists duplicate-free and disjoint and the flag recomputed |
| `Joins.WaitAddedConsistent` | store.go:632-690 | adding to the wait list keeps them, keeps the wait list duplicate-free, and adds exactly the step |
| `Joins.WaitReplacedConsistent` | store.go:691-794 | replacing a virtual entry keeps them; exactly the virtual entry leaves and the real step enters, counted by its status unless counted already; the wait list stays duplicate-free exactly if the real step was not awaited already |
| `Joins.CountTestMeans` | store.go:1640-1648 | the count test succeeds if and only if at least as many strangers were counted as awaited steps are missing |
| `Joins.CountTestDecidesCoverage` | store.go:1640-1648 | when only awaited steps are counted, it is true if and only if every awaited step was processed |
| `Joins.StrangerFoolsTheCount` | memory_store.go:590-597 | a stranger makes a join ready while an awaited step is missing |
| `JoinStores.RunsStayConsistent` | store.go:446-794 | the invariant holds after any sequence of create, notify, add and replace |
| `JoinStores.ReadyMeansCovered` | store.go:446-794 | over runs of a join of strategy all, given or by default, that report only awaited steps and replace only unreported entries, the stored flag means that every awaited step was processed |
| `MemoryStores.MemoryStore.CreateJoinState` | memory_store.go:399-434 | creates once, with strategy all by default; nothing else changes |
| `MemoryStores.MemoryStore.UpdateJoinState` | memory_store.go:436-491 | the list edits in place are one notification; the error for a missing join |
| `MemoryStores.MemoryStore.AddToJoinWaitFor` | memory_store.go:506-528 | adds once and refreshes the flag, or creates the join |
| `MemoryStores.MemoryStore.ReplaceInJoinWaitFor` | memory_store.go:530-588 | replaces or appends, counts the real step if it already ended, as its record says, and refreshes the flag, or creates the join |
| `DefinitionCache.CacheIsTransparent` | store.go:54-157 | for every sequence of save, get, invalidate, clear, lifetime change and clock advance the cached store answers exactly as one without a cache |
| `DefinitionCache.StaleForLessThanBound` | store.go:54-157 | when other stores write the same table, a read returns the present row or one the table held less than the longest lifetime ago |
| `DefinitionCache.Upsert` | store.go:75-104 | a conflict on name and version updates the body of the existing row and returns its id; an id of another row is an error; everything else is unchanged |
| `DefinitionCache.DefinitionStore.SaveWorkflowDefinition` | store.go:75-104 | saves and invalidates the entry of the row actually written |
| `DefinitionCache.DefinitionStore.GetWorkflowDefinition` | store.go:106-157 | returns what the table holds, from the cache or not |
| `DefinitionCache.DefinitionStore.SetDefinitionCacheTTL` | store.go:54-61 | zero clears the cache entry by entry |
| `EngineObjects.WorkflowEngine.ExecuteNext` | engine.go:318-502 | nothing if no item can be served; otherwise exactly one transition of the engine model, joins included; the store stays well formed |
| `EngineObjects.WorkflowEngine.DispatchStep` | engine.go:397-495 | finished steps, missing handlers, compensation and execution as in the model |
| `EngineObjects.WorkflowEngine.ExecuteStep` | engine.go:746-848 | runs a step of every kind and handles its result as in the model |
| `EngineOutcomes.ResultIsExact` | engine.go:746-848 | without a cancel request: which executions succeed, by kind of step, and that only a condition can leave Next for Else |
| `EngineOutcomes.ItemSurvivesIff` | engine.go:397-495 | a queue item survives its execution if and only if its step is still to be executed and this worker lacks the handler; then it is only handed back |
| `EngineOutcomes.HandBackIsExact` | engine.go:466-485 | an item handed back is unclaimed and scheduled no earlier than before and no earlier than the cooldown after now; nothing else changes |
| `EngineObjects.WorkflowEngine.ExecuteCompensationStep` | engine.go:941-1077 | one compensation attempt as in the model |
| `EngineFailures.AttemptIsExact` | engine.go:941-1077 | the four outcomes of an attempt as states of the store: no handler, success (which fails the instance when nothing else is open), another attempt with its counter and item, or failure for good |
| `EngineObjects.WorkflowEngine.ExecuteFork` | engine.go:1104-1174 | starts every branch, or stops at an unknown one, and then gives every join behind the fork its state: its wait list, or the branches where it has none, and its strategy |
| `EngineForks.ForkStarts` | engine.go:1104-1174 | a fork succeeds if and only if every branch is known; then exactly its branches are new, pending with one item each, and exactly the joins of Next that had no state get one with the WaitFor of their definition, or the branches, their strategy and empty lists |
| `EngineForks.OpenedJoinsAwaitBranches` | engine.go:1142-1166 | in every definition that Build accepts, the state a join gets at run time waits for exactly one entry per branch, the right one, none twice |
| `EngineObjects.WorkflowEngine.ExecuteJoin` | engine.go:1176-1230 | succeeds if and only if the join has a state, is ready and, for strategy all, nothing failed |
| `EngineOutcomes.JoinSucceedsIff` | engine.go:1176-1230 | a join that heard only of awaited steps succeeds, with strategy all, if and only if the latest outcome of every awaited step is success, and with strategy any if and only if it heard of a step |
| `EngineObjects.WorkflowEngine.HandleStepSuccess` | engine.go:1412-1562 | completion, join bookkeeping, successors and workflow completion as in the model, whose effect `EngineOutcomes.SuccessCreates` and `EngineReactions.CompletionIsExact` state |
| `EngineOutcomes.SuccessCreates` | engine.go:1412-1562 | a success that leads on creates exactly one pending step, with one item, for each successor in order; every other new step is a join step; no other step or item changes |
| `EngineOutcomes.ConditionChooses` | engine.go:1539-1562 | a true condition leads to exactly the steps of Next that are no joins, a false one to exactly one step, named Else |
| `EngineBirths.EnqueueNextBorn` | engine.go:2120-2166 | enqueueing successors adds exactly one pending record and one item per successor, with the delay and retries of its definition |
| `EngineObjects.WorkflowEngine.HandleStepFailure` | engine.go:1564-1731 | retry, dead-letter mode, or final failure with rollback to the nearest savepoint, as in the model, whose effect `EngineFailures.RetryIsExact`, `DlqIsExact` and `FinalFailureIsExact` state |
| `EngineFailures.MayRetryIff` | engine.go:1573-1586 | a failed step is retried if and only if it has failed less often than MaxRetries, or than once if it is not idempotent |
| `EngineFailures.RetryIsExact` | engine.go:1573-1586 | a retry: the step is failed, counted once more and gets one urgent item; nothing else changes |
| `EngineFailures.DlqIsExact` | engine.go:1590-1634 | the dead-letter mode: the step and every running step are paused, the items of the instance are gone, exactly one dead letter names the step, the instance is in dlq |
| `EngineFailures.FinalFailureIsExact` | engine.go:1636-1731 | a final failure on a tree: the step failed, its siblings skipped, exactly the eligible steps on the path to the nearest savepoint and beside it undone, each as its definition and counter say, the instance failed |
| `EngineFailures.SnapshotIsYoungest` | engine.go:2351-2377 | the rollback judges a name by the youngest record of the instance that bears it, and knows every name the instance has; a join that learns of a step late goes by the oldest |
| `EngineRetries.FailureIsExact` | engine.go:1564-1586 | in every transition in which the handler of a task fails, the task is put back if and only if its failures are below the limit |
| `EngineRetries.LastFailureLeaves` | engine.go:1588-1731 | a failure that may not be retried ends the running of the instance when every join told of it has a state |
| `EngineRetries.RetriesAreExact` | engine.go:1573-1586 | over every run in which the instance is running, a task is put back exactly as often as its handler failed, up to MaxRetries, or up to once if not idempotent |
| `EngineRetries.LeavesAfterAllRetries` | engine.go:1573-1586 | when a failure of a task makes its instance leave running, the task was put back exactly MaxRetries times, exactly once if not idempotent |
| `EngineObjects.WorkflowEngine.NotifyJoinSteps` | engine.go:1839-1974 | reports the outcome to every waiting join in map order and creates the steps of those that became ready; an error if and only if a waiting join has no state |
| `EngineObjects.WorkflowEngine.NotifyJoinStepsForStep` | engine.go:1735-1837 | likewise for one join: reported once, its step created when it is ready, has none and no branch step is pending |
| `EngineObjects.WorkflowEngine.SettleBranch` | engine.go:1434-1517 | below a condition the ended step replaces the virtual entry of the join and is reported; otherwise a step that ends a branch is added to the wait list once |
| `EngineSettles.SettleReplaces` | engine.go:1435-1467 | below a condition the ended step takes the place of the virtual entry of the join behind the fork and its outcome is counted there; no other join changes |
| `EngineSettles.SettleAdds` | engine.go:1468-1516 | elsewhere a step that succeeds and ends its branch is awaited once by that join, unless the join waits for a condition; a join without a state gets one; no other join changes |
| `EngineSettles.SettlesNothing` | engine.go:1434-1517 | in all other cases nothing changes |
| `EngineObjects.WorkflowEngine.HasPendingStepsInParallelBranches` | engine.go:2599-2668 | true if and only if a pending or running step that the join does not wait for begins or descends from a branch of the awaited fork |
| `EngineBranches.BranchPendingIs` | engine.go:2599-2668 | on a tree: some pending or running step below a branch of the awaited fork is not awaited itself |
| `EngineObjects.WorkflowEngine.FindJoinStepForForkBranch` | engine.go:2975-3054 | the first join behind the fork whose branches contain the step |
| `EngineBranches.ForkFound` | engine.go:2975-3054 | on a tree, for every map order, the search finds the closest fork above the step |
| `EngineBranches.EndsBranchIs` | engine.go:2911-2973 | on a tree a step ends a branch if and only if it is no join, has no Next and lies below a fork |
| `EngineObjects.WorkflowEngine.FindConditionStepInBranch` | engine.go:3056-3084 | the nearest condition above the step on the Prev chain |
| `EngineBranches.ConditionFound` | engine.go:3056-3084 | on a tree the search finds the closest condition above the step |
| `EngineJoins.NotifyAllTable` | engine.go:1839-1974 | every join of the list that waits for the step hears of it exactly once and every other join is unchanged; complete if and only if every waiting join has a state |
| `EngineJoins.NotifyAllCreates` | engine.go:1839-1974 | a report creates only join steps, each the first of its name, with its join ready; old steps are untouched |
| `EngineJoins.CreatedIff` | engine.go:1735-1974 | after a complete report a join has a step if and only if it had one, or it waits for the step, the report makes it ready and at its turn nothing is pending in its branches |
| `EngineJoins.NotifyTwice` | engine.go:1735-1837 | reporting the same outcome twice changes nothing more, so a join that has to wait for its branches may be told again |
| `EngineJoinRuns.JoinStepsWereReady` | engine.go:318-502 | over every run of definitions without join heads, whenever a join step appears its join is ready and it is the first of its name |
| `EngineJoinRuns.JoinStepHasCause` | engine.go:318-502 | every join step of a reachable store appeared in a transition of the run, and its join was ready then |
| `EngineJoinRuns.JoinStepsAreUnique` | engine.go:1735-1837 | over every run an instance has at most one step per join |
| `EngineJoinRuns.BuiltHasNoJoinHeads` | builder.go:175-495 | accepted builder programs have no join heads, so both hold for what the builder makes |
| `EngineObjects.WorkflowEngine.EnqueueCompletedStepsForRollback` | engine.go:2023-2117 | the reactive rollback of completed steps after the last savepoint, as `EngineReactions.ReactionIsExact` states it |
| `EngineReactions.ReactionIsExact` | engine.go:2023-2117 | a step changes if and only if it is completed and younger than every savepoint record of the instance: with a compensation link it ends in compensation with counter zero and one new item, youngest first, without one it ends rolled back; every other step, item and letter is unchanged |
| `EngineObjects.WorkflowEngine.CompleteWorkflow` | engine.go:2195-2264 | completed, failed, or left open while compensation runs |
| `EngineReactions.CompletionIsExact` | engine.go:2195-2264 | completed if no step failed or was rolled back; otherwise the reaction, and failed unless a compensation is still to come |
| `EngineObjects.WorkflowEngine.HandleCancellation` | engine.go:850-939 | skips active steps and, for a cancel, rolls back from the last completed step to the root |
| `EngineFailures.AbortIsExact` | engine.go:924-938 | an abort skips exactly the open steps, ends the instance and forgets the request |
| `EngineFailures.CancelIsExact` | engine.go:850-939 | a cancel on a tree skips exactly the open steps and undoes exactly the eligible steps on the path from the youngest completed one to the root and beside it |
| `EngineObjects.WorkflowEngine.StopParallelBranchesInFork` | engine.go:2802-2858 | skips exactly the pending and running steps, not named like the failed one, that begin or descend from a branch of its fork |
| `EngineBranches.SiblingsAre` | engine.go:2802-2858 | on a tree: a failed step that begins a branch skips exactly the other pending and running steps below the branches of its fork; a failure anywhere else skips none |
| `EngineObjects.WorkflowEngine.Start` | engine.go:169-220 | one start transition, if and only if the definition exists and passes validation |
| `EngineOutcomes.StartIsExact` | engine.go:169-220 | an accepted start adds exactly one running instance and its start step, pending with one item |
| `EngineObjects.WorkflowEngine.ValidateForStart` | engine.go:2287-2305 | decides whether the definition is named, its start exists and it is valid |
| `EngineObjects.WorkflowEngine.RequestCancel` | engine.go:579-647 | one cancel transition, refused after the end |
| `EngineOutcomes.RequestIsExact` | engine.go:579-647 | a request is stored if and only if the instance exists and has not ended and none is stored; a later one changes nothing |
| `EngineSteps.StepStepped` | engine.go:746-848 | executing a step is tame (other instances untouched, steps only evolve in the allowed ways, nothing executed again), a retry within the condition, or the freeze |
| `EngineSteps.CompensationLocal` | engine.go:941-1077 | an attempt touches only its own step; one that stays in compensation was within the limit and is counted |
| `EngineRuns.ExecuteEffect` | engine.go:318-502 | a stale item is dropped together with the item that bears the step's number; any other item affects its own instance only |
| `EngineRuns.NextWell` | engine.go:318-502 | every transition keeps the store well formed |
| `EngineRuns.DlqFreeze` | engine.go:364-369 | in every run, once an instance is in dlq it stays there, its queue stays empty and no handler runs for it, whatever is done to any instance |
| `EngineRuns.EntersIce` | engine.go:1590-1634 | an instance enters dlq with nothing queued |
| `EngineBounds.RetryBound` | engine.go:1573-1586 | in every run a step is put back for execution at most MaxRetries times, at most once if not idempotent |
| `EngineBounds.CompensationBound` | engine.go:991-1039 | while a step stays in compensation its handler runs at most as often as its remaining attempts allow, plus the attempt that ends it |
| `EngineBounds.CompensationFromEntry` | engine.go:2514-2557 | from entering compensation on: at most the compensation step's MaxRetries runs, one more if the counter began at zero (the reactive path) |
| `SagaChains.NearestIsProtected` | engine.go:2318-2349 | on a chain the savepoint search ends at the last savepoint before the step |
| `SagaSteps.QueuedStep` | engine.go:318-502 | every item of a saga leads to its last step while running, or to a step in compensation when failed |
| `SagaRollback.FailedFrom` | engine.go:1636-1731 | a final failure reverts exactly the steps after the nearest savepoint, each as its definition and counter say, and keeps the earlier ones completed |
| `SagaRollback.AttemptSaga` | engine.go:941-1077 | a compensation attempt keeps the invariant of a failed saga |
| `SagaCancel.CancelledHalts` | engine.go:850-939 | serving a cancel request on a running linear saga reverts every completed step, savepoint or not, and skips the last; an abort keeps them; nothing else stays queued |
| `SagaCancel.HaltedAttempt` | engine.go:941-1077 | compensation after a cancellation keeps the halted invariant, also when it sets the instance to failed |
| `SagaRuns.SagaStep` | engine.go:318-502 | every transition that does not drop one of its items by mistake keeps a saga a saga, or halts it if a cancel request was waiting |
| `SagaRuns.HaltedStep` | engine.go:318-502 | a halted saga stays halted, whatever is requested of it |
| `SagaRuns.SagaRun` | engine.go:318-502 | over every run without a cancel request for the instance the strict invariant holds, among any other workflows |
| `SagaRuns.SagaBegins` | engine.go:169-220 | a started linear instance satisfies it |
| `SagaRuns.LinearSagaSafety` | engine.go:318-502 | in a store of linear workflows, after any run, every instance is a saga (created steps are a prefix of the chain, all but the last completed while running, all when completed, split at the nearest savepoint when failed) or was halted by a cancel request |
| `SagaRuns.CancelIgnoresSavePoints` | engine.go:895-916 | after a cancellation even a step behind a savepoint is no longer completed, so the failed invariant does not hold |
| `SagaRuns.HaltedQueue` | engine.go:850-939 | after a cancellation exactly the steps in compensation are queued, once each, and nothing after an abort |
| `SagaRuns.SagaQueue` | engine.go:318-502 | exactly one queue item while running, none when completed, exactly one for each step in compensation when failed |
| `SagaRuns.ForeignItemLostIff` | engine.go:398-405 | executing an item deletes an item of another instance if and only if the step is skipped, paused or rolled back, its instance is not in dlq, and the deleted item bears the step's number |
| `SagaRobbery.ForeignItemLost` | engine.go:398-405 | a run from a store without instances (a retried late task beside a fork whose branch fails) in which that deletes the only item of a running saga, which is then running with nothing queued |
| `SagaRobbery.StuckForever` | engine.go:318-502 | an instance with nothing queued keeps its status and an empty queue over every run |
| `SagaWitness.RunsThrough` | engine.go:318-502 | every accepted linear workflow can be run from a new store until any wanted number of its steps exists |
| `SagaWitness.CancelUndoesProtected` | engine.go:850-939 | in every accepted linear workflow with a savepoint before its last step, some run completes the savepoint and, cancelled, leaves neither it nor any step before it completed |
| `SagaWitness.CancelExample` | engine.go:850-939 | such a run of a task, a savepoint and a task, made by the builder |
| `SagaBuilds.StraightBuildsLinear` | builder.go:46-119 | what an accepted program of Step, OnFailure and SavePoint, opened by Step, builds is a linear workflow along its steps and savepoints and passes the validation of a start |
| `SagaBuilds.CompleteStraightBuildsLinear` | builder.go:46-635 | every complete such program with fresh valid names is accepted and builds one |
| `SagaBuilds.NewStoreSagas` | engine.go:169-220 | a store with linear definitions and no instance satisfies what linear saga safety asks of the first store of a run |

## Left out

- Human-decision steps: `ExecuteNext` is modelled for definitions without them, because the result depends on whether the store hands out a pointer or a copy of the step.
- `RequeueFromDLQ`: the three stores disagree on what it does; the freeze and the bounds are stated for runs without it.
- `Builder.Parallel` and explicit `JoinStep` wait lists: their join is attached to the step before the block, so the tree shape does not hold.
- Overwriting a step through OnFailure, Fork, Join, SavePoint or Condition with a name in use: the tree, join and acceptance results are for programs with fresh names.
- The index in the names of sub-builders, and sub-builders shared by reference: sub-builders are values, so later changes to a sub-builder through a kept pointer are not captured.
- `EngineRuns.Next`: definitions do not change during a run, every loop of one execution visits the definition's map in the same order, and transitions are atomic, so a cancel request that arrives while a handler runs takes effect at the next execution.
- `EngineObjects.WorkflowEngine.ExecuteNext`: handler results, condition outcomes and the jittered cooldown are inputs; shutdown, plugins, timeouts, payloads, events and log throttling are not modelled; error returns for instances and steps that a well-formed store cannot miss are in the model function `Engine.Execute` only.
- `MemoryStores.MemoryStore.GetStepsByInstance`: creation times are taken to grow with creation order, so sorting by them is the order of the id list.
- `MemoryStores.MemoryStore.AddToJoinWaitFor`: a missing join is created, as in store.go; memory_store.go would lock itself there.
- `MemoryStores.MemoryStore.ReplaceInJoinWaitFor`: the status of the real step is that of the oldest step of its name, as in memory_store.go; store.go looks at the youngest.
- `SagaRuns.SagaRun`: the strict failed phase is for instances nobody asked to cancel; a cancelled instance, whose status compensation may set to failed, satisfies the halted invariant instead.
- `EngineRetries.RetriesAreExact`: stated for tasks, while the instance is running and the task is neither undone nor paused; compensation may raise the attempt counter of a record later, and a failure that finds an awaiting join without a state leaves the instance running with the step failed or paused.
- `EngineFailures.FinalFailureIsExact`: the extent of the rollback is stated on trees, which is what the builder makes; on other graphs `Rollback.WalkChainSound` holds. `EngineFailures.CancelIsExact` likewise.
- `EngineBounds.CompensationBound`: for the in-memory store; the SQL store does not read the compensation counter back.
- `DefinitionCache.CacheIsTransparent`: rows are values; a caller that changes a returned definition through its pointer is not modelled, and a save inside a transaction that is rolled back neither.
- `Queue.FormulasAgreeIff`: over the reals; floating-point rounding is not modelled, nor is overflow in retry delays.
- sqlite_store.go, YAML parsing, the HTTP API, monitoring, migrations, clean-up of old workflows and the statistics queries.
