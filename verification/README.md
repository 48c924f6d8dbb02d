# Runvane, verified

A Dafny model of the parts of the Runvane workflow orchestrator that carry its
guarantees, with proofs of what they promise.

Three connected parts are modelled.

**The lease queue and the dispatch protocol.** `Queue` holds the queue entries and
the in-memory store (`MemoryStore`), `Backends` the SQL store's guarded updates
(`SqliteStore`) and the simulation between the two. `Leases` is a step system of
workers contending for leases over either store; its calls may carry stale clock
readings. `Dispatch` is the whole protocol as a step system: submissions, claims,
`mark_running`, a bounded channel, attempts, heartbeats, cancellations, panics,
retries, reaping, clock ticks and crashes of the process. `Loss` says exactly when a
run is lost and why the protocol loses none, `Marking` exactly when `mark_running`
can fail, `Schedule` when a retried run becomes ready again, `Lapse` holds the
complete runs of the system in which a run is lost, an entry stranded or a delay lost,
`Dispatcher` refines one dispatcher round to the step system, and
`Retention` covers the sweep of finished runs.

**Ordering, simulation and execution of the task graph.** `Graph` and `Waves` hold
chains, cycles and the wave decomposition, `TopoOrder`, `DryRun`, `CriticalPath` and
`Reachability` the algorithms over them, `Pick` and `Executor` the picker and the
attempt. `TaskSafety`, `Attempts`, `Budgets`, `Skips`, `Agreement`, `Lifecycle` and
`Panics` hold what is proved about one attempt, about any number of attempts, about
attempt budgets, about skips, about the simulator and the executor side by side, about
a run from submission to its end, and about what a handler's panic does to it.

**Small stateful algorithms.** `IdCodec` and `TaskRunIds`, `FairShare`,
`LeakyBucket`, `Backoff`, `LruStore` and `Watcher`.

`Names` and `Domain` hold string order and the shared records.

## How it is set up

Code that works by changing things is a method or a class, tied by its `ensures` to
a specification function or property; the laws are lemmas about those. Time,
handlers, cancellation and random draws are inputs: a handler is an arbitrary
function from task name and attempt number to success, failure or panic, a
cancellation an arbitrary set of passes that see it, a jitter draw any number.
Concurrency is a step system whose steps are the store's atomic calls.

Integers are unbounded except where the width matters: the codec's 64-bit buffer,
the saturating casts of the backoff curve and of the bucket's wait, and the
saturating addition of the release time are written out. Floating point is `real`.

## Where the code and its comments part ways

The model follows the code.

- A skipped task is never reconsidered, so a retried run can end `Succeeded` with
  skipped tasks, against the comment at `src/scheduler/executor.rs:364-366`.
  `Lifecycle.RetriedRunKeepsItsSkips` is such a run for any two task names;
  `Skips.SucceededWithSkips` says exactly when it happens.
- A task left `Running` by a caught panic is never picked up again
  (`Panics.RunningForever`), and no later attempt gets through `finalize`
  (`Panics.NeverThrough`). The retry budget then bounds nothing: the number of
  attempts of a live run that can still reach `finalize` is bounded exactly when none
  panicked (`Panics.ReachBoundedIff`).
- A run can be lost when a lease runs out under a live worker, in exactly two ways
  (`Loss.LostIff`, `Lapse.LapsedLeaseLosesRun`).
- A crash between `finalize` and the acknowledgement leaves an entry that no worker
  will ever remove, and every claim of it fails to mark the run
  (`Lapse.CrashStrandsEntry`, `Marking.StrandedForever`).
- A crash between writing a retry and releasing the entry loses the retry's delay, and
  nothing else does while no lease runs out (`Schedule.MistimedIff`,
  `Lapse.CrashLosesDelay`).
- The SQL store never hands out an expired lease, the memory store does; apart from
  the wording of refusals they differ nowhere else (`Backends.AnswersDifferIff`).
- `renew_lease` counts from now and can shorten a lease (`Backends.RenewSetsFromNow`).
- The id parser says that aliased encodings cannot slip through. They can:
  leftover bits go unread (`TaskRunIds.AliasesAreAccepted`).
- Two tasks can share a task-run id when a run id contains a colon
  (`TaskRunIds.ColonCollides`), which no parsed run id does
  (`TaskRunIds.ParsedRunIdHasNoColon`).
- The bucket's wait saturates at 64 bits and is then too short
  (`LeakyBucket.SaturatedWaitIsTooShort`), and a wait is reported even for a cost no
  wait will ever fit (`LeakyBucket.SomeWaitIsEnoughIff`).
- The watcher says a partly failed batch is observed again. Its watermark moves
  past every batch, so nothing is (`Watcher.FirstShownDecides`).
- The dry run reports `[""]` as the critical path of an empty definition, and
  `max_parallelism` is the widest wave, not the largest independent set
  (`CriticalPath.WidestStageIsNotLargestIndependentSet`).
- Full jitter can draw zero, although its comment excludes it
  (`Backoff.JitterReaches`).

## Model

| member | source | states |
|---|---|---|
| `Leases.MutualExclusion` | src/persistence/memory.rs:195-359 | on either store, for every run of claims, renewals, acks, releases, failed claims, recoveries, cancellations and clock ticks, with clock readings as stale as they like: no two workers are inside leases of one run, and the one inside owns the entry with that expiry |
| `Leases.AtMostOneInside` | src/persistence/model.rs:68-75 | the same from the empty queue: two workers inside a lease of the same run are one |
| `Leases.InsideWhileHeld` | src/persistence/memory.rs:220-321 | a granted claim puts its worker inside until the lease it asked for ends, a renewal until the new end, and giving the claim up takes it out |
| `Leases.StepKeepsExclusion` | src/persistence/memory.rs:220-321 | every single call of either store keeps the lease invariant |
| `Leases.FencedForever` | src/persistence/memory.rs:249-321 | once a worker's token is on no entry, every later ack, release, failed claim or renewal with it is refused and changes nothing, to the end of the run |
| `Leases.ReplacedIsFenced` | src/persistence/memory.rs:220-359 | a token leaves an entry only by recovery, cancellation, a claim, or its own worker's call, and is then on no entry |
| `Leases.ReplacedStaysOut` | src/persistence/memory.rs:341-359 | after a worker's token was replaced, none of its calls reaches the queue again |
| `Backends.SqlStepIsMemoryStep` | src/persistence/sqlite.rs:360-536 | whatever the SQL guards accept, the memory store accepts with the same result |
| `Backends.SqlTraceIsMemoryTrace` | src/persistence/sqlite.rs:360-536 | every accepted SQL trace is an accepted memory trace through the same queues |
| `Backends.AnswersDifferIff` | src/persistence/sqlite.rs:402-426 | but for the wording of refusals (a missing row, a double insert) the stores answer alike, except exactly on a claim, with a new token, of an entry whose lease expired and was not cleared: there only the memory store accepts |
| `Backends.RecoveredStoresAgree` | src/persistence/sqlite.rs:526-536 | right after recovery at a time, both stores accept the same operations at that time with the same effect, refuse the rest with corresponding errors, and scan the same entries |
| `Backends.SameReady` | src/persistence/sqlite.rs:377-400 | the SQL condition selects the same ready entries as the memory store's filter |
| `Backends.RenewSetsFromNow` | src/persistence/memory.rs:302-321 | a renewal shortens the lease exactly when the extension is less than what was left |
| `Backends.SqliteStore.Enqueue` | src/persistence/sqlite.rs:360-375 | inserts, or fails on an existing row |
| `Backends.SqliteStore.Claim` | src/persistence/sqlite.rs:402-426 | the guarded update: only a cleared lease or the same token |
| `Backends.SqliteStore.Ack` | src/persistence/sqlite.rs:428-434 | the guarded delete |
| `Backends.SqliteStore.Release` | src/persistence/sqlite.rs:436-453 | the guarded release |
| `Backends.SqliteStore.FailClaim` | src/persistence/sqlite.rs:455-468 | the guarded return of a claim |
| `Backends.SqliteStore.RenewLease` | src/persistence/sqlite.rs:470-489 | the guarded renewal; a missing lease never renews |
| `Queue.MemoryStore.Enqueue` | src/persistence/memory.rs:195-205 | adds the entry, or reports a conflict and changes nothing |
| `Queue.MemoryStore.ScanReady` | src/persistence/memory.rs:207-218 | distinct ready entries in due order, as many as the limit allows, none left behind that is due before one taken |
| `Queue.MemoryStore.Claim` | src/persistence/memory.rs:220-247 | grants or refuses as the lease and the token demand, and says which error |
| `Queue.MemoryStore.Ack` | src/persistence/memory.rs:249-260 | removes the entry for its token only |
| `Queue.MemoryStore.Release` | src/persistence/memory.rs:262-283 | clears the lease and reschedules, for its token only |
| `Queue.MemoryStore.FailClaim` | src/persistence/memory.rs:285-300 | clears the lease and keeps the due time, for its token only |
| `Queue.MemoryStore.RenewLease` | src/persistence/memory.rs:302-321 | a new expiry, for its token and an unexpired lease only |
| `Queue.MemoryStore.CancelRun` | src/persistence/memory.rs:323-339 | a live run becomes cancelled and leaves the queue in one step; a finished run is left alone |
| `Queue.MemoryStore.RecoverExpiredLeases` | src/persistence/memory.rs:341-359 | clears exactly the expired leases and counts them |
| `Loss.StepLosesIff` | src/scheduler/executor.rs:402-451 | with no lease assumed intact: a step leaves a live run, not lost before, without an entry exactly when it is a retry written while the run is out of the queue, or an acknowledgement by the token on the entry while the run is live |
| `Loss.LostIff` | src/scheduler/pool.rs:189-253 | over every run of the system: a run is ever live without an entry exactly when some step is one of those two |
| `Loss.LostForGood` | src/scheduler/pool.rs:101-253 | what is out of the queue never comes back |
| `Loss.UnlapsedNeverLoses` | src/scheduler/pool.rs:189-253 | as long as no active claim's lease runs out, no step is a losing one |
| `Loss.NoRunIsLost` | src/scheduler/pool.rs:101-253 | so then every submitted run that is queued or running has exactly one queue entry in every reachable state, through full channels, errors, panics, retries, cancellations, reaping and crashes |
| `Dispatch.StepKeepsInv` | src/scheduler/pool.rs:101-253 | every step of the protocol keeps the invariant: an active claim owns the entry or its run is over, and only runs that are over are acknowledged |
| `Dispatch.StepFollowsMachine` | src/state/run_fsm.rs:47-60 | whatever a step does to a run record, its status follows the run machine; a retry goes through failed |
| `Dispatch.OverForGood` | src/scheduler/pool.rs:101-253 | as long as no active claim's lease runs out, the record of a finished run never changes again |
| `Dispatch.MarkTakesEffect` | src/scheduler/pool.rs:143-160 | marking a queued run stamps its start, leaves a running one as it is, and fails on any other |
| `Dispatch.CancelTakesEffect` | src/persistence/memory.rs:323-339 | cancelling takes a live run out of the queue in the same step and leaves a finished one alone |
| `Dispatch.ActiveCanMove` | src/scheduler/pool.rs:101-253 | no claim is ever stuck: whoever acts on it has a next step |
| `Dispatch.WorkCanEnd` | src/scheduler/executor.rs:206-318 | a worker at work sees a cancellation or ends in any way `finalize` may decide |
| `Dispatch.GrantedWasFree` | src/scheduler/pool.rs:110-113 | a granted claim is of an entry that no active claim owned |
| `Dispatch.OthersUndisturbed` | src/scheduler/pool.rs:189-213 | what one active claim does to its run and entry breaks no other claim |
| `Dispatch.FinalizeDecides` | src/scheduler/executor.rs:350-475 | finalizing a running run writes nothing and errs, or queues it again and releases, or ends it and acknowledges |
| `Dispatch.ShortAttemptIsStart` | src/scheduler/executor.rs:158-197 | an attempt that ends before its loop does to run and entry what the protocol's start step does |
| `Dispatch.LongAttemptIsFinish` | src/scheduler/executor.rs:199-318 | an attempt that reaches `finalize` ends as the protocol's finish step may |
| `Dispatch.AdmittedIsWorking` | src/scheduler/executor.rs:157-197 | an attempt gets to its loop exactly when the protocol's start step puts the worker to work |
| `Dispatch.LongAttemptIsStep` | src/scheduler/pool.rs:200-213 | an attempt that gets to its loop ends as one step of the protocol: the same record written, the same action on the entry next, errors and panics released at once |
| `Marking.GrantedRunCanBeMarked` | src/scheduler/pool.rs:113-127 | with claiming and marking as one step, `mark_running` after a granted claim fails exactly when a crash had stranded the entry; without crashes the case is unreachable |
| `Marking.MarkFailsIff` | src/scheduler/pool.rs:143-160 | with other steps in between, crashes included, `mark_running` fails exactly when the run was cancelled, and then the entry is gone, or when the entry is stranded |
| `Marking.StrandedForever` | src/scheduler/executor.rs:158-172 | the entry of a finished, not cancelled, run that no worker is about to acknowledge never leaves the queue, whatever happens |
| `Marking.OnlyCrashesStrand` | src/scheduler/pool.rs:189-213 | without a crash no entry is ever stranded |
| `Marking.GoneForGood` | src/scheduler/pool.rs:121-127 | a run that is over and out of the queue stays as it is and stays out, whatever claims and jobs still act on it |
| `Marking.StepKeepsTidy` | src/scheduler/pool.rs:101-253 | every step but a crash keeps, stranded entries apart: an entry of a run that is over is about to be acknowledged, and an active claim of a queued run owns it |
| `Schedule.SubmittedFor` | src/api/server.rs:527-541 | a submitted run's entry is free and ready from the time of submission on |
| `Schedule.ReleasedFor` | src/scheduler/pool.rs:246-253 | after the holder applies a release for a time, the entry has no token and no lease, is due at that time, and is ready from exactly then on |
| `Schedule.GivenBack` | src/scheduler/pool.rs:121-134 | a claim that is given back leaves the entry free and due when it was |
| `Schedule.HeartbeatRenews` | src/scheduler/executor.rs:249-254 | a heartbeat under the holder's running lease moves its end, and changes nothing else |
| `Schedule.StepKeepsTimed` | src/scheduler/pool.rs:101-253 | every step keeps, unless it is a crash that cuts off a release: a queued run's entry is due when its record says, or its holder is about to release it for that time |
| `Schedule.MistimedIff` | src/scheduler/pool.rs:204-253 | over every run in which no active claim's lease runs out: a queued run that nobody acts on is ever due at another time than its record says exactly when some crash comes between writing its retry and releasing its entry |
| `Schedule.RetryWaits` | src/scheduler/executor.rs:421-451 | without crashes, a run put back for a time that nobody acts on is ready from exactly that time on, and no scan returns it earlier |
| `Lapse.LapsedLeaseLosesRun` | src/scheduler/pool.rs:189-213 | without the condition on leases both losing steps happen: two complete runs of the system that end with a queued run and no entry, one by a late retry, one by a late acknowledgement |
| `Lapse.CrashStrandsEntry` | src/scheduler/pool.rs:204-213 | a complete run, with no lease run out, in which a crash strands an entry that is then claimed again and fails to be marked |
| `Lapse.CrashLosesDelay` | src/scheduler/pool.rs:204-253 | a complete run, with no lease run out, in which a crash leaves a run that was put back for time 1000 ready at time 20 |
| `Dispatcher.ScannedCanBeTaken` | src/scheduler/pool.rs:101-112 | every scanned entry can be claimed and its run marked |
| `Dispatcher.Dispatcher.TryOne` | src/scheduler/pool.rs:110-134 | one entry: which of the three outcomes it has on the state before, and what it leaves: nothing, a leased entry with its run running and its job submitted, or a free entry due when it was; every other run and entry alone |
| `Dispatcher.Dispatcher.TryAll` | src/scheduler/pool.rs:109-135 | the scanned entries in turn, each with the outcome its state gives it, and the counts of those outcomes |
| `Dispatcher.Dispatcher.Step` | src/scheduler/pool.rs:101-136 | a round scans, tries every scanned entry, counts, and is a run of the step system; on the memory store, without crashes, none is contended and as many jobs are submitted as the channel has room for |
| `Retention.SweepSparesRunsInFlight` | src/persistence/mod.rs:145-159 | under any interleaving of writers with snapshots of any age, every record ever stored is stamped finished exactly when its status is terminal, and a run the sweep deletes was over when it was listed |
| `Retention.AttemptWritesSettled` | src/scheduler/executor.rs:175-475 | an attempt stamps the record exactly when it ends the run |
| `Retention.StepKeepsRecords` | src/scheduler/pool.rs:143-160 | submitting, marking, attempting, cancelling, listing and deleting keep that |
| `Retention.AttemptLands` | src/scheduler/executor.rs:175-475 | what an attempt writes is what is stored next, whatever was stored before |
| `Retention.MarkAndCancelLand` | src/scheduler/pool.rs:143-160 | marking writes its snapshot back as running, cancelling the stored record, if it is live |
| `Retention.SweepTakesFinished` | src/persistence/mod.rs:149-159 | a run finished by the cutoff, once listed, can be swept, and then only it is gone |
| `Retention.RunStore.ReapFinishedRuns` | src/persistence/mod.rs:149-159 | removes exactly the runs finished by the cutoff, with their task records, counts them, keeps every run in flight |
| `TopoOrder.TopoOrder` | src/domain/dag.rs:18-80 | succeeds exactly when every dependency names a task and there is no cycle; the result is an order, and the lexicographically least one; otherwise the first dangling edge or a cycle is reported |
| `TopoOrder.Kahn` | src/domain/dag.rs:43-74 | takes the least ready task each time until nothing is ready |
| `TopoOrder.CheckEdges` | src/domain/dag.rs:30-42 | finds the first dangling edge, exactly when there is one |
| `TopoOrder.BuildDeps` | src/domain/dag.rs:19-28 | the dependency graph of the task list |
| `TopoOrder.GreedyIsLeast` | src/domain/dag.rs:43-74 | always taking the least ready task gives the lexicographically least order |
| `TopoOrder.OrderedIsAcyclic` | src/domain/dag.rs:76-79 | a graph that has an order has no cycle |
| `Names.FirstDifferenceDecides` | src/domain/dag.rs:43-74 | names are ordered by the first character that differs |
| `Names.PrefixIsLess` | src/domain/dag.rs:43-74 | and a proper prefix comes first |
| `Waves.WaveIffLongestChain` | src/engine/dry_run.rs:114-153 | a task is in wave k exactly when its longest dependency chain has k + 1 tasks |
| `Waves.CountIsLongestChain` | src/engine/dry_run.rs:114-153 | the number of waves is the length of the longest chain |
| `Waves.WavesAreMinimalGrouping` | src/engine/dry_run.rs:114-153 | no partition into mutually independent groups has fewer groups than there are waves |
| `Waves.WavesAreAGrouping` | src/engine/dry_run.rs:114-153 | the waves are such a partition |
| `DryRun.BuildIndexes` | src/engine/dry_run.rs:98-112 | in-degrees and the list of dependents, with multiplicity |
| `DryRun.Stages` | src/engine/dry_run.rs:114-153 | the stages are the waves, each in name order, all of them |
| `CriticalPath.RelaxStage` | src/engine/dry_run.rs:166-179 | relaxing a stage in order keeps every distance justified by a chain and above its dependencies' |
| `CriticalPath.DistIsLongestChain` | src/engine/dry_run.rs:157-179 | the final distance of a task is the length of its longest chain |
| `CriticalPath.EndTask` | src/engine/dry_run.rs:181-192 | the first name at the greatest distance |
| `CriticalPath.FollowBack` | src/engine/dry_run.rs:194-200 | following predecessors and reversing gives a chain |
| `CriticalPath.LongestPath` | src/engine/dry_run.rs:157-200 | the path is a dependency chain of maximum length, as long as there are stages |
| `CriticalPath.WidestStage` | src/engine/dry_run.rs:155 | the width of the widest stage |
| `CriticalPath.SimulateWorkflow` | src/engine/dry_run.rs:94-242 | a report exactly for resolved acyclic definitions; its stages are the waves and its critical path a longest chain, as long as there are stages |
| `CriticalPath.StageIsLongestChain` | src/engine/dry_run.rs:114-153 | each task is in exactly one stage, once, at the index given by its longest chain |
| `CriticalPath.StagesAreFewest` | src/engine/dry_run.rs:114-153 | no partition into independent groups is smaller than the number of stages |
| `CriticalPath.WidestStageIsNotLargestIndependentSet` | src/engine/dry_run.rs:155 | a definition whose stages are at most three wide and that has four mutually independent tasks |
| `Reachability.IsTransitiveDependency` | src/engine/dry_run.rs:244-265 | the worklist search answers whether the target is a direct or indirect dependency, on any graph |
| `Reachability.ReachesIsAncestor` | src/engine/dry_run.rs:244-265 | on a resolved graph that is being an ancestor by a dependency chain |
| `Pick.ReadyTasks` | src/scheduler/pick.rs:20-43 | the sorted ready tasks |
| `Pick.ReadyMeaning` | src/scheduler/pick.rs:20-43 | exactly the failed tasks and the pending ones whose dependencies all succeeded, ascending, without repeats |
| `Pick.PendingToSkip` | src/scheduler/pick.rs:49-75 | the fixpoint loop marks exactly the pending tasks with a dependency that did not succeed |
| `Executor.RunExecutor.CallHandler` | src/scheduler/executor.rs:240-303 | one handler call: start, outcome, or a panic that leaves the task running |
| `Executor.RunExecutor.DispatchLoop` | src/scheduler/executor.rs:206-305 | passes until nothing is ready, a cancellation is seen, or a handler panics: records, writes in order, passes and end are the loop function's |
| `Executor.RunExecutor.SkipNames` | src/scheduler/executor.rs:307-316 | stores the freshly skipped tasks |
| `Executor.RunExecutor.AttemptWithToken` | src/scheduler/executor.rs:141-319 | the attempt: stored tasks, every write in order, the passes, the stored run and the outcome are those of the attempt function the lemmas are about |
| `TaskSafety.LoopSafe` | src/scheduler/executor.rs:206-305 | the loop writes only legal edges, starts only tasks whose dependencies succeeded, each at most once, changes no skip, and stops drained only when nothing is ready |
| `TaskSafety.CallSafe` | src/state/task_fsm.rs:39-50 | every write of a handler call is a legal edge |
| `Attempts.AttemptSafe` | src/scheduler/executor.rs:141-319 | the same of a whole attempt, skips included |
| `Attempts.NoHandlerRunsAhead` | src/scheduler/pick.rs:20-43 | over any number of attempts, whatever handlers do: every started task has all its dependencies succeeded, every write is a legal edge from the stored status, and each task is started at most as often as its own policy allows, or the workflow's where it has none |
| `Attempts.DoneForGood` | src/state/task_fsm.rs:39-50 | over any number of attempts, a task succeeds only while it runs, and one that succeeded or was skipped is never written again |
| `Budgets.DispatchedIff` | src/scheduler/executor.rs:219-236 | a pass dispatches exactly the pending tasks whose dependencies have all succeeded and the failed ones with attempts left by their own policy, or the workflow's, unless this attempt executed them already |
| `Budgets.FinalizeRetriesIff` | src/scheduler/executor.rs:402-474 | with a failed task, a running run is queued again exactly when the workflow's policy allows one more attempt and so does every failed task's own; otherwise it has failed, with the least failed name in its error; in either case the whole record |
| `Budgets.FinalizeSucceeds` | src/scheduler/executor.rs:356-386 | without a failed task it has succeeded, or `finalize` errs because a task is not terminal |
| `Budgets.AttemptRetriesIff` | src/scheduler/executor.rs:141-475 | how a whole attempt ends, on the task records it stores: succeeded, queued again or failed, each exactly when |
| `TaskSafety.LimitIsThePolicys` | src/domain/workflow.rs:90-93 | a task's budget is its own policy's, or the workflow's where it has none |
| `Domain.EdgesByTarget` | src/state/task_fsm.rs:39-50 | both status machines by target: what exactly may come before each status |
| `Attempts.EveryTaskTerminal` | src/scheduler/executor.rs:350-362 | on any graph, cyclic included, an attempt that reaches `finalize` gets through it exactly when no task was left running before, and exactly then every task is terminal |
| `Attempts.FinalTask` | src/scheduler/pick.rs:49-75 | what each task's final status is in terms of the loop's outcome |
| `Skips.FinalizedRunIsConsistent` | src/state/invariant.rs:33-87 | an attempt that starts with no running task ends with a run and tasks that pass the consistency check |
| `Skips.ConsistentIff` | src/state/invariant.rs:33-87 | what the consistency check accepts, run status by run status |
| `Skips.ComplaintsAreTrue` | src/state/invariant.rs:33-87 | what each of its complaints says is so, the task it names included |
| `Skips.SkippedIffFailureUpstream` | src/scheduler/executor.rs:307-316 | without earlier skips, on an acyclic resolved graph, the skipped tasks are exactly the proper descendants of failed ones |
| `Skips.SucceededWithSkips` | src/scheduler/executor.rs:364-374 | a succeeded run has a skipped task exactly when it had one before the attempt |
| `Agreement.PassIsStage` | src/scheduler/executor.rs:206-305 | with all earlier stages done, the next pass dispatches exactly the next stage |
| `Agreement.ExecutorFollowsStages` | src/engine/dry_run.rs:114-153 | when every handler succeeds and nothing is cancelled, the executor's passes are the dry run's stages, in order and in number |
| `Agreement.SimulateAndRun` | src/engine/dry_run.rs:94-242 | the two programs side by side: for a run that is admitted, with every handler succeeding and nothing cancelled, the passes the executor object makes are the stages the dry run reports |
| `Lifecycle.BoundedRetries` | src/scheduler/executor.rs:402-451 | over any sequence of dispatches, panics included, at most `max_attempts` attempts get through `finalize`, and a live run's counter stays below it |
| `Panics.ReachedWithinBudget` | src/scheduler/executor.rs:402-451 | over any sequence of dispatches without a panic, at most `max_attempts` attempts reach `finalize` |
| `Panics.ReachBoundedIff` | src/scheduler/pool.rs:207-211 | of a submitted run that is not over, the attempts that ever reach `finalize` are bounded by `max_attempts`, however many quiet dispatches follow, exactly when no dispatch so far panicked |
| `Panics.ThroughIffNoneRunning` | src/scheduler/executor.rs:350-362 | a dispatch that reaches `finalize` gets through it exactly when no task was left running |
| `Panics.LeftRunningIff` | src/scheduler/pool.rs:207-211 | after any dispatches a task is left running exactly when one was before or one of them panicked |
| `Panics.RunningForever` | src/scheduler/pick.rs:25-36 | a task left running stays running for the rest of the run's life |
| `Panics.NeverThrough` | src/scheduler/executor.rs:350-362 | from then on no attempt gets through `finalize` |
| `Panics.PanicLeavesTaskRunning` | src/scheduler/pool.rs:207-211 | a submitted run whose first handler panics, and what becomes of it |
| `Lifecycle.DispatchSpendsBudget` | src/scheduler/executor.rs:402-451 | every finalization uses up budget and nothing restores it |
| `Lifecycle.FinalizeBudget` | src/scheduler/executor.rs:350-475 | a retry is queued with one attempt more and within budget; otherwise the run is over |
| `Lifecycle.ReleaseWindow` | src/scheduler/executor.rs:402-451 | a retry's release time is a computed one, never the fallback, and lies between now and now plus the maximum delay |
| `Lifecycle.ReleaseTime` | src/scheduler/executor.rs:429-439 | without jitter it is exactly now plus the delay of the attempt that failed, on the policy's curve |
| `Lifecycle.TimesOutIff` | src/scheduler/executor.rs:174-197 | after any dispatches of a submitted run, the next dispatch of a live run times it out exactly when it starts past the deadline the run was submitted with, and then touches no task |
| `Lifecycle.CancelsIff` | src/scheduler/executor.rs:207-218 | a dispatch of a live run ends it as cancelled exactly when its loop sees a cancellation |
| `Lifecycle.RetriedRunKeepsItsSkips` | src/scheduler/pick.rs:25-36 | two dispatches of a two-task workflow that end succeeded with a skipped task |
| `Backoff.RawDelayCurve` | src/retry/backoff.rs:32-68 | for every kind, delays never fall with the attempt and stay between base and maximum |
| `Backoff.AtMostADay` | src/retry/backoff.rs:32-68 | a valid policy can ask for a hundred attempts and a delay of a day, and for no more |
| `Backoff.PowerLaws` | src/retry/backoff.rs:58 | the power function is one: its first power and the law of exponents |
| `Backoff.LinearDelay` | src/retry/backoff.rs:40-52 | the linear delay is the base plus so many equal steps, rounded down, cut at the maximum |
| `Backoff.ExponentialDelay` | src/retry/backoff.rs:53-65 | the exponential delay is the base times a power of the multiplier, rounded down, cut at the maximum |
| `Backoff.JitterBounds` | src/retry/backoff.rs:71-84 | a jittered delay never exceeds a positive raw one; equal jitter keeps half of it, no jitter all of it |
| `Backoff.JitterReaches` | src/retry/backoff.rs:71-84 | what each jitter draws over a positive raw delay: full jitter exactly the delays from zero to it, equal jitter exactly those from half of it to twice that half |
| `Backoff.NextAttemptWindow` | src/retry/backoff.rs:94-114 | a time exactly when another attempt is allowed, within the maximum delay of now |
| `Backoff.NextAttemptTime` | src/retry/backoff.rs:98-114 | without jitter, the exact time after attempt k + 1, saturation included: delay number k of the fixed, linear or exponential curve after now |
| `Backoff.JitteredTimes` | src/retry/backoff.rs:71-114 | below saturation, jitter spreads that time over exactly the range of its kind |
| `Backoff.TimeSaturates` | src/retry/backoff.rs:113 | at the end of the 64-bit clock the time saturates |
| `IdCodec.EncodeBase32hex` | src/domain/ids.rs:30-46 | the loop over the 64-bit buffer computes the encoding |
| `IdCodec.DecodeBase32hex` | src/domain/ids.rs:50-87 | the loop computes the decoding, with its errors |
| `IdCodec.Alphabet` | src/domain/ids.rs:28 | the digits are 0 to 9 and a to v, in that order and in lower case only |
| `IdCodec.EncodingMeans` | src/domain/ids.rs:30-46 | the digits spell the bytes' bits five at a time, filled up with fewer than five zeros, although the buffer drops high bits |
| `IdCodec.DecodingMeans` | src/domain/ids.rs:50-87 | the bytes are the whole ones among the digits' bits; fewer than eight bits go unread |
| `IdCodec.WordArithmetic` | src/domain/ids.rs:34-44 | the buffer's operations are shifts and masks modulo two to the 64 |
| `IdCodec.DecodeEncode` | src/domain/ids.rs:30-87 | decoding an encoding gives back every non-empty byte string within the limit |
| `IdCodec.EncodeDecode` | src/domain/ids.rs:30-87 | encoding a decoding gives back the text exactly when fewer than five bits are left over, all zero |
| `TaskRunIds.TaskRunIdInjective` | src/scheduler/executor.rs:83-86 | distinct runs or tasks have distinct ids, for run ids without a colon |
| `TaskRunIds.ParsedRunIdHasNoColon` | src/domain/ids.rs:205-230 | the parser lets no colon into a run id |
| `TaskRunIds.TaskRunIdsOfParsedRuns` | src/scheduler/executor.rs:83-86 | so for parsed run ids distinct runs or tasks have distinct ids |
| `TaskRunIds.ColonCollides` | src/scheduler/executor.rs:83-86 | with a colon they need not |
| `TaskRunIds.ParseAcceptsTaskRunId` | src/domain/ids.rs:205-230 | the parser accepts a task-run id exactly when run id, task name and two colons fit in 26 bytes |
| `TaskRunIds.ParseAcceptsIff` | src/domain/ids.rs:205-230 | what the parser accepts, in terms of the text |
| `TaskRunIds.ParseAnswers` | src/domain/ids.rs:205-230 | the parser hands back what it accepts, and which error it gives when |
| `TaskRunIds.AliasesAreAccepted` | src/domain/ids.rs:226-228 | two accepted ids with the same payload |
| `FairShare.FairShareDispatcher.Push` | src/scheduler/throttle.rs:204-210 | the item goes behind its tenant's, a new tenant behind the others |
| `FairShare.FairShareDispatcher.PopNext` | src/scheduler/throttle.rs:213-230 | the rotation's next item; nothing exactly when nothing is queued |
| `FairShare.PopServesFirst` | src/scheduler/throttle.rs:213-230 | a pop serves the tenant in front, oldest item first, and keeps the rotation valid |
| `FairShare.RunKeepsValid` | src/scheduler/throttle.rs:188-230 | in every reachable state the rotation lists exactly the tenants with items, once each |
| `FairShare.ServedInTurn` | src/scheduler/throttle.rs:213-230 | a tenant at position p is served by the pop after the next p, whatever is pushed in between |
| `FairShare.FirstInFirstOut` | src/scheduler/throttle.rs:204-230 | per tenant, what was queued and pushed is what was popped and is left, in that order |
| `LeakyBucket.Limiter.TryAcquire` | src/scheduler/throttle.rs:166-185 | the level after the call and its answer, for any times and costs |
| `LeakyBucket.WindowBound` | src/scheduler/throttle.rs:166-185 | from any state, the cost accepted in a window of d ms is at most the capacity plus what leaks in d |
| `LeakyBucket.EveryWindow` | src/scheduler/throttle.rs:152-185 | in every window of d ms of every run from a new bucket, the cost accepted is at most the burst, one at least, plus what leaks in d at the given rate |
| `LeakyBucket.NewAcceptsBurst` | src/scheduler/throttle.rs:154-163 | a new bucket accepts a first cost exactly when it is within the burst, one at least |
| `LeakyBucket.AcceptedAfterNeed` | src/scheduler/throttle.rs:179-183 | a refused cost is accepted v ms later exactly when v is at least the need |
| `LeakyBucket.WaitIsLeastIff` | src/scheduler/throttle.rs:179-183 | the reported wait is the least one that works exactly when the need fits 64 bits |
| `LeakyBucket.SaturatedWaitIsTooShort` | src/scheduler/throttle.rs:181-182 | a bucket and a cost whose reported wait is too short |
| `LeakyBucket.SomeWaitIsEnoughIff` | src/scheduler/throttle.rs:175-183 | a wait is always reported, but some wait is enough exactly when the cost is within the capacity |
| `LruStore.LruStore.GetWorkflow` | src/persistence/lru_store.rs:61-71 | answers what the inner store would, and keeps every cached record current |
| `LruStore.LruStore.PutWorkflow` | src/persistence/lru_store.rs:81-85 | writes through and drops the cached record |
| `LruStore.LruStore.UpdateWorkflowVersion` | src/persistence/lru_store.rs:87-99 | writes through with the inner store's errors and drops the cached record on success |
| `LruStore.CacheIsInvisible` | src/persistence/lru_store.rs:61-103 | over every sequential run, for every capacity: the inner store's answers, current records only, at most the capacity, and hits plus misses equal the lookups |
| `LruStore.HoldsTheLatest` | src/persistence/lru_store.rs:61-71 | after any lookups the cache holds exactly the latest distinct keys that were found, latest first, as many as fit |
| `LruStore.InterleavedMissServesStale` | src/persistence/lru_store.rs:63-69 | a put between the halves of a miss leaves a stale record that the next lookup serves |
| `Watcher.Watcher.Poll` | src/events/watcher.rs:71-125 | starts before ends, each in order; an event goes out exactly when a listed record calls for its kind at its time, beyond the old watermark; a failed listing changes nothing |
| `Watcher.ExactlyOnce` | src/events/watcher.rs:86-125 | over any polls, failed ones included, a run whose shown record has it succeeded, failed, timed out or cancelled after boot is dispatched as finished by exactly one poll, and one shown running by exactly one as started |
| `Watcher.FirstShownDecides` | src/events/watcher.rs:78-125 | without assuming timely timestamps: a start or an end is dispatched by the poll that first shows it, or never, and which of the two the watermark decides |
| `Watcher.OneStampPerRun` | src/events/watcher.rs:78-125 | with stable times no run is dispatched twice |
| `Watcher.DeliveryIncreases` | src/events/watcher.rs:96-121 | the whole delivery of starts, and of ends, is strictly increasing in time and run id |

## Left out

- CriticalPath.SimulateWorkflow: task names must be unique, which definition validation ensures; variable references, warnings and the text report are not modelled.
- Loss.NoRunIsLost: submitting (put the run, then enqueue it) is one step, and so are the read and write of `mark_running` and the last cancellation check with `finalize`; a cancellation that lands inside one of these pairs is outside the model.
- Loss.NoRunIsLost: store errors other than the modelled ones, and the deletion of finished runs by retention, are not steps of the protocol.
- Executor.RunExecutor.AttemptWithToken: stored outputs, messages and timestamps of tasks are not modelled; heartbeats are steps of the dispatch protocol instead; the definition stays the same across the attempts of a run, while the program reads the current one.
- Retention.SweepSparesRunsInFlight: a run that is written again after it was listed may still be deleted; the property is about the listed record, as in the source.
- Retention.RunStore.ReapFinishedRuns: a task record is its id and its run; the listing order is not modelled.
- Dispatcher.Dispatcher.Step: one round undisturbed; workers that receive jobs, and other dispatchers, during the round are covered by the step system only.
- Backoff.RawDelayCurve: over the reals and for valid policies; a base above the maximum, which validation refuses, makes the program's clamp panic.
- Backoff.NextAttemptTime: over the reals, so rounding of 64-bit floats, which can move a delay by a millisecond, is not covered.
- Schedule.MistimedIff: says nothing about runs in which a lease runs out under a claim.
- LeakyBucket.WindowBound: over the reals, so rounding of 64-bit floats is not covered.
- TaskRunIds.ParseAcceptsIff: lengths count characters; text outside ASCII, whose byte length is larger, is refused by the program under one error or another.
- LruStore.HoldsTheLatest: lookups only; a write in between drops its key and makes room.
- LruStore.CacheIsInvisible: sequential calls only, see `LruStore.InterleavedMissServesStale`.
- Watcher.ExactlyOnce: a dispatch is the call; a missing definition drops the event and webhook delivery can fail.
- Queue.MemoryStore.ScanReady: entries are given by run id, and the order among equal due times is whatever the hash map yields.
- FairShareDispatcher: `len` and `is_empty` would add only easy members.
- 64-bit overflow of `now + lease` is not modelled.
- HTTP, gRPC, the command line, configuration, telemetry, handlers' bodies, SQL connections and documents, threads, cron, the outbox, the concurrency limiter, expressions, versioning and authentication.
