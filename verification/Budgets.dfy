/**
 Attempt budgets, in terms of the policies in the definition: which failed tasks a
 pass dispatches again, how often a handler is called at most, and when an attempt
 ends in a retry.
 */
module Budgets {
  import opened Domain
  import opened Names
  import opened Pick
  import opened Executor
  import opened TaskSafety
  import opened Attempts

  /** Task `i` may be attempted once more: by its own policy if it has one, else by the workflow's. */
  predicate MayTryAgain(def: WorkflowDef, i: nat, attempts: nat)
    requires i < |def.tasks|
  {
    match def.tasks[i].retry
    case Some(own) => attempts < own.maxAttempts
    case None => attempts < def.retry.maxAttempts
  }

  /**
   What a pass dispatches, on the stored records: pending tasks whose dependencies
   have all succeeded, and failed ones with attempts left, unless this attempt has
   executed them already.
   */
  lemma DispatchedIff(def: WorkflowDef, tasks: Tasks, executed: set<string>, i: nat)
    requires UniqueNames(def.tasks) && i < |def.tasks|
    ensures var n := def.tasks[i].name;
      n in Batch(def, tasks, executed) <==>
      && n !in executed
      && if n !in tasks || tasks[n].status == TPending then
           forall d :: d in def.tasks[i].dependsOn ==> d in tasks && tasks[d].status == TSucceeded
         else tasks[n].status == TFailed && MayTryAgain(def, i, tasks[n].attempts)
  {
    var n, states := def.tasks[i].name, StatesOf(def, tasks);
    LimitIsThePolicys(def, i);
    ReadyMeaning(def.tasks, states);
    forall d ensures Pick.Succeeded(states, d) <==> d in tasks && tasks[d].status == TSucceeded {
      SameSuccess(def, tasks, d);
    }
    assert n in Ready(def.tasks, states) <==> MayDispatch(states, def.tasks[i]) by {
      if n in Ready(def.tasks, states) {
        var j :| 0 <= j < |def.tasks| && def.tasks[j].name == n && MayDispatch(states, def.tasks[j]);
      }
    }
    assert StatusOf(states, n) == Load(tasks, n).status;
  }

  // ----- when finalize retries

  predicate IsFailed(states: States, n: string) {
    n in states && states[n] == TFailed
  }

  /** A name the definition no longer has falls under the workflow's policy. */
  ghost predicate BudgetLeft(def: WorkflowDef, tasks: Tasks, n: string) {
    && (forall i: nat :: i < |def.tasks| && def.tasks[i].name == n ==> MayTryAgain(def, i, Load(tasks, n).attempts))
    && (n !in TaskNames(def.tasks) ==> Load(tasks, n).attempts < def.retry.maxAttempts)
  }

  ghost predicate AllMayTryAgain(def: WorkflowDef, tasks: Tasks, states: States) {
    forall n :: IsFailed(states, n) ==> BudgetLeft(def, tasks, n)
  }

  lemma BudgetLeftIff(def: WorkflowDef, tasks: Tasks, n: string)
    requires UniqueNames(def.tasks)
    ensures BudgetLeft(def, tasks, n) <==> Load(tasks, n).attempts < Limit(def, n)
  {
    if n in TaskNames(def.tasks) {
      var i: nat :| i < |def.tasks| && def.tasks[i].name == n;
      LimitIsThePolicys(def, i);
      assert BudgetLeft(def, tasks, n) ==> MayTryAgain(def, i, Load(tasks, n).attempts);
    }
  }

  /** The failed names, least first. */
  lemma FailedNamesMeaning(states: States)
    ensures forall n :: n in FailedNames(states) <==> IsFailed(states, n)
    ensures StrictlyAscending(FailedNames(states))
  {
    SortedSeqAscending(set n | n in states && states[n] == TFailed);
    assert forall n :: n in FailedNames(states) <==> n in Elements(FailedNames(states));
  }

  lemma BudgetsLeftIff(def: WorkflowDef, tasks: Tasks, states: States)
    requires UniqueNames(def.tasks)
    ensures TaskBudgetsLeft(def, tasks, FailedNames(states)) <==> AllMayTryAgain(def, tasks, states)
  {
    FailedNamesMeaning(states);
    forall n ensures BudgetLeft(def, tasks, n) <==> Load(tasks, n).attempts < Limit(def, n) {
      BudgetLeftIff(def, tasks, n);
    }
  }

  /**
   `finalize` of a running run with a failed task: the run is queued again exactly
   when the workflow's policy allows one more attempt and every failed task's own
   does too; otherwise it has failed for good, on account of the first failed task.
   */
  lemma FinalizeRetriesIff(def: WorkflowDef, run: Run, tasks: Tasks, states: States, now: int, draw: nat)
    requires UniqueNames(def.tasks) && run.status == Running
    requires AllTerminal(states) && exists n :: IsFailed(states, n)
    ensures var f := Finalize(def, run, tasks, states, now, draw);
      && f.end.Finished? && f.write.Some?
      && (forall n :: n in f.end.failed <==> IsFailed(states, n)) && StrictlyAscending(f.end.failed)
      && if run.attempts + 1 < def.retry.maxAttempts && AllMayTryAgain(def, tasks, states) then
           && f.end.status == Queued && f.end.action.Release?
           && f.write.value == run.(status := Queued, attempts := run.attempts + 1,
                                    nextAttemptAt := Some(f.end.action.at), error := None)
         else
           && f.end.status == RunStatus.Failed && f.end.action.Ack?
           && f.write.value == run.(status := RunStatus.Failed, finishedAt := Some(now),
                                    error := Some(RunError(Exhausted, Some(f.end.failed[0]), run.attempts)))
  {
    FailedNamesMeaning(states);
    BudgetsLeftIff(def, tasks, states);
    var n :| IsFailed(states, n);
    assert n in FailedNames(states);
  }

  /** Without a failed task it has succeeded, and it errs exactly when a task is not terminal. */
  lemma FinalizeSucceeds(def: WorkflowDef, run: Run, tasks: Tasks, states: States, now: int, draw: nat)
    requires run.status == Running && forall n :: n in states ==> states[n] != TFailed
    ensures Finalize(def, run, tasks, states, now, draw) ==
      if AllTerminal(states) then
        Finalized(Some(run.(status := RunStatus.Succeeded, finishedAt := Some(now), error := None)),
                  Finished(RunStatus.Succeeded, [], Ack))
      else Finalized(None, Errored)
  {
  }

  /** Task `i` is stored as failed. */
  predicate HasFailed(def: WorkflowDef, tasks: Tasks, i: nat)
    requires i < |def.tasks|
  {
    def.tasks[i].name in tasks && tasks[def.tasks[i].name].status == TFailed
  }

  /**
   How an attempt that reaches `finalize` with no task left running ends, on the
   records it stores: succeeded without a failed task, queued again when every
   failed one may be tried again, failed otherwise.
   */
  lemma AttemptRetriesIff(def: WorkflowDef, run: Run, tasks: Tasks, w: World)
    requires ValidDef(def) && Inv(def, tasks) && ReachesFinalize(def, run, tasks, w) && NoneRunning(tasks)
    ensures var r := Attempt(def, run, tasks, w);
      && r.end.Finished?
      && (r.end.status == RunStatus.Succeeded <==> forall i: nat :: i < |def.tasks| ==> !HasFailed(def, r.tasks, i))
      && (r.end.status == Queued <==>
          && (exists i: nat :: i < |def.tasks| && HasFailed(def, r.tasks, i))
          && run.attempts + 1 < def.retry.maxAttempts
          && forall i: nat :: i < |def.tasks| && HasFailed(def, r.tasks, i) ==>
               MayTryAgain(def, i, r.tasks[def.tasks[i].name].attempts))
      && (r.end.action.Release? <==> r.end.status == Queued)
      && (r.end.status == RunStatus.Succeeded || r.end.status == Queued || r.end.status == RunStatus.Failed)
  {
    var r := Attempt(def, run, tasks, w);
    var mid := FinalizingAttempt(def, run, tasks, w);
    EveryTaskTerminal(def, run, tasks, w);
    assert Inv(def, r.tasks) by { AttemptSafe(def, run, tasks, w); }
    EndsAs(def, run, r.tasks, w.endMs, w.draw);
  }

  lemma EndsAs(def: WorkflowDef, run: Run, tasks: Tasks, now: int, draw: nat)
    requires UniqueNames(def.tasks) && run.status == Running
    requires tasks.Keys <= TaskNames(def.tasks) && AllTerminal(StatesOf(def, tasks))
    ensures var end := Finalize(def, run, tasks, StatesOf(def, tasks), now, draw).end;
      && end.Finished?
      && (end.status == RunStatus.Succeeded <==> forall i: nat :: i < |def.tasks| ==> !HasFailed(def, tasks, i))
      && (end.status == Queued <==>
          && (exists i: nat :: i < |def.tasks| && HasFailed(def, tasks, i))
          && run.attempts + 1 < def.retry.maxAttempts
          && forall i: nat :: i < |def.tasks| && HasFailed(def, tasks, i) ==>
               MayTryAgain(def, i, tasks[def.tasks[i].name].attempts))
      && (end.action.Release? <==> end.status == Queued)
      && (end.status == RunStatus.Succeeded || end.status == Queued || end.status == RunStatus.Failed)
  {
    var states := StatesOf(def, tasks);
    SomeFailed(def, tasks);
    if exists n :: IsFailed(states, n) {
      FinalizeRetriesIff(def, run, tasks, states, now, draw);
      AllBudgetsLeft(def, tasks);
    } else {
      forall n | n in states ensures states[n] != TFailed { assert !IsFailed(states, n); }
      FinalizeSucceeds(def, run, tasks, states, now, draw);
    }
  }

  lemma SomeFailed(def: WorkflowDef, tasks: Tasks)
    requires tasks.Keys <= TaskNames(def.tasks)
    ensures (exists n :: IsFailed(StatesOf(def, tasks), n)) <==>
            exists i: nat :: i < |def.tasks| && HasFailed(def, tasks, i)
  {
    if i: nat :| i < |def.tasks| && HasFailed(def, tasks, i) {
      assert IsFailed(StatesOf(def, tasks), def.tasks[i].name);
    }
    if n :| IsFailed(StatesOf(def, tasks), n) {
      var i: nat :| i < |def.tasks| && def.tasks[i].name == n;
      assert HasFailed(def, tasks, i);
    }
  }

  lemma AllBudgetsLeft(def: WorkflowDef, tasks: Tasks)
    requires UniqueNames(def.tasks) && tasks.Keys <= TaskNames(def.tasks)
    ensures AllMayTryAgain(def, tasks, StatesOf(def, tasks)) <==>
            (forall i: nat :: i < |def.tasks| && HasFailed(def, tasks, i) ==>
               MayTryAgain(def, i, tasks[def.tasks[i].name].attempts))
  {
    if AllMayTryAgain(def, tasks, StatesOf(def, tasks)) {
      forall i: nat | i < |def.tasks| && HasFailed(def, tasks, i)
        ensures MayTryAgain(def, i, tasks[def.tasks[i].name].attempts)
      {
        assert IsFailed(StatesOf(def, tasks), def.tasks[i].name);
      }
    }
  }
}
