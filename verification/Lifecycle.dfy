/**
 A run from submission to its end: repeated dispatch, bounded retries, and the
 release times the retries are scheduled for.
 */
module Lifecycle {
  import opened Domain
  import opened Names
  import opened Pick
  import opened Backoff
  import opened DryRun
  import opened Executor
  import opened TaskSafety
  import opened Attempts

  datatype Life = Life(run: Run, tasks: Tasks)

  /** A run as submitted. */
  function Submitted(deadline: Option<int>): Life {
    Life(Run(Queued, 0, None, deadline, None, None, None), map[])
  }

  /** `mark_running`; a run that is neither queued nor running is not dispatched. */
  function MarkRunning(run: Run, now: int): Option<Run> {
    match run.status
    case Running => Some(run)
    case Queued => Some(run.(status := Running, startedAt := Some(now)))
    case _ => None
  }

  /** One dispatch; a cancellation seen by the loop is one an operator has stored. */
  function Dispatch(def: WorkflowDef, life: Life, w: World): Life {
    match MarkRunning(life.run, w.startMs)
    case None => life
    case Some(run) =>
      var r := Attempt(def, run, life.tasks, w);
      match r.write
      case Some(written) => Life(written, r.tasks)
      case None =>
        if r.end.Finished? then Life(run.(status := Cancelled, finishedAt := Some(w.startMs), error := None), r.tasks)
        else Life(run, r.tasks)
  }

  /** The dispatch gets through `finalize`. */
  predicate Finalizes(def: WorkflowDef, life: Life, w: World) {
    match MarkRunning(life.run, w.startMs)
    case None => false
    case Some(run) => ReachesFinalize(def, run, life.tasks, w) && Attempt(def, run, life.tasks, w).end.Finished?
  }

  function Lives(def: WorkflowDef, life: Life, ws: seq<World>): Life
    decreases |ws|
  {
    if ws == [] then life else Lives(def, Dispatch(def, life, ws[0]), ws[1..])
  }

  function Finalizations(def: WorkflowDef, life: Life, ws: seq<World>): nat
    decreases |ws|
  {
    if ws == [] then 0
    else (if Finalizes(def, life, ws[0]) then 1 else 0) + Finalizations(def, Dispatch(def, life, ws[0]), ws[1..])
  }

  // ----- budgets

  /** How many more attempts may finalize. */
  function Budget(def: WorkflowDef, life: Life): int {
    if life.run.status.IsTerminal() then 0 else def.retry.maxAttempts - life.run.attempts
  }

  /** Within `finalize`: a retry is one attempt more and still within budget; otherwise the run is over. */
  lemma FinalizeBudget(def: WorkflowDef, run: Run, tasks: Tasks, states: States, now: int, draw: nat)
    requires run.status == Running
    requires Finalize(def, run, tasks, states, now, draw).end.Finished?
    ensures var f := Finalize(def, run, tasks, states, now, draw);
      && f.write.Some? && f.write.value.status == f.end.status
      && if f.end.action.Release? then
           && f.write.value.status == Queued && f.write.value.nextAttemptAt == Some(f.end.action.at)
           && f.write.value.attempts == run.attempts + 1 < def.retry.maxAttempts
         else
           && (f.write.value.status == RunStatus.Succeeded || f.write.value.status == RunStatus.Failed)
           && f.write.value.attempts == run.attempts
  {
  }

  /** What an attempt at a running run may store. */
  ghost predicate Stores(def: WorkflowDef, run: Run, r: AttemptResult, finalizes: bool) {
    if finalizes then
      && r.write.Some? && r.end.Finished?
      && if r.end.action.Release? then
           && r.write.value.status == Queued
           && r.write.value.attempts == run.attempts + 1 < def.retry.maxAttempts
         else r.write.value.status.IsTerminal()
    else r.write.Some? ==> r.write.value.status.IsTerminal()
  }

  lemma AttemptStores(def: WorkflowDef, run: Run, tasks: Tasks, w: World)
    requires ValidDef(def) && Inv(def, tasks) && run.status == Running
    ensures var r := Attempt(def, run, tasks, w);
      var finalizes := ReachesFinalize(def, run, tasks, w) && r.end.Finished?;
      Stores(def, run, r, finalizes)
  {
    var r := Attempt(def, run, tasks, w);
    if ReachesFinalize(def, run, tasks, w) {
      var mid := FinalizingAttempt(def, run, tasks, w);
      FinalizeStores(def, run, r, r.tasks, StatesOf(def, r.tasks), w.endMs, w.draw);
    }
  }

  lemma FinalizeStores(def: WorkflowDef, run: Run, r: AttemptResult, tasks: Tasks, states: States, now: int, draw: nat)
    requires run.status == Running
    requires Finalized(r.write, r.end) == Finalize(def, run, tasks, states, now, draw)
    ensures Stores(def, run, r, r.end.Finished?)
  {
    if r.end.Finished? { FinalizeBudget(def, run, tasks, states, now, draw); }
  }

  ghost predicate Live(def: WorkflowDef, life: Life) {
    Inv(def, life.tasks) && (life.run.status.IsTerminal() || life.run.attempts < def.retry.maxAttempts)
  }

  /** Each finalization uses up budget; nothing restores it. */
  lemma DispatchSpendsBudget(def: WorkflowDef, life: Life, w: World)
    requires ValidDef(def) && Live(def, life)
    ensures var next := Dispatch(def, life, w);
      && Live(def, next)
      && Budget(def, next) <= Budget(def, life) - (if Finalizes(def, life, w) then 1 else 0)
  {
    if MarkRunning(life.run, w.startMs).Some? {
      var run := MarkRunning(life.run, w.startMs).value;
      assert Inv(def, Attempt(def, run, life.tasks, w).tasks) by { AttemptSafe(def, run, life.tasks, w); }
      AttemptStores(def, run, life.tasks, w);
    }
  }

  lemma {:induction false} FinalizationsWithinBudget(def: WorkflowDef, life: Life, ws: seq<World>)
    requires ValidDef(def) && Live(def, life)
    ensures Finalizations(def, life, ws) + Budget(def, Lives(def, life, ws)) <= Budget(def, life)
    ensures Live(def, Lives(def, life, ws))
    decreases |ws|
  {
    if ws != [] {
      DispatchSpendsBudget(def, life, ws[0]);
      FinalizationsWithinBudget(def, Dispatch(def, life, ws[0]), ws[1..]);
    }
  }

  /**
   Bounded retries: however handlers fail or panic and cancellations arrive, at
   most `max_attempts` attempts of a submitted run get through `finalize`, and its
   attempt counter stays below that number while it is live.
   */
  lemma BoundedRetries(def: WorkflowDef, deadline: Option<int>, ws: seq<World>)
    requires ValidDef(def) && def.retry.Valid()
    ensures Finalizations(def, Submitted(deadline), ws) <= def.retry.maxAttempts
    ensures var end := Lives(def, Submitted(deadline), ws).run;
      end.status.IsTerminal() || end.attempts < def.retry.maxAttempts
  {
    FinalizationsWithinBudget(def, Submitted(deadline), ws);
  }

  /** A dispatch of a live run ends it as cancelled exactly when its loop sees a cancellation. */
  lemma CancelsIff(def: WorkflowDef, life: Life, w: World)
    requires !life.run.status.IsTerminal()
    ensures var run := MarkRunning(life.run, w.startMs).value;
      Dispatch(def, life, w).run.status == Cancelled <==>
      Admitted(run, w) && Loop(def, life.tasks, {}, w.handler, w.cancelled, 0).end.SawCancel?
  {
    var run := MarkRunning(life.run, w.startMs).value;
    if Admitted(run, w) { AttemptWrites(def, run, life.tasks, w); }
  }

  /** No dispatch changes the deadline a run was submitted with. */
  lemma {:induction false} KeepsDeadline(def: WorkflowDef, life: Life, ws: seq<World>)
    ensures Lives(def, life, ws).run.deadlineAt == life.run.deadlineAt
    decreases |ws|
  {
    if ws != [] {
      KeepsDeadlineOnce(def, life, ws[0]);
      KeepsDeadline(def, Dispatch(def, life, ws[0]), ws[1..]);
    }
  }

  lemma KeepsDeadlineOnce(def: WorkflowDef, life: Life, w: World)
    ensures Dispatch(def, life, w).run.deadlineAt == life.run.deadlineAt
  {
    if !life.run.status.IsTerminal() { DeadlineDecides(def, life, w); }
  }

  /** What `finalize` writes, if it gets through, neither moves the deadline nor times the run out or cancels it. */
  predicate Plain(run: Run, f: Finalized) {
    && (f.end.Finished? ==> f.write.Some?)
    && (f.write.Some? ==>
          && f.write.value.deadlineAt == run.deadlineAt
          && f.write.value.status != TimedOut && f.write.value.status != Cancelled)
  }

  lemma FinalizeWrites(def: WorkflowDef, run: Run, tasks: Tasks, states: States, now: int, draw: nat)
    ensures Plain(run, Finalize(def, run, tasks, states, now, draw))
  {
  }

  /** So an attempt that gets to its loop ends in one of three ways. */
  lemma AttemptWrites(def: WorkflowDef, run: Run, tasks: Tasks, w: World)
    requires Admitted(run, w)
    ensures var r := Attempt(def, run, tasks, w);
      match Loop(def, tasks, {}, w.handler, w.cancelled, 0).end
      case SawCancel => r.write == None && r.end.Finished?
      case LoopPanicked => r.write == None && !r.end.Finished?
      case Drained => Plain(run, Finalized(r.write, r.end))
  {
    var l := Loop(def, tasks, {}, w.handler, w.cancelled, 0);
    if l.end.Drained? {
      var states := StatesOf(def, l.tasks);
      var blocked := Blocked(def.tasks, states);
      var skipped := SkipAll(l.tasks, SortedSeq(blocked)).tasks;
      FinalizeWrites(def, run, skipped, MarkSkipped(states, blocked), w.endMs, w.draw);
    }
  }

  /**
   The deadline: after any dispatches of a submitted run, the next dispatch of a live
   run times it out exactly when it starts past the deadline it was submitted with,
   and then touches no task.
   */
  lemma TimesOutIff(def: WorkflowDef, deadline: Option<int>, ws: seq<World>, w: World)
    requires !Lives(def, Submitted(deadline), ws).run.status.IsTerminal()
    ensures var life := Lives(def, Submitted(deadline), ws);
      var next := Dispatch(def, life, w);
      && (next.run.status == TimedOut <==> deadline.Some? && w.startMs > deadline.value)
      && (next.run.status == TimedOut ==>
            && next.tasks == life.tasks && next.run.finishedAt == Some(w.startMs)
            && next.run.error == Some(RunError(Timeout, None, life.run.attempts)))
  {
    KeepsDeadline(def, Submitted(deadline), ws);
    DeadlineDecides(def, Lives(def, Submitted(deadline), ws), w);
  }

  lemma DeadlineDecides(def: WorkflowDef, life: Life, w: World)
    requires !life.run.status.IsTerminal()
    ensures var next := Dispatch(def, life, w);
      && next.run.deadlineAt == life.run.deadlineAt
      && (next.run.status == TimedOut <==> life.run.deadlineAt.Some? && w.startMs > life.run.deadlineAt.value)
      && (next.run.status == TimedOut ==>
            && next.tasks == life.tasks && next.run.finishedAt == Some(w.startMs)
            && next.run.error == Some(RunError(Timeout, None, life.run.attempts)))
  {
    var run := MarkRunning(life.run, w.startMs).value;
    if Admitted(run, w) { AttemptWrites(def, run, life.tasks, w); }
  }

  /** A retry's release time is a computed one, never the fallback, and lies in the policy's window. */
  lemma ReleaseWindow(def: WorkflowDef, run: Run, tasks: Tasks, states: States, now: int, draw: nat)
    requires def.retry.Valid() && now <= I64_MAX
    requires Finalize(def, run, tasks, states, now, draw).end.Finished?
    requires Finalize(def, run, tasks, states, now, draw).end.action.Release?
    ensures var f := Finalize(def, run, tasks, states, now, draw);
      && NextAttemptAt(def.retry, run.attempts + 1, true, now, draw) == Some(f.end.action.at)
      && now <= f.end.action.at <= now + def.retry.maxDelayMs
      && f.write.value.nextAttemptAt == Some(f.end.action.at)
      && f.end.failed != []
  {
    NextAttemptWindow(def.retry, run.attempts + 1, true, now, draw);
    var n :| n in states && states[n] == TFailed;
    assert n in Elements(FailedNames(states));
  }

  /**
   The exact release time without jitter: the attempt that failed is number
   `run.attempts`, counted from zero, and so is its delay on the policy's curve.
   */
  lemma ReleaseTime(def: WorkflowDef, run: Run, tasks: Tasks, states: States, now: int, draw: nat, factor: real)
    requires def.retry.Valid() && def.retry.jitter.NoJitter? && factor == Power(def.retry.multiplier, run.attempts)
    requires Finalize(def, run, tasks, states, now, draw).end.Finished?
    requires Finalize(def, run, tasks, states, now, draw).end.action.Release?
    ensures AtDelay(def.retry, run.attempts, factor, now, Finalize(def, run, tasks, states, now, draw).end.action.at)
  {
    ReleaseIsScheduled(def, run, tasks, states, now, draw);
    NextAttemptTime(def.retry, run.attempts, factor, true, now, draw);
  }

  lemma ReleaseIsScheduled(def: WorkflowDef, run: Run, tasks: Tasks, states: States, now: int, draw: nat)
    requires Finalize(def, run, tasks, states, now, draw).end.Finished?
    requires Finalize(def, run, tasks, states, now, draw).end.action.Release?
    ensures run.attempts + 1 < def.retry.maxAttempts
    ensures NextAttemptAt(def.retry, run.attempts + 1, true, now, draw)
            == Some(Finalize(def, run, tasks, states, now, draw).end.action.at)
  {
  }

  // ----- a retried run that succeeds with a skipped task

  lemma OnlyOne(def: WorkflowDef, tasks: Tasks, executed: set<string>, n: string)
    requires ValidDef(def) && Inv(def, tasks)
    requires forall m :: Callable(def, tasks, m) && m !in executed <==> m == n
    ensures Batch(def, tasks, executed) == [n]
  {
    BatchCallable(def, tasks, executed);
    Singleton(Batch(def, tasks, executed), n);
  }

  lemma Singleton(s: seq<string>, n: string)
    requires NoDuplicates(s) && forall m :: m in s <==> m == n
    ensures s == [n]
  {
    assert Elements(s) == {n};
    DistinctLength(s);
    assert s[0] in s;
  }

  lemma NoneLeft(def: WorkflowDef, tasks: Tasks, executed: set<string>)
    requires ValidDef(def) && Inv(def, tasks)
    requires forall m :: !(Callable(def, tasks, m) && m !in executed)
    ensures Batch(def, tasks, executed) == []
  {
    BatchCallable(def, tasks, executed);
    var batch := Batch(def, tasks, executed);
    assert Elements(batch) == {};
    DistinctLength(batch);
  }

  const TWO_ATTEMPTS := RetryPolicy(2, 1000, 1000, 1.0, Fixed, NoJitter, false)

  /** A workflow of two tasks, `report` depending on `fetch`, that may be tried twice. */
  function Example(fetch: string, report: string): WorkflowDef {
    WorkflowDef([TaskSpec(fetch, [], None), TaskSpec(report, [fetch], None)], TWO_ATTEMPTS)
  }

  /** Every handler fails when first called and then works. */
  function Flaky(n: string, a: nat): HandlerOutcome {
    if a == 1 then HandlerErr else HandlerOk
  }

  function Never(p: nat): bool { false }

  function Noon(): World {
    World(Flaky, Never, 0, 0, 0)
  }

  ghost predicate Shape(def: WorkflowDef, f: string, r: string) {
    && f != r && ValidDef(def) && TaskNames(def.tasks) == {f, r} && def.retry == TWO_ATTEMPTS
    && DependsOn(def.tasks, f) == [] && DependsOn(def.tasks, r) == [f]
    && Limit(def, f) == 2 && Limit(def, r) == 2
  }

  lemma ExampleShape(f: string, r: string)
    requires f != r
    ensures Shape(Example(f, r), f, r)
  {
    var def := Example(f, r);
    assert def.tasks[0].name == f && def.tasks[1].name == r;
    assert UniqueNames(def.tasks);
    FindUnique(def.tasks, 0);
    FindUnique(def.tasks, 1);
    assert TaskNames(def.tasks) == {f, r};
  }

  /** Task records before (`a == 0`) and between the two attempts. */
  function Before(f: string, r: string, a: nat): Tasks {
    if a == 0 then map[] else map[f := TaskRec(TFailed, 1), r := TaskRec(TSkipped, 0)]
  }

  /** Task records when the loop of an attempt has drained. */
  function Drained(f: string, r: string, a: nat): Tasks {
    if a == 0 then map[f := TaskRec(TFailed, 1)] else map[f := TaskRec(TSucceeded, 2), r := TaskRec(TSkipped, 0)]
  }

  function After(f: string, r: string, a: nat): Tasks {
    map[f := TaskRec(if a == 0 then TFailed else TSucceeded, a + 1), r := TaskRec(TSkipped, 0)]
  }

  lemma ExampleRecords(def: WorkflowDef, f: string, r: string, a: nat)
    requires Shape(def, f, r) && a < 2
    ensures Inv(def, Before(f, r, a)) && Inv(def, Drained(f, r, a))
    ensures forall n :: Callable(def, Before(f, r, a), n) <==> n == f
    ensures forall n :: Callable(def, Drained(f, r, a), n) ==> n == f
  {
    assert f in DependsOn(def.tasks, r);
    assert forall t :: DepsMet(def, t, f);
    assert !Done(Before(f, r, a), f);
    assert a == 0 ==> !Done(Drained(f, r, a), f);
  }

  lemma ExampleCall(f: string, r: string, a: nat)
    requires a < 2 && f != r
    ensures CallAll(Before(f, r, a), [f], Flaky).tasks == Drained(f, r, a)
    ensures !CallAll(Before(f, r, a), [f], Flaky).panicked
  {
    assert [f][1..] == [];
    assert CallAll(Before(f, r, a), [f], Flaky).tasks == Call(Before(f, r, a), f, Flaky).tasks;
  }

  lemma ExampleLoop(def: WorkflowDef, f: string, r: string, a: nat)
    requires Shape(def, f, r) && a < 2
    ensures Loop(def, Before(f, r, a), {}, Flaky, Never, 0).tasks == Drained(f, r, a)
    ensures Loop(def, Before(f, r, a), {}, Flaky, Never, 0).end.Drained?
  {
    ExampleRecords(def, f, r, a);
    OnlyOne(def, Before(f, r, a), {}, f);
    NoneLeft(def, Drained(f, r, a), {f});
    ExampleCall(f, r, a);
    FirstPass(def, Before(f, r, a), {}, Flaky, Never, 0);
    LastPass(def, Drained(f, r, a), {f}, Flaky, Never, 1);
    assert {} + Elements([f]) == {f};
  }

  lemma ExampleSkips(def: WorkflowDef, f: string, r: string, a: nat)
    requires Shape(def, f, r) && a < 2
    ensures Skipped(def, Drained(f, r, a)) == After(f, r, a)
  {
    var mid := Drained(f, r, a);
    assert f in DependsOn(def.tasks, r);
    assert a == 0 ==> !DepsMet(def, mid, r);
    forall n
      ensures n in Skipped(def, mid) <==> n in After(f, r, a)
      ensures n in Skipped(def, mid) && n in After(f, r, a) ==> Skipped(def, mid)[n] == After(f, r, a)[n]
    {
      SkippedTask(def, mid, n);
      SkipAttempts(def, mid, n);
    }
    SameMap(Skipped(def, mid), After(f, r, a));
  }

  /** Skipping a task leaves its attempt counter alone. */
  lemma SkipAttempts(def: WorkflowDef, mid: Tasks, n: string)
    requires ValidDef(def)
    ensures Load(Skipped(def, mid), n).attempts == Load(mid, n).attempts
  {
    var names := SortedSeq(Blocked(def.tasks, StatesOf(def, mid)));
    SkipsAfterLoop(def, mid);
    StartsAreAttempts(def, mid, SkipAll(mid, names).log, n);
  }

  /** `finalize` queues a run again whose only failed task has budget left. */
  lemma ExampleRequeues(def: WorkflowDef, tasks: Tasks, f: string, run: Run, states: States, now: int)
    requires run.status == Running && def.retry.AllowsAttempt(run.attempts + 1)
    requires Load(tasks, f).attempts < Limit(def, f)
    requires f in states && states[f] == TFailed
    requires forall n :: n in states ==> states[n].IsTerminal() && (states[n] == TFailed ==> n == f)
    ensures var w := Finalize(def, run, tasks, states, now, 0).write;
      && w.Some? && w.value.status == Queued && w.value.attempts == run.attempts + 1
      && w.value.deadlineAt == run.deadlineAt
  {
    var failing := FailedNames(states);
    assert forall n :: n in failing ==> n in Elements(failing);
    assert TaskBudgetsLeft(def, tasks, failing);
  }

  lemma ExampleSucceeds(def: WorkflowDef, tasks: Tasks, run: Run, states: States, now: int)
    requires run.status == Running
    requires forall n :: n in states ==> states[n].IsTerminal() && states[n] != TFailed
    ensures var w := Finalize(def, run, tasks, states, now, 0).write;
      && w.Some? && w.value.status == RunStatus.Succeeded && w.value.attempts == run.attempts
      && w.value.deadlineAt == run.deadlineAt
  {
  }

  /** The first attempt is queued again, the second succeeds. */
  ghost predicate Wrote(write: Option<Run>, a: nat) {
    && write.Some? && write.value.attempts == 1 && write.value.deadlineAt == None
    && write.value.status == if a == 0 then Queued else RunStatus.Succeeded
  }

  lemma ExampleFinalize(def: WorkflowDef, f: string, r: string, a: nat, run: Run)
    requires Shape(def, f, r) && a < 2 && run.status == Running && run.attempts == a && run.deadlineAt == None
    ensures var final := After(f, r, a); Wrote(Finalize(def, run, final, StatesOf(def, final), 0, 0).write, a)
  {
    var states := StatesOf(def, After(f, r, a));
    assert states.Keys == {f, r};
    if a == 0 {
      ExampleRequeues(def, After(f, r, a), f, run, states, 0);
    } else {
      ExampleSucceeds(def, After(f, r, a), run, states, 0);
    }
  }

  lemma ExampleAttempt(def: WorkflowDef, f: string, r: string, a: nat, run: Run)
    requires Shape(def, f, r) && a < 2 && run.status == Running && run.attempts == a && run.deadlineAt == None
    ensures var t := Attempt(def, run, Before(f, r, a), Noon()); t.tasks == After(f, r, a) && Wrote(t.write, a)
  {
    ExampleLoop(def, f, r, a);
    DrainedAttempt(def, run, Before(f, r, a), Noon(), Drained(f, r, a));
    ExampleSkips(def, f, r, a);
    ExampleFinalize(def, f, r, a, run);
  }

  /** A retried run can end `Succeeded` with a task that was skipped and never reconsidered. */
  lemma RetriedRunKeepsItsSkips(f: string, r: string)
    requires f != r
    ensures ValidDef(Example(f, r)) && Example(f, r).retry.Valid()
    ensures var end := Lives(Example(f, r), Submitted(None), [Noon(), Noon()]);
      && end.run.status == RunStatus.Succeeded
      && end.tasks == map[f := TaskRec(TSucceeded, 2), r := TaskRec(TSkipped, 0)]
  {
    var def := Example(f, r);
    ExampleShape(f, r);
    var life := Submitted(None);
    ExampleAttempt(def, f, r, 0, MarkRunning(life.run, 0).value);
    var second := Dispatch(def, life, Noon());
    assert second.tasks == Before(f, r, 1);
    ExampleAttempt(def, f, r, 1, MarkRunning(second.run, 0).value);
    assert [Noon(), Noon()][1..] == [Noon()] && [Noon()][1..] == [];
    assert Lives(def, second, [Noon()]) == Dispatch(def, second, Noon());
  }
}
