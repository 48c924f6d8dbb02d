/**
 What a caught handler panic does to a run: the task it leaves running is never
 picked up again, and from then on `finalize` errs each time it is reached.
 */
module Panics {
  import opened Domain
  import opened Names
  import opened Pick
  import opened Executor
  import opened TaskSafety
  import opened Attempts
  import opened Lifecycle

  // ----- within an attempt

  /** A batch that panics leaves a task running. */
  lemma {:induction false} PanicLeavesOne(tasks: Tasks, batch: seq<string>, h: Handler)
    requires CallAll(tasks, batch, h).panicked
    ensures !NoneRunning(CallAll(tasks, batch, h).tasks)
    decreases batch
  {
    var first := Call(tasks, batch[0], h);
    if first.panicked {
      assert first.tasks[batch[0]].status == TRunning;
    } else {
      PanicLeavesOne(first.tasks, batch[1..], h);
    }
  }

  lemma {:induction false} LoopPanicLeavesOne(
    def: WorkflowDef, tasks: Tasks, executed: set<string>, h: Handler, cancelled: nat -> bool, pass: nat)
    requires Loop(def, tasks, executed, h, cancelled, pass).end.LoopPanicked?
    ensures !NoneRunning(Loop(def, tasks, executed, h, cancelled, pass).tasks)
    decreases TaskNames(def.tasks) - executed
  {
    var batch := Batch(def, tasks, executed);
    var t := CallAll(tasks, batch, h);
    BatchShrinks(def, tasks, executed);
    if t.panicked {
      PanicLeavesOne(tasks, batch, h);
    } else {
      LoopPanicLeavesOne(def, t.tasks, executed + Elements(batch), h, cancelled, pass + 1);
    }
  }

  /** The loop never touches a running task, even when it panics. */
  lemma {:induction false} LoopLeavesRunning(
    def: WorkflowDef, tasks: Tasks, executed: set<string>, h: Handler, cancelled: nat -> bool, pass: nat, n: string)
    requires ValidDef(def) && Inv(def, tasks) && Settled(tasks, executed) && Load(tasks, n).status == TRunning
    ensures Load(Loop(def, tasks, executed, h, cancelled, pass).tasks, n).status == TRunning
    decreases TaskNames(def.tasks) - executed
  {
    var batch := Batch(def, tasks, executed);
    if !cancelled(pass) && batch != [] {
      var t := CallAll(tasks, batch, h);
      assert BatchRan(def, tasks, batch, t) && n !in batch by {
        BatchCallable(def, tasks, executed);
        CallAllSafe(def, tasks, batch, h);
      }
      BatchKeeps(def, tasks, executed, batch, t);
      BatchShrinks(def, tasks, executed);
      if !t.panicked { LoopLeavesRunning(def, t.tasks, executed + Elements(batch), h, cancelled, pass + 1, n); }
    }
  }

  /** An attempt at a running run leaves each running task running. */
  lemma AttemptLeavesRunning(def: WorkflowDef, run: Run, tasks: Tasks, w: World, n: string)
    requires ValidDef(def) && Inv(def, tasks) && Load(tasks, n).status == TRunning
    ensures Load(Attempt(def, run, tasks, w).tasks, n).status == TRunning
  {
    if ReachesFinalize(def, run, tasks, w) {
      var mid := FinalizingAttempt(def, run, tasks, w);
      FinalTask(def, tasks, mid, n);
    } else if Admitted(run, w) {
      ShortOfFinalize(def, run, tasks, w);
      LoopLeavesRunning(def, tasks, {}, w.handler, w.cancelled, 0, n);
    } else {
      NotAdmitted(def, run, tasks, w);
    }
  }

  lemma FinalizeNeverPanics(def: WorkflowDef, run: Run, tasks: Tasks, states: States, now: int, draw: nat)
    ensures !Finalize(def, run, tasks, states, now, draw).end.Panicked?
  {
  }

  lemma NotAdmitted(def: WorkflowDef, run: Run, tasks: Tasks, w: World)
    requires !Admitted(run, w)
    ensures Attempt(def, run, tasks, w).tasks == tasks && !Attempt(def, run, tasks, w).end.Panicked?
  {
  }

  lemma ShortOfFinalize(def: WorkflowDef, run: Run, tasks: Tasks, w: World)
    requires Admitted(run, w) && !ReachesFinalize(def, run, tasks, w)
    ensures var r, l := Attempt(def, run, tasks, w), Loop(def, tasks, {}, w.handler, w.cancelled, 0);
      r.tasks == l.tasks && (r.end.Panicked? <==> l.end.LoopPanicked?)
  {
  }

  lemma PanickedLoop(def: WorkflowDef, run: Run, tasks: Tasks, w: World)
    requires ValidDef(def) && Attempt(def, run, tasks, w).end.Panicked?
    ensures var l := Loop(def, tasks, {}, w.handler, w.cancelled, 0);
      l.end.LoopPanicked? && Attempt(def, run, tasks, w).tasks == l.tasks
  {
    var l := Loop(def, tasks, {}, w.handler, w.cancelled, 0);
    if ReachesFinalize(def, run, tasks, w) {
      DrainedAttempt(def, run, tasks, w, l.tasks);
      var r := Attempt(def, run, tasks, w);
      FinalizeNeverPanics(def, run, r.tasks, StatesOf(def, r.tasks), w.endMs, w.draw);
      assert false;
    } else if Admitted(run, w) {
      ShortOfFinalize(def, run, tasks, w);
    } else {
      NotAdmitted(def, run, tasks, w);
      assert false;
    }
  }

  lemma PanickedAttempt(def: WorkflowDef, run: Run, tasks: Tasks, w: World)
    requires ValidDef(def) && Attempt(def, run, tasks, w).end.Panicked?
    ensures !NoneRunning(Attempt(def, run, tasks, w).tasks)
  {
    PanickedLoop(def, run, tasks, w);
    LoopPanicLeavesOne(def, tasks, {}, w.handler, w.cancelled, 0);
  }

  /** Any other attempt changes nothing about which tasks are running. */
  lemma OtherAttempt(def: WorkflowDef, run: Run, tasks: Tasks, w: World)
    requires ValidDef(def) && Inv(def, tasks) && !Attempt(def, run, tasks, w).end.Panicked?
    ensures SameRunning(tasks, Attempt(def, run, tasks, w).tasks)
  {
    if ReachesFinalize(def, run, tasks, w) {
      var mid := FinalizingAttempt(def, run, tasks, w);
      forall n
        ensures Load(tasks, n).status == TRunning <==> Load(Skipped(def, mid), n).status == TRunning
      {
        FinalTask(def, tasks, mid, n);
      }
    } else if Admitted(run, w) {
      ShortOfFinalize(def, run, tasks, w);
      LoopSafe(def, tasks, {}, w.handler, w.cancelled, 0);
    } else {
      NotAdmitted(def, run, tasks, w);
    }
  }

  lemma SameNoneRunning(a: Tasks, b: Tasks)
    requires SameRunning(a, b)
    ensures NoneRunning(a) <==> NoneRunning(b)
  {
    forall n | n in a && a[n].status == TRunning ensures n in b && b[n].status == TRunning {
      assert Load(a, n).status == TRunning;
    }
    forall n | n in b && b[n].status == TRunning ensures n in a && a[n].status == TRunning {
      assert Load(b, n).status == TRunning;
    }
  }

  /** An attempt ends with a running task exactly when it began with one or panicked. */
  lemma AttemptRunningIff(def: WorkflowDef, run: Run, tasks: Tasks, w: World)
    requires ValidDef(def) && Inv(def, tasks)
    ensures var r := Attempt(def, run, tasks, w);
      NoneRunning(r.tasks) <==> NoneRunning(tasks) && !r.end.Panicked?
  {
    if Attempt(def, run, tasks, w).end.Panicked? {
      PanickedAttempt(def, run, tasks, w);
    } else {
      OtherAttempt(def, run, tasks, w);
      SameNoneRunning(tasks, Attempt(def, run, tasks, w).tasks);
    }
  }

  // ----- over whole lives

  /** The dispatch ends in a caught panic. */
  predicate Panicking(def: WorkflowDef, life: Life, w: World) {
    match MarkRunning(life.run, w.startMs)
    case None => false
    case Some(run) => Attempt(def, run, life.tasks, w).end.Panicked?
  }

  /** The dispatch reaches `finalize`, whether or not it gets through. */
  predicate Reaches(def: WorkflowDef, life: Life, w: World) {
    match MarkRunning(life.run, w.startMs)
    case None => false
    case Some(run) => ReachesFinalize(def, run, life.tasks, w)
  }

  predicate PanicFree(def: WorkflowDef, life: Life, ws: seq<World>)
    decreases |ws|
  {
    ws == [] || (!Panicking(def, life, ws[0]) && PanicFree(def, Dispatch(def, life, ws[0]), ws[1..]))
  }

  function Reached(def: WorkflowDef, life: Life, ws: seq<World>): nat
    decreases |ws|
  {
    if ws == [] then 0
    else (if Reaches(def, life, ws[0]) then 1 else 0) + Reached(def, Dispatch(def, life, ws[0]), ws[1..])
  }

  lemma DispatchRunningIff(def: WorkflowDef, life: Life, w: World)
    requires ValidDef(def) && Inv(def, life.tasks)
    ensures NoneRunning(Dispatch(def, life, w).tasks) <==> NoneRunning(life.tasks) && !Panicking(def, life, w)
    ensures Inv(def, Dispatch(def, life, w).tasks)
  {
    DispatchTasks(def, life, w);
    if MarkRunning(life.run, w.startMs).Some? {
      AttemptRunningIff(def, MarkRunning(life.run, w.startMs).value, life.tasks, w);
    }
  }

  lemma DispatchTasks(def: WorkflowDef, life: Life, w: World)
    requires ValidDef(def) && Inv(def, life.tasks)
    ensures Inv(def, Dispatch(def, life, w).tasks)
    ensures var run := MarkRunning(life.run, w.startMs);
      Dispatch(def, life, w).tasks == if run.None? then life.tasks else Attempt(def, run.value, life.tasks, w).tasks
  {
    if MarkRunning(life.run, w.startMs).Some? {
      AttemptSafe(def, MarkRunning(life.run, w.startMs).value, life.tasks, w);
    }
  }

  /** A dispatch that reaches `finalize` gets through it exactly when no task was left running. */
  lemma ThroughIffNoneRunning(def: WorkflowDef, life: Life, w: World)
    requires ValidDef(def) && Inv(def, life.tasks)
    ensures Finalizes(def, life, w) <==> Reaches(def, life, w) && NoneRunning(life.tasks)
  {
    if Reaches(def, life, w) {
      EveryTaskTerminal(def, MarkRunning(life.run, w.startMs).value, life.tasks, w);
    }
  }

  /** After any dispatches a task is left running exactly when one was before or one of them panicked. */
  lemma {:induction false} LeftRunningIff(def: WorkflowDef, life: Life, ws: seq<World>)
    requires ValidDef(def) && Inv(def, life.tasks)
    ensures NoneRunning(Lives(def, life, ws).tasks) <==> NoneRunning(life.tasks) && PanicFree(def, life, ws)
    ensures Inv(def, Lives(def, life, ws).tasks)
    decreases |ws|
  {
    if ws != [] {
      DispatchRunningIff(def, life, ws[0]);
      LeftRunningIff(def, Dispatch(def, life, ws[0]), ws[1..]);
    }
  }

  /** A task left running stays running for the rest of the run's life. */
  lemma {:induction false} RunningForever(def: WorkflowDef, life: Life, ws: seq<World>, n: string)
    requires ValidDef(def) && Inv(def, life.tasks) && Load(life.tasks, n).status == TRunning
    ensures Load(Lives(def, life, ws).tasks, n).status == TRunning
    decreases |ws|
  {
    if ws != [] {
      DispatchTasks(def, life, ws[0]);
      if MarkRunning(life.run, ws[0].startMs).Some? {
        AttemptLeavesRunning(def, MarkRunning(life.run, ws[0].startMs).value, life.tasks, ws[0], n);
      }
      RunningForever(def, Dispatch(def, life, ws[0]), ws[1..], n);
    }
  }

  /** From then on no attempt gets through `finalize`. */
  lemma {:induction false} NeverThrough(def: WorkflowDef, life: Life, ws: seq<World>)
    requires ValidDef(def) && Inv(def, life.tasks) && !NoneRunning(life.tasks)
    ensures Finalizations(def, life, ws) == 0
    decreases |ws|
  {
    if ws != [] {
      ThroughIffNoneRunning(def, life, ws[0]);
      DispatchRunningIff(def, life, ws[0]);
      NeverThrough(def, Dispatch(def, life, ws[0]), ws[1..]);
    }
  }

  /** Until then every attempt that reaches `finalize` gets through it. */
  lemma {:induction false} AlwaysThrough(def: WorkflowDef, life: Life, ws: seq<World>)
    requires ValidDef(def) && Inv(def, life.tasks) && NoneRunning(life.tasks) && PanicFree(def, life, ws)
    ensures Reached(def, life, ws) == Finalizations(def, life, ws)
    decreases |ws|
  {
    if ws != [] {
      ThroughIffNoneRunning(def, life, ws[0]);
      DispatchRunningIff(def, life, ws[0]);
      AlwaysThrough(def, Dispatch(def, life, ws[0]), ws[1..]);
    }
  }

  /** Bounded retries, for attempts that reach `finalize`: without a panic at most `max_attempts` do. */
  lemma ReachedWithinBudget(def: WorkflowDef, deadline: Option<int>, ws: seq<World>)
    requires ValidDef(def) && def.retry.Valid() && PanicFree(def, Submitted(deadline), ws)
    ensures Reached(def, Submitted(deadline), ws) <= def.retry.maxAttempts
  {
    AlwaysThrough(def, Submitted(deadline), ws);
    BoundedRetries(def, deadline, ws);
  }

  // ----- after a panic there is no bound

  function Works(n: string, a: nat): HandlerOutcome { HandlerOk }

  /** Handlers work, nobody cancels, and the deadline has not passed. */
  function Quiet(deadline: Option<int>): World {
    var now := if deadline.Some? then deadline.value else 0;
    World(Works, Never, now, now, 0)
  }

  function Copies(w: World, n: nat): seq<World> {
    if n == 0 then [] else [w] + Copies(w, n - 1)
  }

  lemma {:induction false} WorkingBatch(tasks: Tasks, batch: seq<string>)
    ensures !CallAll(tasks, batch, Works).panicked
    decreases batch
  {
    if batch != [] { WorkingBatch(Call(tasks, batch[0], Works).tasks, batch[1..]); }
  }

  lemma {:induction false} WorkingLoopDrains(def: WorkflowDef, tasks: Tasks, executed: set<string>, pass: nat)
    ensures Loop(def, tasks, executed, Works, Never, pass).end.Drained?
    decreases TaskNames(def.tasks) - executed
  {
    var batch := Batch(def, tasks, executed);
    if batch != [] {
      WorkingBatch(tasks, batch);
      BatchShrinks(def, tasks, executed);
      WorkingLoopDrains(def, CallAll(tasks, batch, Works).tasks, executed + Elements(batch), pass + 1);
    }
  }

  /** A run that is not over, dispatched on a quiet day, reaches `finalize`. */
  lemma QuietReaches(def: WorkflowDef, life: Life)
    requires !life.run.status.IsTerminal()
    ensures Reaches(def, life, Quiet(life.run.deadlineAt))
  {
    WorkingLoopDrains(def, life.tasks, {}, 0);
  }

  lemma QuietNeverPanics(def: WorkflowDef, life: Life, deadline: Option<int>)
    requires ValidDef(def)
    ensures !Panicking(def, life, Quiet(deadline))
  {
    var w := Quiet(deadline);
    WorkingLoopDrains(def, life.tasks, {}, 0);
    if Panicking(def, life, w) {
      PanickedLoop(def, MarkRunning(life.run, w.startMs).value, life.tasks, w);
      assert false;
    }
  }

  lemma FinalizeErrs(def: WorkflowDef, run: Run, tasks: Tasks, states: States, now: int, draw: nat)
    requires !Finalize(def, run, tasks, states, now, draw).end.Finished?
    ensures Finalize(def, run, tasks, states, now, draw).write == None
  {
  }

  /** A run not yet over, with a task left running, and its deadline. */
  ghost predicate Stuck(def: WorkflowDef, life: Life, deadline: Option<int>) {
    Inv(def, life.tasks) && !NoneRunning(life.tasks) && !life.run.status.IsTerminal() && life.run.deadlineAt == deadline
  }

  /** A dispatch that reaches `finalize` with a task left running stores no run record. */
  lemma ErringDispatch(def: WorkflowDef, life: Life, w: World)
    requires ValidDef(def) && Inv(def, life.tasks) && !NoneRunning(life.tasks) && Reaches(def, life, w)
    ensures Some(Dispatch(def, life, w).run) == MarkRunning(life.run, w.startMs)
  {
    var run := MarkRunning(life.run, w.startMs).value;
    EveryTaskTerminal(def, run, life.tasks, w);
    StuckWritesNothing(def, run, life.tasks, w);
  }

  lemma StuckWritesNothing(def: WorkflowDef, run: Run, tasks: Tasks, w: World)
    requires ValidDef(def) && Inv(def, tasks) && ReachesFinalize(def, run, tasks, w)
    requires !Attempt(def, run, tasks, w).end.Finished?
    ensures Attempt(def, run, tasks, w).write == None
  {
    var r := Attempt(def, run, tasks, w);
    var mid := FinalizingAttempt(def, run, tasks, w);
    FinalizeErrs(def, run, r.tasks, StatesOf(def, r.tasks), w.endMs, w.draw);
  }

  lemma StillStuck(def: WorkflowDef, life: Life, now: int, next: Life, deadline: Option<int>)
    requires Stuck(def, life, deadline) && Some(next.run) == MarkRunning(life.run, now)
    requires Inv(def, next.tasks) && !NoneRunning(next.tasks)
    ensures Stuck(def, next, deadline)
  {
  }

  /** How often `hit` along the steps that `ws` bring about. */
  function Count(step: (Life, World) -> Life, hit: (Life, World) -> bool, life: Life, ws: seq<World>): nat
    decreases |ws|
  {
    if ws == [] then 0 else (if hit(life, ws[0]) then 1 else 0) + Count(step, hit, step(life, ws[0]), ws[1..])
  }

  lemma {:induction false} CountsCopies(
    step: (Life, World) -> Life, hit: (Life, World) -> bool, good: Life -> bool, life: Life, w: World, n: nat)
    requires good(life) && forall l :: good(l) ==> hit(l, w) && good(step(l, w))
    ensures Count(step, hit, life, Copies(w, n)) == n
    decreases n
  {
    if n > 0 {
      CountsCopies(step, hit, good, step(life, w), w, n - 1);
      assert Copies(w, n)[1..] == Copies(w, n - 1);
    }
  }

  lemma {:induction false} ReachedIsCount(
    def: WorkflowDef, step: (Life, World) -> Life, hit: (Life, World) -> bool, life: Life, ws: seq<World>)
    requires forall l, w :: step(l, w) == Dispatch(def, l, w)
    requires forall l, w :: hit(l, w) == Reaches(def, l, w)
    ensures Reached(def, life, ws) == Count(step, hit, life, ws)
    decreases |ws|
  {
    if ws != [] { ReachedIsCount(def, step, hit, step(life, ws[0]), ws[1..]); }
  }

  lemma QuietStuckStep(def: WorkflowDef, life: Life, deadline: Option<int>)
    requires ValidDef(def) && Stuck(def, life, deadline)
    ensures Reaches(def, life, Quiet(deadline)) && Stuck(def, Dispatch(def, life, Quiet(deadline)), deadline)
  {
    var w := Quiet(deadline);
    QuietReaches(def, life);
    StuckStep(def, life, w, deadline);
  }

  lemma StuckStep(def: WorkflowDef, life: Life, w: World, deadline: Option<int>)
    requires ValidDef(def) && Stuck(def, life, deadline) && Reaches(def, life, w)
    ensures Stuck(def, Dispatch(def, life, w), deadline)
  {
    ErringDispatch(def, life, w);
    DispatchRunningIff(def, life, w);
    StillStuck(def, life, w.startMs, Dispatch(def, life, w), deadline);
  }

  /** Every further quiet dispatch reaches `finalize`, errs, and leaves the run as it was. */
  lemma StuckReachesForever(def: WorkflowDef, life: Life, deadline: Option<int>, n: nat)
    requires ValidDef(def) && Stuck(def, life, deadline)
    ensures Reached(def, life, Copies(Quiet(deadline), n)) == n
  {
    StuckCounts(def, life, deadline, Quiet(deadline), n, (l, w) => Dispatch(def, l, w), (l, w) => Reaches(def, l, w));
  }

  lemma StuckCounts(def: WorkflowDef, life: Life, deadline: Option<int>, w: World, n: nat,
                    step: (Life, World) -> Life, hit: (Life, World) -> bool)
    requires ValidDef(def) && Stuck(def, life, deadline) && w == Quiet(deadline)
    requires forall l, x :: step(l, x) == Dispatch(def, l, x)
    requires forall l, x :: hit(l, x) == Reaches(def, l, x)
    ensures Reached(def, life, Copies(w, n)) == n
  {
    var good: Life -> bool := l => Stuck(def, l, deadline);
    forall l | good(l) ensures hit(l, w) && good(step(l, w)) { QuietStuckStep(def, l, deadline); }
    CountsCopies(step, hit, good, life, w, n);
    ReachedIsCount(def, step, hit, life, Copies(w, n));
  }

  lemma {:induction false} QuietPanicFree(def: WorkflowDef, life: Life, deadline: Option<int>, n: nat)
    requires ValidDef(def)
    ensures PanicFree(def, life, Copies(Quiet(deadline), n))
    decreases n
  {
    if n > 0 {
      var w := Quiet(deadline);
      QuietNeverPanics(def, life, deadline);
      QuietPanicFree(def, Dispatch(def, life, w), deadline, n - 1);
      assert Copies(w, n)[1..] == Copies(w, n - 1);
    }
  }

  lemma {:induction false} Continue(def: WorkflowDef, life: Life, ws: seq<World>, more: seq<World>)
    ensures Reached(def, life, ws + more) == Reached(def, life, ws) + Reached(def, Lives(def, life, ws), more)
    ensures PanicFree(def, life, ws + more) <==> PanicFree(def, life, ws) && PanicFree(def, Lives(def, life, ws), more)
    decreases |ws|
  {
    if ws == [] {
      assert ws + more == more;
    } else {
      Continue(def, Dispatch(def, life, ws[0]), ws[1..], more);
      assert (ws + more)[1..] == ws[1..] + more;
    }
  }

  /**
   The exact condition: of a submitted run that is not over after the dispatches
   `ws`, at most `max_attempts` attempts ever reach `finalize`, however many quiet
   dispatches follow, exactly when none of `ws` panicked.
   */
  lemma ReachBoundedIff(def: WorkflowDef, deadline: Option<int>, ws: seq<World>)
    requires ValidDef(def) && def.retry.Valid()
    requires !Lives(def, Submitted(deadline), ws).run.status.IsTerminal()
    ensures var w := Quiet(Lives(def, Submitted(deadline), ws).run.deadlineAt);
      (forall n: nat :: Reached(def, Submitted(deadline), ws + Copies(w, n)) <= def.retry.maxAttempts) <==>
      PanicFree(def, Submitted(deadline), ws)
  {
    var life := Submitted(deadline);
    var end := Lives(def, life, ws);
    var d := end.run.deadlineAt;
    LeftRunningIff(def, life, ws);
    if PanicFree(def, life, ws) {
      forall n: nat ensures Reached(def, life, ws + Copies(Quiet(d), n)) <= def.retry.maxAttempts {
        QuietPanicFree(def, end, d, n);
        Continue(def, life, ws, Copies(Quiet(d), n));
        ReachedWithinBudget(def, deadline, ws + Copies(Quiet(d), n));
      }
    } else {
      var n := def.retry.maxAttempts + 1;
      StuckReachesForever(def, end, d, n);
      Continue(def, life, ws, Copies(Quiet(d), n));
      assert Reached(def, life, ws + Copies(Quiet(d), n)) > def.retry.maxAttempts;
    }
  }

  // ----- a submitted run that panics

  function Bomb(n: string, a: nat): HandlerOutcome { HandlerPanic }

  function BadDay(): World {
    World(Bomb, Never, 0, 0, 0)
  }

  lemma BombCall(f: string)
    ensures CallAll(map[], [f], Bomb).tasks == map[f := TaskRec(TRunning, 1)] && CallAll(map[], [f], Bomb).panicked
  {
  }

  lemma BombLoop(def: WorkflowDef, f: string, r: string)
    requires Shape(def, f, r)
    ensures var l := Loop(def, map[], {}, Bomb, Never, 0);
      l.end == LoopPanicked && l.tasks == map[f := TaskRec(TRunning, 1)]
  {
    ExampleRecords(def, f, r, 0);
    OnlyOne(def, map[], {}, f);
    BombCall(f);
  }

  lemma BombAttempt(def: WorkflowDef, f: string, r: string, run: Run)
    requires Shape(def, f, r) && run.status == Running && run.deadlineAt == None
    ensures var t := Attempt(def, run, map[], BadDay());
      t.end.Panicked? && t.tasks == map[f := TaskRec(TRunning, 1)] && t.write == None
  {
    BombLoop(def, f, r);
  }

  /** A submitted run whose first handler panics: the run and the task stay running, with nothing to move them. */
  lemma PanicLeavesTaskRunning(f: string, r: string, ws: seq<World>)
    requires f != r
    ensures var life := Lives(Example(f, r), Submitted(None), [BadDay()]);
      && life.run.status == Running && life.tasks == map[f := TaskRec(TRunning, 1)]
      && Finalizations(Example(f, r), life, ws) == 0
  {
    var def := Example(f, r);
    ExampleShape(f, r);
    BombAttempt(def, f, r, MarkRunning(Submitted(None).run, 0).value);
    var life := Dispatch(def, Submitted(None), BadDay());
    assert [BadDay()][1..] == [];
    assert Lives(def, Submitted(None), [BadDay()]) == life;
    LeftRunningIff(def, Submitted(None), [BadDay()]);
    NeverThrough(def, life, ws);
  }
}
