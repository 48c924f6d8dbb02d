/**
 Run consistency and skip exactness.
 */
module Skips {
  import opened Domain
  import opened Names
  import opened Graph
  import opened Waves
  import opened Pick
  import opened DryRun
  import opened Executor
  import opened TaskSafety
  import opened Attempts

  // ----- check_run_consistency

  datatype InvariantError =
    | SucceededWithNonTerminalTask(task: string)
    | TerminalWithRunningTask(task: string)
    | RunBlocked
    | ActiveWithNoTasks
    | SkippedWithoutFailedDependency(task: string)

  type Listing = seq<(string, TaskStatus)>

  function FirstWith(tasks: Listing, s: TaskStatus): (r: Option<string>)
    ensures r.None? <==> forall p :: p in tasks ==> p.1 != s
    ensures r.Some? ==> (r.value, s) in tasks
  {
    if tasks == [] then None
    else if tasks[0].1 == s then Some(tasks[0].0)
    else
      assert tasks == [tasks[0]] + tasks[1..];
      FirstWith(tasks[1..], s)
  }

  function FirstActive(tasks: Listing): (r: Option<string>)
    ensures r.None? <==> forall p :: p in tasks ==> p.1.IsTerminal()
    ensures r.Some? ==> exists p :: p in tasks && p.0 == r.value && !p.1.IsTerminal()
  {
    if tasks == [] then None
    else if !tasks[0].1.IsTerminal() then Some(tasks[0].0)
    else
      assert tasks == [tasks[0]] + tasks[1..];
      FirstActive(tasks[1..])
  }

  function CheckRunConsistency(run: RunStatus, tasks: Listing): Option<InvariantError> {
    var running := FirstWith(tasks, TRunning);
    var active := FirstActive(tasks);
    var skipped := FirstWith(tasks, TSkipped);
    if (run.Failed? || run.TimedOut?) && running.Some? then Some(TerminalWithRunningTask(running.value))
    else if run.Succeeded? then
      if active.Some? then Some(SucceededWithNonTerminalTask(active.value)) else None
    else if run.Running? && tasks == [] then Some(ActiveWithNoTasks)
    else if run.Running? && active.None? then Some(RunBlocked)
    else if (run.Failed? || run.TimedOut?) && skipped.Some? && FirstWith(tasks, TFailed).None? then
      Some(SkippedWithoutFailedDependency(skipped.value))
    else None
  }

  /** What the check accepts, status by status. */
  lemma ConsistentIff(run: RunStatus, tasks: Listing)
    ensures CheckRunConsistency(run, tasks) == None <==>
      match run
      case Succeeded => forall p :: p in tasks ==> p.1.IsTerminal()
      case Running => exists p :: p in tasks && !p.1.IsTerminal()
      case Queued => true
      case Cancelled => true
      case _ =>
        && (forall p :: p in tasks ==> p.1 != TRunning)
        && ((exists p :: p in tasks && p.1 == TSkipped) ==> exists p :: p in tasks && p.1 == TFailed)
  {
  }

  /** And what each complaint says is so. */
  lemma ComplaintsAreTrue(run: RunStatus, tasks: Listing)
    ensures match CheckRunConsistency(run, tasks)
      case None => true
      case Some(SucceededWithNonTerminalTask(n)) =>
        run == RunStatus.Succeeded && exists p :: p in tasks && p.0 == n && !p.1.IsTerminal()
      case Some(TerminalWithRunningTask(n)) => run != RunStatus.Succeeded && run.IsTerminal() && (n, TRunning) in tasks
      case Some(RunBlocked) => run == Running && tasks != [] && forall p :: p in tasks ==> p.1.IsTerminal()
      case Some(ActiveWithNoTasks) => run == Running && tasks == []
      case Some(SkippedWithoutFailedDependency(n)) =>
        run.IsTerminal() && (n, TSkipped) in tasks && forall p :: p in tasks ==> p.1 != TFailed
  {
  }

  /** A listing of the task statuses, in any order. */
  ghost predicate Lists(tasks: Listing, states: States) {
    forall n, s :: (n, s) in tasks <==> n in states && states[n] == s
  }

  /** Finalizing pairs the run with its tasks consistently, on any graph. */
  lemma FinalizedRunIsConsistent(def: WorkflowDef, run: Run, tasks: Tasks, w: World, listing: Listing)
    requires ValidDef(def) && Inv(def, tasks) && ReachesFinalize(def, run, tasks, w) && NoneRunning(tasks)
    requires Lists(listing, StatesOf(def, Attempt(def, run, tasks, w).tasks))
    ensures Attempt(def, run, tasks, w).end.Finished?
    ensures CheckRunConsistency(Attempt(def, run, tasks, w).end.status, listing) == None
  {
    EveryTaskTerminal(def, run, tasks, w);
    var mid := FinalizingAttempt(def, run, tasks, w);
    var r := Attempt(def, run, tasks, w);
    FinalizeConsistent(def, run, r.tasks, StatesOf(def, r.tasks), w.endMs, w.draw, listing);
  }

  lemma FinalizeConsistent(
    def: WorkflowDef, run: Run, tasks: Tasks, states: States, now: int, draw: nat, listing: Listing)
    requires run.status == Running && AllTerminal(states) && Lists(listing, states)
    ensures var f := Finalize(def, run, tasks, states, now, draw);
      f.end.Finished? && CheckRunConsistency(f.end.status, listing) == None
  {
    TerminalListing(listing, states);
    TerminalIsConsistent(Finalize(def, run, tasks, states, now, draw).end.status, listing, states);
  }

  lemma TerminalListing(listing: Listing, states: States)
    requires AllTerminal(states) && Lists(listing, states)
    ensures FirstActive(listing).None? && FirstWith(listing, TRunning).None?
    ensures FirstWith(listing, TFailed).None? ==> forall n :: n in states ==> states[n] != TFailed
  {
    forall p | p in listing ensures p.1.IsTerminal() { assert (p.0, p.1) in listing; }
    if n :| n in states && states[n] == TFailed {
      assert (n, TFailed) in listing;
    }
  }

  lemma TerminalIsConsistent(status: RunStatus, listing: Listing, states: States)
    requires FirstActive(listing).None? && FirstWith(listing, TRunning).None?
    requires status == RunStatus.Succeeded || status == Queued || status == RunStatus.Failed
    requires status == RunStatus.Failed ==> FirstWith(listing, TFailed).Some?
    ensures CheckRunConsistency(status, listing) == None
  {
  }

  // ----- skips and failures

  /** The statuses a finished first attempt has. */
  ghost predicate Settlement(def: WorkflowDef, final: Tasks) {
    && Inv(def, final)
    && (forall n :: n in TaskNames(def.tasks) ==> Load(final, n).status.IsTerminal())
    && (forall n :: Load(final, n).status == TSkipped ==> !DepsMet(def, final, n))
  }

  /** A skipped task has a failure upstream: following unsucceeded dependencies must end in one. */
  lemma {:induction false} SkippedHasFailedAncestor(def: WorkflowDef, final: Tasks, k: nat, n: string)
    returns (f: string)
    requires ValidDef(def) && Settlement(def, final) && Resolved(DepsOf(def.tasks))
    requires n in TaskNames(def.tasks) && Load(final, n).status == TSkipped
    requires Within(DepsOf(def.tasks), k, n)
    ensures Ancestor(DepsOf(def.tasks), f, n) && Load(final, f).status == TFailed
    decreases k
  {
    var g := DepsOf(def.tasks);
    var d := SkippedHasUnmetDep(def, final, n);
    if Load(final, d).status == TFailed {
      f := d;
      assert ChainTo(g, [d, n], n);
    } else {
      f := SkippedHasFailedAncestor(def, final, k - 1, d);
      AncestorOfDep(g, f, d, n);
    }
  }

  lemma SkippedHasUnmetDep(def: WorkflowDef, final: Tasks, n: string) returns (d: string)
    requires ValidDef(def) && Settlement(def, final) && Resolved(DepsOf(def.tasks))
    requires n in TaskNames(def.tasks) && Load(final, n).status == TSkipped
    ensures d in DepsOf(def.tasks)[n] && d in TaskNames(def.tasks)
    ensures Load(final, d).status == TFailed || Load(final, d).status == TSkipped
  {
    DependsOnIsDeps(def.tasks, n);
    d :| d in DependsOn(def.tasks, n) && !Done(final, d);
    assert d in Elements(DependsOn(def.tasks, n));
    assert d in DepsOf(def.tasks);
  }

  lemma AncestorOfDep(g: Graph, f: string, d: string, n: string)
    requires Ancestor(g, f, d) && n in g && d in g[n]
    ensures Ancestor(g, f, n)
  {
    var p :| ChainTo(g, p, d) && |p| >= 2 && p[0] == f;
    ChainExtend(g, p, n);
    assert (p + [n])[0] == f;
  }

  /** Nothing downstream of a failure was ever started. */
  lemma {:induction false} DescendantSkipped(def: WorkflowDef, final: Tasks, p: seq<string>, n: string)
    requires ValidDef(def) && Settlement(def, final)
    requires ChainTo(DepsOf(def.tasks), p, n) && |p| >= 2 && Load(final, p[0]).status == TFailed
    ensures Load(final, n).status == TSkipped
    decreases |p|
  {
    var g := DepsOf(def.tasks);
    var d := p[|p| - 2];
    if |p| > 2 {
      ChainSlice(g, p, 0, |p| - 1);
      DescendantSkipped(def, final, p[0..|p| - 1], d);
    }
    assert !Done(final, d);
    DependsOnIsDeps(def.tasks, n);
    assert d in Elements(DependsOn(def.tasks, n));
    assert !DepsMet(def, final, n);
  }

  lemma AcyclicIsWithin(g: Graph, n: string)
    requires Resolved(g) && Acyclic(g) && n in g
    ensures Within(g, |g|, n)
  {
    forall p | ChainTo(g, p, n) ensures |p| <= |g| { ChainHasNoRepeats(g, p); }
    EmittedIffShortChains(g, |g|, n);
    EmittedIsWithin(g, |g|, n);
  }

  lemma SettlementOf(def: WorkflowDef, run: Run, tasks: Tasks, w: World)
    requires ValidDef(def) && Inv(def, tasks) && ReachesFinalize(def, run, tasks, w) && NoneRunning(tasks)
    requires forall n :: n in tasks ==> tasks[n].status != TSkipped
    ensures Settlement(def, Attempt(def, run, tasks, w).tasks)
  {
    var mid := FinalizingAttempt(def, run, tasks, w);
    assert Inv(def, Skipped(def, mid)) by { AttemptSafe(def, run, tasks, w); }
    SettlementFrom(def, tasks, mid);
  }

  lemma SettlementFrom(def: WorkflowDef, tasks: Tasks, mid: Tasks)
    requires ValidDef(def) && SameSkips(tasks, mid) && SameRunning(tasks, mid) && NothingReady(def, mid)
    requires Inv(def, Skipped(def, mid))
    requires forall n :: n in tasks ==> tasks[n].status != TRunning && tasks[n].status != TSkipped
    ensures Settlement(def, Skipped(def, mid))
  {
    forall n ensures n in TaskNames(def.tasks) ==> Load(Skipped(def, mid), n).status.IsTerminal()
      ensures Load(Skipped(def, mid), n).status == TSkipped ==> !DepsMet(def, Skipped(def, mid), n)
    {
      FinalTask(def, tasks, mid, n);
    }
  }

  /**
   Skip exactness: on a run without earlier skips (its first attempt, in
   particular) over an acyclic resolved graph, the skipped tasks are exactly the
   proper descendants of the failed ones.
   */
  lemma SkippedIffFailureUpstream(def: WorkflowDef, run: Run, tasks: Tasks, w: World, n: string)
    requires ValidDef(def) && Inv(def, tasks) && ReachesFinalize(def, run, tasks, w) && NoneRunning(tasks)
    requires forall m :: m in tasks ==> tasks[m].status != TSkipped
    requires Resolved(DepsOf(def.tasks)) && Acyclic(DepsOf(def.tasks)) && n in TaskNames(def.tasks)
    ensures var final := Attempt(def, run, tasks, w).tasks;
      Load(final, n).status == TSkipped <==>
      exists f :: Ancestor(DepsOf(def.tasks), f, n) && Load(final, f).status == TFailed
  {
    var g := DepsOf(def.tasks);
    var final := Attempt(def, run, tasks, w).tasks;
    SettlementOf(def, run, tasks, w);
    if Load(final, n).status == TSkipped {
      AcyclicIsWithin(g, n);
      var f := SkippedHasFailedAncestor(def, final, |g|, n);
    }
    if f :| Ancestor(g, f, n) && Load(final, f).status == TFailed {
      var p :| ChainTo(g, p, n) && |p| >= 2 && p[0] == f;
      DescendantSkipped(def, final, p, n);
    }
  }

  /**
   A run that ends `Succeeded` over an acyclic resolved graph has a skipped task
   exactly when it already had one before the attempt: a skip is never
   reconsidered, whatever the retry does upstream of it.
   */
  lemma SucceededWithSkips(def: WorkflowDef, run: Run, tasks: Tasks, w: World)
    requires ValidDef(def) && Inv(def, tasks) && ReachesFinalize(def, run, tasks, w) && NoneRunning(tasks)
    requires Resolved(DepsOf(def.tasks)) && Acyclic(DepsOf(def.tasks))
    requires Attempt(def, run, tasks, w).end.Finished? && Attempt(def, run, tasks, w).end.status == RunStatus.Succeeded
    ensures var final := Attempt(def, run, tasks, w).tasks;
      (exists n :: n in final && final[n].status == TSkipped) <==>
      (exists n :: n in tasks && tasks[n].status == TSkipped)
  {
    var final := Attempt(def, run, tasks, w).tasks;
    var mid := FinalizingAttempt(def, run, tasks, w);
    NoFailureInSuccess(def, run, final, StatesOf(def, final), w.endMs, w.draw);
    if n :| n in tasks && tasks[n].status == TSkipped {
      FinalTask(def, tasks, mid, n);
      assert n in final;
    } else {
      SettlementOf(def, run, tasks, w);
      NoSkipWithoutFailure(def, final);
    }
  }

  lemma NoFailureInSuccess(def: WorkflowDef, run: Run, tasks: Tasks, states: States, now: int, draw: nat)
    requires Finalize(def, run, tasks, states, now, draw).end.Finished?
    requires Finalize(def, run, tasks, states, now, draw).end.status == RunStatus.Succeeded
    ensures forall n :: n in states ==> states[n] != TFailed
  {
  }

  lemma NoSkipWithoutFailure(def: WorkflowDef, final: Tasks)
    requires ValidDef(def) && Settlement(def, final)
    requires Resolved(DepsOf(def.tasks)) && Acyclic(DepsOf(def.tasks))
    requires forall n :: n in StatesOf(def, final) ==> StatesOf(def, final)[n] != TFailed
    ensures forall n :: n in final ==> final[n].status != TSkipped
  {
    var g := DepsOf(def.tasks);
    assert forall f :: f in final ==> f in StatesOf(def, final);
    assert forall f :: Load(final, f).status != TFailed;
    if n :| n in final && final[n].status == TSkipped {
      AcyclicIsWithin(g, n);
      var f := SkippedHasFailedAncestor(def, final, |g|, n);
    }
  }
}
