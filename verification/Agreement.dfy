/**
 The simulator agrees with the executor.

 Both are written separately: the one counts in-degrees, the other re-reads task
 statuses.  When every handler succeeds they dispatch the same waves.
 */
module Agreement {
  import opened Domain
  import opened Names
  import opened Graph
  import opened Waves
  import opened Pick
  import opened DryRun
  import opened Executor
  import opened TaskSafety
  import opened Attempts
  import opened CriticalPath
  import TopoOrder

  /** Exactly the tasks in `done` have run, once each, and succeeded. */
  function AllDone(done: set<string>): Tasks {
    map n | n in done :: TaskRec(TSucceeded, 1)
  }

  lemma CallableIsFrontier(def: WorkflowDef, done: set<string>, n: string)
    requires ValidDef(def)
    ensures Callable(def, AllDone(done), n) && n !in done <==> n in Frontier(DepsOf(def.tasks), done)
  {
    if n in TaskNames(def.tasks) {
      DependsOnIsDeps(def.tasks, n);
      assert DepsMet(def, AllDone(done), n) <==> Elements(DependsOn(def.tasks, n)) <= done;
    }
  }

  /** With the tasks in `done` succeeded, a pass picks the frontier in name order. */
  lemma BatchIsFrontier(def: WorkflowDef, done: set<string>)
    requires ValidDef(def) && Inv(def, AllDone(done))
    ensures Batch(def, AllDone(done), done) == SortedSeq(Frontier(DepsOf(def.tasks), done))
  {
    var tasks := AllDone(done);
    var batch := Batch(def, tasks, done);
    var wave := Frontier(DepsOf(def.tasks), done);
    BatchCallable(def, tasks, done);
    forall n ensures n in batch <==> n in wave { CallableIsFrontier(def, done, n); }
    assert Elements(batch) == wave;
    assert StrictlyAscending(batch) by { BatchAscending(def, tasks, done); }
    SortedSeqAscending(wave);
    StrictlyAscendingUnique(batch, SortedSeq(wave));
  }

  lemma BatchAscending(def: WorkflowDef, tasks: Tasks, executed: set<string>)
    requires ValidDef(def)
    ensures StrictlyAscending(Batch(def, tasks, executed))
  {
    var ready := Ready(def.tasks, StatesOf(def, tasks));
    ReadyMeaning(def.tasks, StatesOf(def, tasks));
    assert StrictlyAscending(ready);
    KeepAscending(def, tasks, executed, ready);
  }

  lemma {:induction false} KeepAscending(def: WorkflowDef, tasks: Tasks, executed: set<string>, names: seq<string>)
    requires StrictlyAscending(names)
    ensures StrictlyAscending(Keep(def, tasks, executed, names))
  {
    if names != [] {
      KeepAscending(def, tasks, executed, names[1..]);
      var rest := Keep(def, tasks, executed, names[1..]);
      forall m | m in rest ensures Less(names[0], m) {
        assert m in names[1..];
      }
    }
  }

  ghost predicate AlwaysOk(h: Handler) {
    forall n, a :: h(n, a) == HandlerOk
  }

  /** A batch of fresh tasks whose handlers all succeed becomes done. */
  lemma {:induction false} BatchSucceeds(done: set<string>, batch: seq<string>, h: Handler)
    requires AlwaysOk(h) && NoDuplicates(batch) && Elements(batch) !! done
    ensures CallAll(AllDone(done), batch, h).tasks == AllDone(done + Elements(batch))
    ensures !CallAll(AllDone(done), batch, h).panicked
    decreases batch
  {
    if batch == [] {
      assert done + Elements(batch) == done;
    } else {
      var n, rest := batch[0], batch[1..];
      assert batch == [n] + rest && n in Elements(batch);
      assert Elements(batch) == {n} + Elements(rest);
      assert h(n, 1) == HandlerOk;
      assert Call(AllDone(done), n, h).tasks == AllDone(done + {n});
      assert !Call(AllDone(done), n, h).panicked;
      BatchSucceeds(done + {n}, rest, h);
      assert done + {n} + Elements(rest) == done + Elements(batch);
    }
  }

  /** One all-successful pass takes the completed tasks to the next wave. */
  lemma PassCompletesWave(def: WorkflowDef, h: Handler, k: nat, done: set<string>)
    requires ValidDef(def) && AlwaysOk(h) && done == Emitted(DepsOf(def.tasks), k) && Inv(def, AllDone(done))
    ensures var batch := Batch(def, AllDone(done), done);
      var t := CallAll(AllDone(done), batch, h);
      && batch == SortedSeq(Wave(DepsOf(def.tasks), k))
      && !t.panicked && t.tasks == AllDone(done + Elements(batch)) && Inv(def, t.tasks)
      && done + Elements(batch) == Emitted(DepsOf(def.tasks), k + 1)
  {
    var g := DepsOf(def.tasks);
    var batch := Batch(def, AllDone(done), done);
    var t := CallAll(AllDone(done), batch, h);
    BatchIsFrontier(def, done);
    assert Elements(batch) == Wave(g, k);
    BatchSucceeds(done, batch, h);
    EmittedNext(g, k);
    BatchCallable(def, AllDone(done), done);
    CallAllSafe(def, AllDone(done), batch, h);
    LogKeepsInv(def, AllDone(done), t.log);
  }

  /** The executor is about to make pass `k`, with all earlier stages done. */
  ghost predicate AtPass(def: WorkflowDef, k: nat, stages: seq<seq<string>>, done: set<string>) {
    && ValidDef(def) && StagesAreWaves(DepsOf(def.tasks), stages)
    && done == Emitted(DepsOf(def.tasks), k) && Inv(def, AllDone(done))
  }

  lemma PassIsStage(def: WorkflowDef, h: Handler, k: nat, stages: seq<seq<string>>, done: set<string>)
    requires AtPass(def, k, stages, done) && AlwaysOk(h) && k <= |stages|
    ensures var batch := Batch(def, AllDone(done), done);
      var t := CallAll(AllDone(done), batch, h);
      && (if k < |stages| then batch == stages[k] && batch != [] else batch == [])
      && !t.panicked && t.tasks == AllDone(done + Elements(batch))
      && AtPass(def, k + 1, stages, done + Elements(batch))
  {
    var g := DepsOf(def.tasks);
    PassCompletesWave(def, h, k, done);
    StageEmptyAtEnd(g, stages, k);
    assert |Batch(def, AllDone(done), done)| == |Wave(g, k)|;
  }

  lemma SplitAt(stages: seq<seq<string>>, k: nat)
    requires k < |stages|
    ensures stages[k..] == [stages[k]] + stages[k + 1..]
  {
  }

  lemma EmptyTail(stages: seq<seq<string>>, k: nat)
    requires k == |stages|
    ensures stages[k..] == []
  {
  }

  lemma StageEmptyAtEnd(g: Graph, stages: seq<seq<string>>, k: nat)
    requires StagesAreWaves(g, stages) && k <= |stages|
    ensures if k < |stages| then stages[k] == SortedSeq(Wave(g, k)) && Wave(g, k) != {} else Wave(g, k) == {}
  {
  }

  /** Passes and outcome of the loop entered with the first `k` stages done. */
  ghost function RunFrom(def: WorkflowDef, h: Handler, cancelled: nat -> bool, k: nat): (seq<seq<string>>, LoopEnd) {
    var done := Emitted(DepsOf(def.tasks), k);
    var r := Loop(def, AllDone(done), done, h, cancelled, k);
    (r.passes, r.end)
  }

  lemma {:induction false} AtEveryPass(def: WorkflowDef, h: Handler, k: nat, stages: seq<seq<string>>)
    requires ValidDef(def) && StagesAreWaves(DepsOf(def.tasks), stages) && AlwaysOk(h) && k <= |stages|
    ensures AtPass(def, k, stages, Emitted(DepsOf(def.tasks), k))
  {
    if k > 0 {
      AtEveryPass(def, h, k - 1, stages);
      PassIsStage(def, h, k - 1, stages, Emitted(DepsOf(def.tasks), k - 1));
    }
  }

  lemma OnePass(def: WorkflowDef, h: Handler, cancelled: nat -> bool, k: nat, stages: seq<seq<string>>)
    requires AtPass(def, k, stages, Emitted(DepsOf(def.tasks), k)) && AlwaysOk(h) && !cancelled(k) && k < |stages|
    ensures RunFrom(def, h, cancelled, k)
            == ([stages[k]] + RunFrom(def, h, cancelled, k + 1).0, RunFrom(def, h, cancelled, k + 1).1)
  {
    var done := Emitted(DepsOf(def.tasks), k);
    PassIsStage(def, h, k, stages, done);
    FirstPass(def, AllDone(done), done, h, cancelled, k);
  }

  lemma NoMorePasses(def: WorkflowDef, h: Handler, cancelled: nat -> bool, stages: seq<seq<string>>)
    requires AtPass(def, |stages|, stages, Emitted(DepsOf(def.tasks), |stages|)) && AlwaysOk(h) && !cancelled(|stages|)
    ensures RunFrom(def, h, cancelled, |stages|) == ([], Drained)
  {
    var done := Emitted(DepsOf(def.tasks), |stages|);
    PassIsStage(def, h, |stages|, stages, done);
    LastPass(def, AllDone(done), done, h, cancelled, |stages|);
  }

  /** If each step yields one more stage, all steps yield all stages. */
  lemma {:induction false} Telescope(run: nat -> (seq<seq<string>>, LoopEnd), stages: seq<seq<string>>, k: nat)
    requires k <= |stages| && run(|stages|) == ([], Drained)
    requires forall i :: 0 <= i < |stages| ==> run(i) == ([stages[i]] + run(i + 1).0, run(i + 1).1)
    ensures run(k) == (stages[k..], Drained)
    decreases |stages| - k
  {
    if k < |stages| {
      Telescope(run, stages, k + 1);
      SplitAt(stages, k);
    } else {
      EmptyTail(stages, k);
    }
  }

  lemma EachPass(def: WorkflowDef, h: Handler, cancelled: nat -> bool, stages: seq<seq<string>>, k: nat)
    requires ValidDef(def) && AlwaysOk(h) && (forall p :: !cancelled(p)) && k <= |stages|
    requires StagesAreWaves(DepsOf(def.tasks), stages)
    ensures k < |stages| ==>
      var rest := RunFrom(def, h, cancelled, k + 1); RunFrom(def, h, cancelled, k) == ([stages[k]] + rest.0, rest.1)
    ensures k == |stages| ==> RunFrom(def, h, cancelled, k) == ([], Drained)
  {
    AtEveryPass(def, h, k, stages);
    if k < |stages| { OnePass(def, h, cancelled, k, stages); } else { NoMorePasses(def, h, cancelled, stages); }
  }

  lemma AllPasses(def: WorkflowDef, h: Handler, cancelled: nat -> bool, stages: seq<seq<string>>,
                  run: nat -> (seq<seq<string>>, LoopEnd))
    requires ValidDef(def) && AlwaysOk(h) && (forall p :: !cancelled(p))
    requires StagesAreWaves(DepsOf(def.tasks), stages)
    requires forall k: nat :: run(k) == RunFrom(def, h, cancelled, k)
    ensures run(0) == (stages, Drained)
  {
    forall k: nat | k <= |stages|
      ensures k < |stages| ==> run(k) == ([stages[k]] + run(k + 1).0, run(k + 1).1)
      ensures k == |stages| ==> run(k) == ([], Drained)
    {
      EachPass(def, h, cancelled, stages, k);
    }
    Telescope(run, stages, 0);
    assert stages[0..] == stages;
  }

  /**
   For unique names and an acyclic resolved graph, when every handler succeeds
   and no cancellation arrives, pass `k` of the executor dispatches exactly stage
   `k` of the dry run, in the same order, and there are as many passes as stages.
   */
  lemma ExecutorFollowsStages(def: WorkflowDef, h: Handler, cancelled: nat -> bool, stages: seq<seq<string>>)
    requires ValidDef(def) && AlwaysOk(h) && (forall p :: !cancelled(p))
    requires StagesAreWaves(DepsOf(def.tasks), stages)
    ensures Loop(def, map[], {}, h, cancelled, 0).passes == stages
    ensures Loop(def, map[], {}, h, cancelled, 0).end.Drained?
  {
    AllPasses(def, h, cancelled, stages, (k: nat) => RunFrom(def, h, cancelled, k));
    assert AllDone({}) == map[];
  }

  /** The two programs side by side: simulate, run a first attempt, and compare what each dispatched. */
  method SimulateAndRun(def: WorkflowDef, run: Run, w: World)
    returns (report: Result<Report, TopoOrder.DomainError>, executor: RunExecutor)
    requires ValidDef(def) && AlwaysOk(w.handler) && (forall p :: !w.cancelled(p)) && Admitted(run, w)
    ensures fresh(executor)
    ensures report.Ok? <==> Resolved(DepsOf(def.tasks)) && Acyclic(DepsOf(def.tasks))
    ensures report.Ok? ==> executor.passes == report.value.stages
  {
    report := SimulateWorkflow(def.tasks);
    executor := new RunExecutor(run, map[]);
    var end := executor.AttemptWithToken(def, w);
    AttemptPasses(def, run, w);
    if report.Ok? {
      ExecutorFollowsStages(def, w.handler, w.cancelled, report.value.stages);
    }
  }

  /** An admitted attempt makes the loop's passes. */
  lemma AttemptPasses(def: WorkflowDef, run: Run, w: World)
    requires Admitted(run, w)
    ensures Attempt(def, run, map[], w).passes == Loop(def, map[], {}, w.handler, w.cancelled, 0).passes
  {
  }
}
