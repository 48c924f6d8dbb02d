/**
 What a whole attempt, and any number of them, guarantee: every write safe, and
 every task terminal once `finalize` is through.
 */
module Attempts {
  import opened Domain
  import opened Names
  import opened Graph
  import opened Pick
  import opened DryRun
  import opened Executor
  import opened TaskSafety

  // ----- storing the skips

  lemma BlockedMeaning(def: WorkflowDef, tasks: Tasks, n: string)
    requires ValidDef(def)
    ensures n in Blocked(def.tasks, StatesOf(def, tasks)) <==>
            n in TaskNames(def.tasks) && Load(tasks, n).status == TPending && !DepsMet(def, tasks, n)
  {
    var states := StatesOf(def, tasks);
    forall d ensures Done(tasks, d) <==> Pick.Succeeded(states, d) { SameSuccess(def, tasks, d); }
    if n in TaskNames(def.tasks) {
      var i :| 0 <= i < |def.tasks| && def.tasks[i].name == n;
      FindUnique(def.tasks, i);
      assert StatusOf(states, n) == Load(tasks, n).status;
      assert BlockedTask(states, def.tasks[i]) <==> Load(tasks, n).status == TPending && !DepsMet(def, tasks, n);
      if n in Blocked(def.tasks, states) {
        var k :| 0 <= k < |def.tasks| && BlockedTask(states, def.tasks[k]) && def.tasks[k].name == n;
        assert k == i;
      }
    }
  }

  /** What skipping a list of tasks does. */
  ghost predicate SkipRan(def: WorkflowDef, tasks: Tasks, names: seq<string>, t: Trace) {
    && SafeLog(def, tasks, t.log) && Replay(tasks, t.log) == t.tasks
    && (forall n :: Starts(t.log, n) == 0)
    && (forall n :: n !in names ==> Load(t.tasks, n) == Load(tasks, n))
    && (forall n :: n in names ==> n in t.tasks && t.tasks[n].status == TSkipped)
    && t.tasks.Keys == tasks.Keys + Elements(names)
  }

  lemma {:induction false} SkipAllSafe(def: WorkflowDef, tasks: Tasks, names: seq<string>)
    requires NoDuplicates(names)
    requires forall n :: n in names ==>
               n in TaskNames(def.tasks) && Load(tasks, n).status == TPending && !DepsMet(def, tasks, n)
    ensures SkipRan(def, tasks, names, SkipAll(tasks, names))
    decreases names
  {
    if names != [] {
      var n, rest := names[0], names[1..];
      assert names == [n] + rest && n !in rest;
      var w := Write(n, Load(tasks, n).status, TaskRec(TSkipped, Load(tasks, n).attempts));
      var after := tasks[n := w.to];
      forall m | m in rest ensures Load(after, m).status == TPending && !DepsMet(def, after, m) {
        assert m in names && m != n;
        var d :| d in DependsOn(def.tasks, m) && !Done(tasks, d);
        assert !Done(after, d);
      }
      SkipAllSafe(def, after, rest);
      SkipCompose(def, tasks, names, w, SkipAll(after, rest));
    }
  }

  lemma SkipCompose(def: WorkflowDef, tasks: Tasks, names: seq<string>, w: Write, t: Trace)
    requires names != [] && names[0] !in names[1..] && w.name == names[0]
    requires w.to.status == TSkipped && SafeWrite(def, tasks, w)
    requires SkipRan(def, tasks[w.name := w.to], names[1..], t)
    ensures SkipRan(def, tasks, names, Trace(t.tasks, [w] + t.log, t.panicked))
  {
    var log := [w] + t.log;
    assert log[0] == w && log[1..] == t.log;
    assert names == [names[0]] + names[1..];
    forall n ensures Starts(log, n) == 0 { assert Starts(t.log, n) == 0; }
    forall n | n !in names ensures Load(t.tasks, n) == Load(tasks, n) {
      assert Load(t.tasks, n) == Load(tasks[w.name := w.to], n);
    }
    assert Load(t.tasks, w.name) == w.to;
  }

  // ----- an attempt as a whole

  /** The attempt gets past the checks on the run record. */
  predicate Admitted(run: Run, w: World) {
    run.status == Running && !(run.deadlineAt.Some? && w.startMs > run.deadlineAt.value)
  }

  /** ... and its loop runs out of ready tasks, so that it reaches `finalize`. */
  predicate ReachesFinalize(def: WorkflowDef, run: Run, tasks: Tasks, w: World) {
    Admitted(run, w) && Loop(def, tasks, {}, w.handler, w.cancelled, 0).end.Drained?
  }

  lemma {:induction false} StepsAreSafe(
    def: WorkflowDef, tasks: Tasks, a: seq<Write>, mid: Tasks, b: seq<Write>, end: Tasks)
    requires SafeLog(def, tasks, a) && Replay(tasks, a) == mid
    requires SafeLog(def, mid, b) && Replay(mid, b) == end
    requires forall n :: Starts(a, n) <= 1 && Starts(b, n) == 0
    ensures SafeLog(def, tasks, a + b) && Replay(tasks, a + b) == end
    ensures forall n :: Starts(a + b, n) <= 1
  {
    Append(def, tasks, a, b);
    forall n ensures Starts(a + b, n) <= 1 {
      StartsAppend(a, b, n);
      assert Starts(a, n) <= 1 && Starts(b, n) == 0;
    }
  }

  lemma SkipsAfterLoop(def: WorkflowDef, tasks: Tasks)
    requires ValidDef(def)
    ensures var names := SortedSeq(Blocked(def.tasks, StatesOf(def, tasks)));
      SkipRan(def, tasks, names, SkipAll(tasks, names))
  {
    var blocked := Blocked(def.tasks, StatesOf(def, tasks));
    var names := SortedSeq(blocked);
    forall n | n in names
      ensures n in TaskNames(def.tasks) && Load(tasks, n).status == TPending && !DepsMet(def, tasks, n)
    {
      assert n in Elements(names);
      BlockedMeaning(def, tasks, n);
    }
    SkipAllSafe(def, tasks, names);
  }

  /** Every write of an attempt is safe, and no task is started twice in it. */
  lemma AttemptSafe(def: WorkflowDef, run: Run, tasks: Tasks, w: World)
    requires ValidDef(def) && Inv(def, tasks)
    ensures var r := Attempt(def, run, tasks, w);
      && SafeLog(def, tasks, r.log) && Replay(tasks, r.log) == r.tasks && Inv(def, r.tasks)
      && forall n :: Starts(r.log, n) <= 1
  {
    var r := Attempt(def, run, tasks, w);
    if Admitted(run, w) {
      var l := Loop(def, tasks, {}, w.handler, w.cancelled, 0);
      LoopSafe(def, tasks, {}, w.handler, w.cancelled, 0);
      if l.end.Drained? {
        var names := SortedSeq(Blocked(def.tasks, StatesOf(def, l.tasks)));
        SkipsAfterLoop(def, l.tasks);
        StepsAreSafe(def, tasks, l.log, l.tasks, SkipAll(l.tasks, names).log, r.tasks);
        LogKeepsInv(def, tasks, r.log);
      }
    }
  }

  // ----- any number of attempts

  datatype Try = Try(run: Run, world: World)

  /** The stored tasks and the log after a sequence of attempts, whatever the run record was each time. */
  function History(def: WorkflowDef, tasks: Tasks, tries: seq<Try>): Trace
    decreases tries
  {
    if tries == [] then Trace(tasks, [], false)
    else
      var r := Attempt(def, tries[0].run, tasks, tries[0].world);
      var rest := History(def, r.tasks, tries[1..]);
      Trace(rest.tasks, r.log + rest.log, false)
  }

  lemma {:induction false} HistorySafe(def: WorkflowDef, tasks: Tasks, tries: seq<Try>)
    requires ValidDef(def) && Inv(def, tasks)
    ensures var t := History(def, tasks, tries);
      SafeLog(def, tasks, t.log) && Replay(tasks, t.log) == t.tasks && Inv(def, t.tasks)
    decreases tries
  {
    if tries != [] {
      AttemptSafe(def, tries[0].run, tasks, tries[0].world);
      var r := Attempt(def, tries[0].run, tasks, tries[0].world);
      HistorySafe(def, r.tasks, tries[1..]);
      Append(def, tasks, r.log, History(def, r.tasks, tries[1..]).log);
    }
  }

  lemma {:induction false} WriteInContext(def: WorkflowDef, tasks: Tasks, log: seq<Write>, i: nat)
    requires SafeLog(def, tasks, log) && i < |log|
    ensures SafeWrite(def, Replay(tasks, log[..i]), log[i])
    decreases log
  {
    if i > 0 {
      WriteInContext(def, tasks[log[0].name := log[0].to], log[1..], i - 1);
      assert log[..i][0] == log[0] && log[..i][1..] == log[1..][..i - 1];
    }
  }

  /** The log starts task `k` no more often than its own policy allows, or the workflow's if it has none. */
  predicate CallsWithinPolicy(def: WorkflowDef, log: seq<Write>, k: nat)
    requires k < |def.tasks|
  {
    match def.tasks[k].retry
    case Some(own) => Starts(log, def.tasks[k].name) <= own.maxAttempts
    case None => Starts(log, def.tasks[k].name) <= def.retry.maxAttempts
  }

  lemma CallsAreBounded(def: WorkflowDef, tries: seq<Try>, k: nat)
    requires ValidDef(def) && k < |def.tasks|
    ensures CallsWithinPolicy(def, History(def, map[], tries).log, k)
  {
    var t := History(def, map[], tries);
    HistorySafe(def, map[], tries);
    StartsAreAttempts(def, map[], t.log, def.tasks[k].name);
    LimitIsThePolicys(def, k);
  }

  /**
   Dependency safety: over any attempts at one definition, from a fresh run,
   each start happens when every dependency has succeeded, each write is a legal
   edge of the task machine, and no handler is called more often than its task's own
   policy allows, or the workflow's where the task has none.
   */
  lemma NoHandlerRunsAhead(def: WorkflowDef, tries: seq<Try>, i: nat)
    requires ValidDef(def) && i < |History(def, map[], tries).log|
    ensures var log := History(def, map[], tries).log;
      var before := Replay(map[], log[..i]);
      && Load(before, log[i].name).status == log[i].from
      && CanTransitionTask(log[i].from, log[i].to.status)
      && log[i].name in DepsOf(def.tasks)
      && (log[i].to.status == TRunning ==>
            forall d :: d in DepsOf(def.tasks)[log[i].name] ==> d in before && before[d].status == TSucceeded)
    ensures forall k :: 0 <= k < |def.tasks| ==> CallsWithinPolicy(def, History(def, map[], tries).log, k)
  {
    var t := History(def, map[], tries);
    HistorySafe(def, map[], tries);
    WriteInContext(def, map[], t.log, i);
    DependsOnIsDeps(def.tasks, t.log[i].name);
    assert forall d :: d in DependsOn(def.tasks, t.log[i].name) <==> d in Elements(DependsOn(def.tasks, t.log[i].name));
    forall k | 0 <= k < |def.tasks| ensures CallsWithinPolicy(def, t.log, k) { CallsAreBounded(def, tries, k); }
  }

  lemma {:induction false} NoWriteAfter(def: WorkflowDef, tasks: Tasks, log: seq<Write>, n: string, j: nat)
    requires SafeLog(def, tasks, log) && j < |log|
    requires Load(tasks, n).status == TSucceeded || Load(tasks, n).status == TSkipped
    ensures log[j].name != n
    decreases log
  {
    if j > 0 { NoWriteAfter(def, tasks[log[0].name := log[0].to], log[1..], n, j - 1); }
  }

  lemma {:induction false} SafeFrom(def: WorkflowDef, tasks: Tasks, log: seq<Write>, i: nat)
    requires SafeLog(def, tasks, log) && i < |log|
    ensures SafeLog(def, Replay(tasks, log[..i])[log[i].name := log[i].to], log[i + 1..])
    decreases log
  {
    if i > 0 {
      SafeFrom(def, tasks[log[0].name := log[0].to], log[1..], i - 1);
      assert log[..i][0] == log[0] && log[..i][1..] == log[1..][..i - 1];
      assert log[i + 1..] == log[1..][i..];
    }
  }

  /**
   Over any attempts, a task succeeds only while it runs, and one that has succeeded
   or been skipped is never written again.
   */
  lemma DoneForGood(def: WorkflowDef, tries: seq<Try>, i: nat, j: nat)
    requires ValidDef(def) && i < j < |History(def, map[], tries).log|
    ensures var log := History(def, map[], tries).log;
      && (log[i].to.status == TSucceeded ==> log[i].from == TRunning)
      && (log[i].to.status == TSucceeded || log[i].to.status == TSkipped ==> log[j].name != log[i].name)
  {
    HistorySafe(def, map[], tries);
    DoneInLog(def, History(def, map[], tries).log, i, j);
  }

  lemma DoneInLog(def: WorkflowDef, log: seq<Write>, i: nat, j: nat)
    requires SafeLog(def, map[], log) && i < j < |log|
    ensures log[i].to.status == TSucceeded ==> log[i].from == TRunning
    ensures log[i].to.status == TSucceeded || log[i].to.status == TSkipped ==> log[j].name != log[i].name
  {
    WriteInContext(def, map[], log, i);
    SafeFrom(def, map[], log, i);
    if log[i].to.status == TSucceeded || log[i].to.status == TSkipped {
      var tasks := Replay(map[], log[..i])[log[i].name := log[i].to];
      assert log[i + 1..][j - i - 1] == log[j];
      NoWriteAfter(def, tasks, log[i + 1..], log[i].name, j - i - 1);
    }
  }

  // ----- how an attempt ends

  /** The stored tasks after the blocked ones have been skipped. */
  function Skipped(def: WorkflowDef, mid: Tasks): Tasks {
    SkipAll(mid, SortedSeq(Blocked(def.tasks, StatesOf(def, mid)))).tasks
  }

  lemma SkippedTask(def: WorkflowDef, mid: Tasks, n: string)
    requires ValidDef(def)
    ensures var blocked := n in TaskNames(def.tasks) && Load(mid, n).status == TPending && !DepsMet(def, mid, n);
      && (blocked ==> n in Skipped(def, mid) && Load(Skipped(def, mid), n).status == TSkipped)
      && (!blocked ==> Load(Skipped(def, mid), n) == Load(mid, n))
      && (n in Skipped(def, mid) <==> n in mid || blocked)
  {
    var names := SortedSeq(Blocked(def.tasks, StatesOf(def, mid)));
    SkipsAfterLoop(def, mid);
    BlockedMeaning(def, mid, n);
    assert n in names <==> n in Elements(names);
  }

  lemma SkippedKeepsDone(def: WorkflowDef, mid: Tasks, n: string)
    requires ValidDef(def)
    ensures Done(Skipped(def, mid), n) <==> Done(mid, n)
    ensures DepsMet(def, Skipped(def, mid), n) <==> DepsMet(def, mid, n)
  {
    forall d ensures Done(Skipped(def, mid), d) <==> Done(mid, d) { SkippedTask(def, mid, d); }
  }

  /** The table given to `finalize` is what is stored. */
  lemma StoredIsCollapsed(def: WorkflowDef, mid: Tasks)
    requires ValidDef(def)
    ensures StatesOf(def, Skipped(def, mid))
            == MarkSkipped(StatesOf(def, mid), Blocked(def.tasks, StatesOf(def, mid)))
  {
    var a := StatesOf(def, Skipped(def, mid));
    var b := MarkSkipped(StatesOf(def, mid), Blocked(def.tasks, StatesOf(def, mid)));
    forall n ensures (n in a <==> n in b) && (n in a && n in b ==> a[n] == b[n]) { StoredStatus(def, mid, n); }
    SameMap(a, b);
  }

  lemma StoredStatus(def: WorkflowDef, mid: Tasks, n: string)
    requires ValidDef(def)
    ensures var a := StatesOf(def, Skipped(def, mid));
      var b := MarkSkipped(StatesOf(def, mid), Blocked(def.tasks, StatesOf(def, mid)));
      (n in a <==> n in b) && (n in a && n in b ==> a[n] == b[n])
  {
    SkippedTask(def, mid, n);
    BlockedMeaning(def, mid, n);
  }

  /** The statuses an attempt leaves behind, from those its loop left. */
  lemma FinalTask(def: WorkflowDef, tasks: Tasks, mid: Tasks, n: string)
    requires ValidDef(def) && SameSkips(tasks, mid) && SameRunning(tasks, mid) && NothingReady(def, mid)
    ensures var final := Skipped(def, mid);
      && (Load(final, n).status == TRunning <==> Load(tasks, n).status == TRunning)
      && (n in TaskNames(def.tasks) ==> Load(final, n).status != TPending)
      && (Load(tasks, n).status == TSkipped ==> Load(final, n).status == TSkipped)
      && (Load(final, n).status == TSkipped ==> Load(tasks, n).status == TSkipped || !DepsMet(def, final, n))
  {
    SkippedTask(def, mid, n);
    SkippedKeepsDone(def, mid, n);
  }

  /** The loop's part of an attempt that reaches `finalize`. */
  lemma FinalizingAttempt(def: WorkflowDef, run: Run, tasks: Tasks, w: World) returns (mid: Tasks)
    requires ValidDef(def) && Inv(def, tasks) && ReachesFinalize(def, run, tasks, w)
    ensures Inv(def, mid) && SameSkips(tasks, mid) && SameRunning(tasks, mid) && NothingReady(def, mid)
    ensures var r := Attempt(def, run, tasks, w);
      && r.tasks == Skipped(def, mid)
      && Finalized(r.write, r.end) == Finalize(def, run, r.tasks, StatesOf(def, r.tasks), w.endMs, w.draw)
  {
    mid := Loop(def, tasks, {}, w.handler, w.cancelled, 0).tasks;
    LoopSafe(def, tasks, {}, w.handler, w.cancelled, 0);
    DrainedAttempt(def, run, tasks, w, mid);
  }

  /** The rest of an attempt, given where its loop drained. */
  lemma DrainedAttempt(def: WorkflowDef, run: Run, tasks: Tasks, w: World, mid: Tasks)
    requires ValidDef(def) && ReachesFinalize(def, run, tasks, w)
    requires Loop(def, tasks, {}, w.handler, w.cancelled, 0).tasks == mid
    ensures var r := Attempt(def, run, tasks, w);
      && r.tasks == Skipped(def, mid)
      && Finalized(r.write, r.end) == Finalize(def, run, r.tasks, StatesOf(def, r.tasks), w.endMs, w.draw)
  {
    StoredIsCollapsed(def, mid);
  }

  ghost predicate NoneRunning(tasks: Tasks) {
    forall n :: n in tasks ==> tasks[n].status != TRunning
  }

  ghost predicate AllTerminal(states: States) {
    forall n :: n in states ==> states[n].IsTerminal()
  }

  /**
   An attempt that reaches `finalize` gets through it exactly when no task was
   left running by an earlier attempt, and then every task is terminal.  The
   graph may be cyclic or have dangling edges.
   */
  lemma EveryTaskTerminal(def: WorkflowDef, run: Run, tasks: Tasks, w: World)
    requires ValidDef(def) && Inv(def, tasks) && ReachesFinalize(def, run, tasks, w)
    ensures var r := Attempt(def, run, tasks, w);
      && (r.end.Finished? <==> NoneRunning(tasks))
      && (r.end.Finished? <==> AllTerminal(StatesOf(def, r.tasks)))
  {
    var r := Attempt(def, run, tasks, w);
    var mid := FinalizingAttempt(def, run, tasks, w);
    assert r.tasks.Keys <= TaskNames(def.tasks) by { AttemptSafe(def, run, tasks, w); }
    TerminalIff(def, tasks, mid);
    FinalizeEnds(def, run, r.tasks, StatesOf(def, r.tasks), w.endMs, w.draw);
  }

  lemma FinalizeEnds(def: WorkflowDef, run: Run, tasks: Tasks, states: States, now: int, draw: nat)
    requires run.status == Running
    ensures Finalize(def, run, tasks, states, now, draw).end.Finished? <==> AllTerminal(states)
  {
  }

  lemma TerminalIff(def: WorkflowDef, tasks: Tasks, mid: Tasks)
    requires ValidDef(def) && SameSkips(tasks, mid) && SameRunning(tasks, mid) && NothingReady(def, mid)
    requires Skipped(def, mid).Keys <= TaskNames(def.tasks)
    ensures NoneRunning(tasks) <==> AllTerminal(StatesOf(def, Skipped(def, mid)))
  {
    forall n ensures var final := Skipped(def, mid);
      && (Load(final, n).status == TRunning <==> Load(tasks, n).status == TRunning)
      && (n in TaskNames(def.tasks) ==> Load(final, n).status != TPending)
    {
      FinalTask(def, tasks, mid, n);
    }
    TerminalStates(def, tasks, Skipped(def, mid));
  }

  lemma TerminalStates(def: WorkflowDef, tasks: Tasks, final: Tasks)
    requires final.Keys <= TaskNames(def.tasks)
    requires forall n ::
      && (Load(final, n).status == TRunning <==> Load(tasks, n).status == TRunning)
      && (n in TaskNames(def.tasks) ==> Load(final, n).status != TPending)
    ensures NoneRunning(tasks) <==> AllTerminal(StatesOf(def, final))
  {
    var states := StatesOf(def, final);
    if n :| n in tasks && tasks[n].status == TRunning {
      assert Load(tasks, n).status == TRunning && n in final;
      assert n in states;
    }
  }
}
