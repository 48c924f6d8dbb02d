/**
 One attempt at a run: the dispatch loop, skip propagation and finalization.

 `Attempt` is the simple form, a function of the stored records and of the
 outside world: what each handler call returns, which pass sees a cancellation,
 two clock readings and one random draw.  `RunExecutor.AttemptWithToken` is the
 form the source has, with its in-memory status table and its set of tasks
 already executed, and is proved to compute the same.
 */
module Executor {
  import opened Domain
  import opened Names
  import opened Pick
  import opened Backoff
  import DryRun

  // ----- stored records

  datatype TaskRec = TaskRec(status: TaskStatus, attempts: nat)

  /** The task runs stored for one run, by task name. */
  type Tasks = map<string, TaskRec>

  /** `load_task`: a missing record reads as a fresh one. */
  function Load(tasks: Tasks, n: string): TaskRec {
    if n in tasks then tasks[n] else TaskRec(TPending, 0)
  }

  /** `loaded_states`. */
  function StatesOf(def: WorkflowDef, tasks: Tasks): States {
    map n | n in tasks.Keys + TaskNames(def.tasks) :: Load(tasks, n).status
  }

  /** The attempt budget that applies to a task. */
  function Limit(def: WorkflowDef, n: string): nat {
    match DryRun.Find(def.tasks, n)
    case Some(t) => (match t.retry case Some(p) => p.maxAttempts case None => def.retry.maxAttempts)
    case None => def.retry.maxAttempts
  }

  /** One `put_task_run`: the status it replaces and the record it stores. */
  datatype Write = Write(name: string, from: TaskStatus, to: TaskRec)

  datatype HandlerOutcome = HandlerOk | HandlerErr | HandlerPanic

  /** What calling the handler of a task on a given attempt does. */
  type Handler = (string, nat) -> HandlerOutcome

  // ----- the dispatch loop

  function Keep(def: WorkflowDef, tasks: Tasks, executed: set<string>, names: seq<string>): (r: seq<string>)
    ensures forall n :: n in r <==>
              n in names && n !in executed
              && (Load(tasks, n).status == TFailed ==> Load(tasks, n).attempts < Limit(def, n))
    ensures NoDuplicates(names) ==> NoDuplicates(r)
  {
    if names == [] then []
    else
      var n := names[0];
      assert names == [n] + names[1..];
      var rest := Keep(def, tasks, executed, names[1..]);
      if n !in executed && (Load(tasks, n).status == TFailed ==> Load(tasks, n).attempts < Limit(def, n))
      then [n] + rest else rest
  }

  /** The tasks one pass of the loop dispatches. */
  function Batch(def: WorkflowDef, tasks: Tasks, executed: set<string>): (r: seq<string>)
    ensures forall n :: n in r ==> n in TaskNames(def.tasks) && n !in executed
  {
    ReadyMeaning(def.tasks, StatesOf(def, tasks));
    Keep(def, tasks, executed, Ready(def.tasks, StatesOf(def, tasks)))
  }

  datatype Trace = Trace(tasks: Tasks, log: seq<Write>, panicked: bool)

  function Call(tasks: Tasks, n: string, h: Handler): Trace {
    var before := Load(tasks, n);
    var a := before.attempts + 1;
    var start := Write(n, before.status, TaskRec(TRunning, a));
    match h(n, a)
    case HandlerOk =>
      Trace(tasks[n := TaskRec(TSucceeded, a)], [start, Write(n, TRunning, TaskRec(TSucceeded, a))], false)
    case HandlerErr =>
      Trace(tasks[n := TaskRec(TFailed, a)], [start, Write(n, TRunning, TaskRec(TFailed, a))], false)
    case HandlerPanic =>
      Trace(tasks[n := TaskRec(TRunning, a)], [start], true)
  }

  function CallAll(tasks: Tasks, batch: seq<string>, h: Handler): Trace
    decreases batch
  {
    if batch == [] then Trace(tasks, [], false)
    else
      var first := Call(tasks, batch[0], h);
      if first.panicked then first
      else
        var rest := CallAll(first.tasks, batch[1..], h);
        Trace(rest.tasks, first.log + rest.log, rest.panicked)
  }

  datatype LoopEnd = Drained | SawCancel | LoopPanicked

  datatype LoopResult = LoopResult(tasks: Tasks, log: seq<Write>, passes: seq<seq<string>>, end: LoopEnd)

  lemma BatchShrinks(def: WorkflowDef, tasks: Tasks, executed: set<string>)
    requires Batch(def, tasks, executed) != []
    ensures TaskNames(def.tasks) - (executed + Elements(Batch(def, tasks, executed))) < TaskNames(def.tasks) - executed
  {
    var n := Batch(def, tasks, executed)[0];
    assert n in Elements(Batch(def, tasks, executed));
    assert n in TaskNames(def.tasks) - executed;
  }

  function Loop(def: WorkflowDef, tasks: Tasks, executed: set<string>, h: Handler, cancelled: nat -> bool, pass: nat)
    : LoopResult
    decreases TaskNames(def.tasks) - executed
  {
    if cancelled(pass) then LoopResult(tasks, [], [], SawCancel)
    else
      var batch := Batch(def, tasks, executed);
      if batch == [] then LoopResult(tasks, [], [], Drained)
      else
        BatchShrinks(def, tasks, executed);
        var t := CallAll(tasks, batch, h);
        if t.panicked then LoopResult(t.tasks, t.log, [batch], LoopPanicked)
        else
          var rest := Loop(def, t.tasks, executed + Elements(batch), h, cancelled, pass + 1);
          LoopResult(rest.tasks, t.log + rest.log, [batch] + rest.passes, rest.end)
  }

  // ----- after the loop

  function SkipAll(tasks: Tasks, names: seq<string>): Trace
    decreases names
  {
    if names == [] then Trace(tasks, [], false)
    else
      var before := Load(tasks, names[0]);
      var after := TaskRec(TSkipped, before.attempts);
      var rest := SkipAll(tasks[names[0] := after], names[1..]);
      Trace(rest.tasks, [Write(names[0], before.status, after)] + rest.log, false)
  }

  datatype RunAction = Ack | Release(at: int)

  datatype AttemptEnd =
    | Finished(status: RunStatus, failed: seq<string>, action: RunAction)
    | Errored
    | Panicked

  function FailedNames(states: States): seq<string> {
    SortedSeq(set n | n in states && states[n] == TFailed)
  }

  predicate TaskBudgetsLeft(def: WorkflowDef, tasks: Tasks, names: seq<string>) {
    forall n :: n in names ==> Load(tasks, n).attempts < Limit(def, n)
  }

  datatype Finalized = Finalized(write: Option<Run>, end: AttemptEnd)

  /** `finalize`, on the collapsed statuses. */
  function Finalize(def: WorkflowDef, run: Run, tasks: Tasks, states: States, now: int, draw: nat): Finalized {
    if exists n :: n in states && !states[n].IsTerminal() then Finalized(None, Errored)
    else if forall n :: n in states ==> states[n] != TFailed then
      if !CanTransitionRun(run.status, Succeeded) then Finalized(None, Errored)
      else Finalized(Some(run.(status := RunStatus.Succeeded, finishedAt := Some(now), error := None)),
                     Finished(RunStatus.Succeeded, [], Ack))
    else
      var failing := FailedNames(states);
      if !CanTransitionRun(run.status, RunStatus.Failed) then Finalized(None, Errored)
      else if def.retry.AllowsAttempt(run.attempts + 1) && TaskBudgetsLeft(def, tasks, failing) then
        var at := match NextAttemptAt(def.retry, run.attempts + 1, true, now, draw)
                  case Some(t) => t
                  case None => now;
        Finalized(Some(run.(status := Queued, attempts := run.attempts + 1, nextAttemptAt := Some(at), error := None)),
                  Finished(Queued, failing, Release(at)))
      else
        var first := if failing == [] then None else Some(failing[0]);
        Finalized(Some(run.(status := RunStatus.Failed, finishedAt := Some(now),
                            error := Some(RunError(Exhausted, first, run.attempts)))),
                  Finished(RunStatus.Failed, failing, Ack))
  }

  /** Everything outside the executor that one attempt depends on. */
  datatype World = World(handler: Handler, cancelled: nat -> bool, startMs: int, endMs: int, draw: nat)

  datatype AttemptResult = AttemptResult(
    tasks: Tasks, log: seq<Write>, passes: seq<seq<string>>, write: Option<Run>, end: AttemptEnd)

  function Attempt(def: WorkflowDef, run: Run, tasks: Tasks, w: World): AttemptResult {
    if run.status == Cancelled then
      AttemptResult(tasks, [], [], None, Finished(Cancelled, [], Ack))
    else if run.status != Running then
      AttemptResult(tasks, [], [], None, Errored)
    else if run.deadlineAt.Some? && w.startMs > run.deadlineAt.value then
      AttemptResult(tasks, [], [],
                    Some(run.(status := TimedOut, finishedAt := Some(w.startMs),
                              error := Some(RunError(Timeout, None, run.attempts)))),
                    Finished(TimedOut, [], Ack))
    else
      var l := Loop(def, tasks, {}, w.handler, w.cancelled, 0);
      match l.end
      case SawCancel => AttemptResult(l.tasks, l.log, l.passes, None, Finished(Cancelled, [], Ack))
      case LoopPanicked => AttemptResult(l.tasks, l.log, l.passes, None, Panicked)
      case Drained =>
        var states := StatesOf(def, l.tasks);
        var blocked := Blocked(def.tasks, states);
        var s := SkipAll(l.tasks, SortedSeq(blocked));
        var f := Finalize(def, run, s.tasks, MarkSkipped(states, blocked), w.endMs, w.draw);
        AttemptResult(s.tasks, l.log + s.log, l.passes, f.write, f.end)
  }

  // ----- the source's form

  /** `log` and `passes` record what the attempt writes to the store and what it dispatches. */
  class RunExecutor {
    var run: Run
    var tasks: Tasks
    ghost var log: seq<Write>
    ghost var passes: seq<seq<string>>

    constructor (run: Run, tasks: Tasks)
      ensures this.run == run && this.tasks == tasks && log == [] && passes == []
    {
      this.run, this.tasks := run, tasks;
      log, passes := [], [];
    }

    method PutTask(n: string, rec: TaskRec)
      modifies this`tasks, this`log
      ensures tasks == old(tasks)[n := rec]
      ensures log == old(log) + [Write(n, Load(old(tasks), n).status, rec)]
    {
      log := log + [Write(n, Load(tasks, n).status, rec)];
      tasks := tasks[n := rec];
    }

    /** Marks a task running, calls its handler and stores the outcome. */
    method CallHandler(def: WorkflowDef, n: string, h: Handler, states0: States)
      returns (states: States, panicked: bool)
      requires states0 == StatesOf(def, tasks) && n in TaskNames(def.tasks)
      modifies this`tasks, this`log
      ensures Trace(tasks, log, panicked) == Logged(old(log), Call(old(tasks), n, h))
      ensures states == StatesOf(def, tasks)
    {
      panicked := false;
      var rec := Load(tasks, n);
      PutTask(n, TaskRec(TRunning, rec.attempts + 1));
      states := states0[n := TRunning];
      match h(n, rec.attempts + 1) {
        case HandlerOk =>
          PutTask(n, TaskRec(TSucceeded, rec.attempts + 1));
          states := states[n := TSucceeded];
        case HandlerErr =>
          PutTask(n, TaskRec(TFailed, rec.attempts + 1));
          states := states[n := TFailed];
        case HandlerPanic =>
          panicked := true;
      }
    }

    /** The inner loop: runs one batch, keeping the status table in step with the store. */
    method DispatchBatch(def: WorkflowDef, batch: seq<string>, h: Handler, states0: States)
      returns (states: States, panicked: bool)
      requires states0 == StatesOf(def, tasks)
      requires forall n :: n in batch ==> n in TaskNames(def.tasks)
      modifies this`tasks, this`log
      ensures Trace(tasks, log, panicked) == Logged(old(log), CallAll(old(tasks), batch, h))
      ensures states == StatesOf(def, tasks)
    {
      states, panicked := states0, false;
      assert batch[0..] == batch;
      for i := 0 to |batch|
        invariant !panicked && states == StatesOf(def, tasks)
        invariant Logged(old(log), CallAll(old(tasks), batch, h)) == Logged(log, CallAll(tasks, batch[i..], h))
      {
        UnrollCalls(log, tasks, batch, i, h);
        states, panicked := CallHandler(def, batch[i], h, states);
        if panicked {
          return;
        }
      }
    }

    method DispatchLoop(def: WorkflowDef, w: World) returns (end: LoopEnd, states: States)
      requires log == [] && passes == []
      modifies this`tasks, this`log, this`passes
      ensures LoopResult(tasks, log, passes, end) == Loop(def, old(tasks), {}, w.handler, w.cancelled, 0)
      ensures states == StatesOf(def, tasks)
    {
      states := StatesOf(def, tasks);
      var executed: set<string> := {};
      var pass := 0;
      ghost var whole := Loop(def, tasks, {}, w.handler, w.cancelled, 0);
      NothingBefore(whole);
      while true
        invariant states == StatesOf(def, tasks)
        invariant whole == Behind(log, passes, Loop(def, tasks, executed, w.handler, w.cancelled, pass))
        decreases TaskNames(def.tasks) - executed
      {
        UnrollLoop(log, passes, def, tasks, executed, w, pass);
        if w.cancelled(pass) {
          return SawCancel, states;
        }
        var ready := ReadyTasks(def.tasks, states);
        var batch := Keep(def, tasks, executed, ready);
        assert batch == Batch(def, tasks, executed);
        if batch == [] {
          return Drained, states;
        }
        BatchShrinks(def, tasks, executed);
        passes := passes + [batch];
        var panicked;
        states, panicked := DispatchBatch(def, batch, w.handler, states);
        if panicked {
          return LoopPanicked, states;
        }
        executed := executed + Elements(batch);
        pass := pass + 1;
      }
    }

    /** Persists the freshly skipped tasks in name order. */
    method StoreSkipped(def: WorkflowDef, states: States, collapsed: States)
      requires states == StatesOf(def, tasks)
      requires collapsed == MarkSkipped(states, Blocked(def.tasks, states))
      modifies this`tasks, this`log
      ensures Trace(tasks, log, false) == Logged(old(log), SkipAll(old(tasks), SortedSeq(Blocked(def.tasks, states))))
    {
      var newly := set n | n in collapsed && collapsed[n] == TSkipped && (n !in states || states[n] != TSkipped);
      FreshlySkipped(def, states, collapsed, newly);
      SkipNames(SortedSeq(newly));
    }

    method SkipNames(names: seq<string>)
      modifies this`tasks, this`log
      ensures Trace(tasks, log, false) == Logged(old(log), SkipAll(old(tasks), names))
    {
      assert names[0..] == names;
      for i := 0 to |names|
        invariant Logged(old(log), SkipAll(old(tasks), names)) == Logged(log, SkipAll(tasks, names[i..]))
      {
        UnrollSkips(log, tasks, names, i);
        PutTask(names[i], TaskRec(TSkipped, Load(tasks, names[i]).attempts));
      }
    }

    /** The whole attempt. */
    method AttemptWithToken(def: WorkflowDef, w: World) returns (end: AttemptEnd)
      modifies this
      ensures var r := Attempt(def, old(run), old(tasks), w);
        && tasks == r.tasks && log == r.log && passes == r.passes && end == r.end
        && run == match r.write case Some(written) => written case None => old(run)
    {
      log, passes := [], [];
      if run.status != Running {
        if run.status == Cancelled {
          return Finished(Cancelled, [], Ack);
        }
        return Errored;
      }
      if run.deadlineAt.Some? && w.startMs > run.deadlineAt.value {
        run := run.(status := TimedOut, finishedAt := Some(w.startMs),
          error := Some(RunError(Timeout, None, run.attempts)));
        return Finished(TimedOut, [], Ack);
      }
      var loopEnd, states := DispatchLoop(def, w);
      match loopEnd {
        case SawCancel => return Finished(Cancelled, [], Ack);
        case LoopPanicked => return Panicked;
        case Drained =>
      }
      var collapsed := PendingToSkip(def.tasks, states);
      StoreSkipped(def, states, collapsed);
      var f := Finalize(def, run, tasks, collapsed, w.endMs, w.draw);
      if f.write.Some? {
        run := f.write.value;
      }
      return f.end;
    }
  }

  // ----- the loops unrolled from the front

  /** A trace behind what was logged before. */
  function Logged(before: seq<Write>, t: Trace): Trace {
    Trace(t.tasks, before + t.log, t.panicked)
  }

  lemma UnrollCalls(log: seq<Write>, tasks: Tasks, batch: seq<string>, i: nat, h: Handler)
    requires i < |batch|
    ensures var one := Call(tasks, batch[i], h);
      CallAll(tasks, batch[i..], h) ==
        if one.panicked then one else Logged(one.log, CallAll(one.tasks, batch[i + 1..], h))
    ensures var one := Call(tasks, batch[i], h);
      Logged(log, CallAll(tasks, batch[i..], h)) ==
        if one.panicked then Logged(log, one) else Logged(log + one.log, CallAll(one.tasks, batch[i + 1..], h))
  {
    var one := Call(tasks, batch[i], h);
    assert batch[i..][0] == batch[i] && batch[i..][1..] == batch[i + 1..];
    Associate(log, one.log, CallAll(one.tasks, batch[i + 1..], h).log);
  }

  /** A loop's result behind what was logged and dispatched before. */
  function Behind(log: seq<Write>, passes: seq<seq<string>>, l: LoopResult): LoopResult {
    LoopResult(l.tasks, log + l.log, passes + l.passes, l.end)
  }

  lemma NothingBefore(l: LoopResult)
    ensures Behind([], [], l) == l
  {
    assert [] + l.log == l.log && [] + l.passes == l.passes;
  }

  lemma UnrollLoop(log: seq<Write>, passes: seq<seq<string>>, def: WorkflowDef, tasks: Tasks, executed: set<string>,
                   w: World, pass: nat)
    ensures var batch := Batch(def, tasks, executed);
      var t := CallAll(tasks, batch, w.handler);
      Behind(log, passes, Loop(def, tasks, executed, w.handler, w.cancelled, pass)) ==
        if w.cancelled(pass) then LoopResult(tasks, log, passes, SawCancel)
        else if batch == [] then LoopResult(tasks, log, passes, Drained)
        else if t.panicked then LoopResult(t.tasks, log + t.log, passes + [batch], LoopPanicked)
        else Behind(log + t.log, passes + [batch],
                   Loop(def, t.tasks, executed + Elements(batch), w.handler, w.cancelled, pass + 1))
  {
    var batch := Batch(def, tasks, executed);
    var t := CallAll(tasks, batch, w.handler);
    assert log + [] == log && passes + [] == passes;
    if !w.cancelled(pass) && batch != [] && !t.panicked {
      var rest := Loop(def, t.tasks, executed + Elements(batch), w.handler, w.cancelled, pass + 1);
      Associate(log, t.log, rest.log);
      Associate(passes, [batch], rest.passes);
    }
  }

  lemma LastPass(def: WorkflowDef, tasks: Tasks, executed: set<string>, h: Handler, cancelled: nat -> bool, pass: nat)
    requires !cancelled(pass) && Batch(def, tasks, executed) == []
    ensures Loop(def, tasks, executed, h, cancelled, pass) == LoopResult(tasks, [], [], Drained)
  {
  }

  lemma FirstPass(def: WorkflowDef, tasks: Tasks, executed: set<string>, h: Handler, cancelled: nat -> bool, pass: nat)
    requires !cancelled(pass) && Batch(def, tasks, executed) != []
    requires !CallAll(tasks, Batch(def, tasks, executed), h).panicked
    ensures var batch := Batch(def, tasks, executed);
      var rest := Loop(def, CallAll(tasks, batch, h).tasks, executed + Elements(batch), h, cancelled, pass + 1);
      var r := Loop(def, tasks, executed, h, cancelled, pass);
      r.passes == [batch] + rest.passes && r.end == rest.end && r.tasks == rest.tasks
  {
  }

  lemma UnrollSkips(log: seq<Write>, tasks: Tasks, names: seq<string>, i: nat)
    requires i < |names|
    ensures var before := Load(tasks, names[i]);
      var after := TaskRec(TSkipped, before.attempts);
      Logged(log, SkipAll(tasks, names[i..])) ==
      Logged(log + [Write(names[i], before.status, after)], SkipAll(tasks[names[i] := after], names[i + 1..]))
  {
    var before := Load(tasks, names[i]);
    var after := TaskRec(TSkipped, before.attempts);
    assert names[i..][0] == names[i] && names[i..][1..] == names[i + 1..];
    Associate(log, [Write(names[i], before.status, after)], SkipAll(tasks[names[i] := after], names[i + 1..]).log);
  }

  lemma FreshlySkipped(def: WorkflowDef, states: States, collapsed: States, newly: set<string>)
    requires collapsed == MarkSkipped(states, Blocked(def.tasks, states))
    requires newly == set n | n in collapsed && collapsed[n] == TSkipped && (n !in states || states[n] != TSkipped)
    ensures newly == Blocked(def.tasks, states)
  {
    forall n | n in Blocked(def.tasks, states) ensures n in newly {
      assert StatusOf(states, n) == TPending;
    }
  }
}
