/**
 What every write of the executor keeps: dependencies come first, budgets hold,
 and each status change is an edge of the task machine, over any number of
 attempts at the same definition.
 */
module TaskSafety {
  import opened Domain
  import opened Names
  import opened Pick
  import opened DryRun
  import opened Executor

  predicate Started(s: TaskStatus) {
    s.TRunning? || s.TSucceeded? || s.TFailed?
  }

  predicate Done(tasks: Tasks, n: string) {
    n in tasks && tasks[n].status == TSucceeded
  }

  /** Every dependency of `n` has succeeded. */
  predicate DepsMet(def: WorkflowDef, tasks: Tasks, n: string) {
    forall d :: d in DependsOn(def.tasks, n) ==> Done(tasks, d)
  }

  /** The budget of a task is its own policy's, or the workflow's where it has none. */
  lemma LimitIsThePolicys(def: WorkflowDef, i: nat)
    requires UniqueNames(def.tasks) && i < |def.tasks|
    ensures Limit(def, def.tasks[i].name) ==
      match def.tasks[i].retry
      case Some(own) => own.maxAttempts
      case None => def.retry.maxAttempts
  {
    FindUnique(def.tasks, i);
  }

  /** Unique task names and at least one attempt per task, as validation ensures. */
  ghost predicate ValidDef(def: WorkflowDef) {
    UniqueNames(def.tasks) && forall n :: n in TaskNames(def.tasks) ==> Limit(def, n) >= 1
  }

  /** A started task has its dependencies met and its budget kept; the others were never tried. */
  ghost predicate Inv(def: WorkflowDef, tasks: Tasks) {
    forall n :: n in tasks ==>
      && n in TaskNames(def.tasks)
      && (if Started(tasks[n].status) then DepsMet(def, tasks, n) && 1 <= tasks[n].attempts <= Limit(def, n)
          else tasks[n].attempts == 0)
  }

  // ----- safe writes

  predicate SafeWrite(def: WorkflowDef, tasks: Tasks, w: Write) {
    var before := Load(tasks, w.name);
    && w.name in TaskNames(def.tasks)
    && w.from == before.status && CanTransitionTask(w.from, w.to.status)
    && match w.to.status
       case TRunning => DepsMet(def, tasks, w.name) && w.to.attempts == before.attempts + 1 <= Limit(def, w.name)
       case TSkipped => !DepsMet(def, tasks, w.name) && w.to.attempts == before.attempts
       case _ => w.from == TRunning && w.to.attempts == before.attempts
  }

  function Replay(tasks: Tasks, log: seq<Write>): Tasks
    decreases log
  {
    if log == [] then tasks else Replay(tasks[log[0].name := log[0].to], log[1..])
  }

  predicate SafeLog(def: WorkflowDef, tasks: Tasks, log: seq<Write>)
    decreases log
  {
    log == [] || (SafeWrite(def, tasks, log[0]) && SafeLog(def, tasks[log[0].name := log[0].to], log[1..]))
  }

  lemma {:induction false} Append(def: WorkflowDef, tasks: Tasks, a: seq<Write>, b: seq<Write>)
    requires SafeLog(def, tasks, a) && SafeLog(def, Replay(tasks, a), b)
    ensures SafeLog(def, tasks, a + b) && Replay(tasks, a + b) == Replay(Replay(tasks, a), b)
    decreases a
  {
    if a == [] {
      assert a + b == b;
    } else {
      assert (a + b)[0] == a[0] && (a + b)[1..] == a[1..] + b;
      Append(def, tasks[a[0].name := a[0].to], a[1..], b);
    }
  }

  /** A write never takes back a success, so met dependencies stay met. */
  lemma WriteKeepsInv(def: WorkflowDef, tasks: Tasks, w: Write)
    requires Inv(def, tasks) && SafeWrite(def, tasks, w)
    ensures Inv(def, tasks[w.name := w.to])
    ensures forall d :: Done(tasks, d) ==> Done(tasks[w.name := w.to], d)
  {
    var after := tasks[w.name := w.to];
    forall n | n in after
      ensures Started(after[n].status) ==> DepsMet(def, after, n)
      ensures n in TaskNames(def.tasks)
      ensures if Started(after[n].status) then 1 <= after[n].attempts <= Limit(def, n) else after[n].attempts == 0
    {
      if n != w.name { assert n in tasks; }
      if Started(after[n].status) { assert DepsMet(def, tasks, n); }
    }
  }

  lemma {:induction false} LogKeepsInv(def: WorkflowDef, tasks: Tasks, log: seq<Write>)
    requires Inv(def, tasks) && SafeLog(def, tasks, log)
    ensures Inv(def, Replay(tasks, log))
    decreases log
  {
    if log != [] {
      WriteKeepsInv(def, tasks, log[0]);
      LogKeepsInv(def, tasks[log[0].name := log[0].to], log[1..]);
    }
  }

  /** How often a log starts task `n`; each start is one handler call. */
  function Starts(log: seq<Write>, n: string): nat {
    if log == [] then 0
    else (if log[0].name == n && log[0].to.status == TRunning then 1 else 0) + Starts(log[1..], n)
  }

  lemma {:induction false} StartsAppend(a: seq<Write>, b: seq<Write>, n: string)
    ensures Starts(a + b, n) == Starts(a, n) + Starts(b, n)
  {
    if a == [] {
      assert a + b == b;
    } else {
      assert (a + b)[0] == a[0] && (a + b)[1..] == a[1..] + b;
      StartsAppend(a[1..], b, n);
    }
  }

  /** Attempt counters count exactly the starts. */
  lemma {:induction false} StartsAreAttempts(def: WorkflowDef, tasks: Tasks, log: seq<Write>, n: string)
    requires SafeLog(def, tasks, log)
    ensures Load(Replay(tasks, log), n).attempts == Load(tasks, n).attempts + Starts(log, n)
    decreases log
  {
    if log != [] {
      StartsAreAttempts(def, tasks[log[0].name := log[0].to], log[1..], n);
    }
  }

  // ----- one call, one batch

  ghost predicate Callable(def: WorkflowDef, tasks: Tasks, n: string) {
    && n in TaskNames(def.tasks)
    && (Load(tasks, n).status == TPending || Load(tasks, n).status == TFailed)
    && Load(tasks, n).attempts < Limit(def, n)
    && DepsMet(def, tasks, n)
  }

  lemma CallSafe(def: WorkflowDef, tasks: Tasks, n: string, h: Handler)
    requires Callable(def, tasks, n)
    ensures SafeLog(def, tasks, Call(tasks, n, h).log)
    ensures Replay(tasks, Call(tasks, n, h).log) == Call(tasks, n, h).tasks
    ensures forall m :: Starts(Call(tasks, n, h).log, m) == if m == n then 1 else 0
  {
    var t := Call(tasks, n, h);
    var a := Load(tasks, n).attempts + 1;
    var running := tasks[n := TaskRec(TRunning, a)];
    assert t.log[0] == Write(n, Load(tasks, n).status, TaskRec(TRunning, a));
    assert SafeWrite(def, tasks, t.log[0]);
    if !t.panicked {
      assert t.log[1..] == [t.log[1]] && t.log[1..][1..] == [];
      assert SafeWrite(def, running, t.log[1]);
      assert running[n := t.log[1].to] == t.tasks;
      assert Replay(running, t.log[1..]) == t.tasks;
    } else {
      assert t.log[1..] == [];
    }
    forall m ensures Starts(t.log, m) == if m == n then 1 else 0 {
      assert Starts(t.log[1..], m) == 0;
    }
  }

  lemma CallKeepsCallable(def: WorkflowDef, tasks: Tasks, m: string, n: string, h: Handler)
    requires Callable(def, tasks, m) && Callable(def, tasks, n) && m != n
    ensures Callable(def, Call(tasks, m, h).tasks, n)
  {
  }

  /** What running a batch does: safe writes, at most one start each, nothing else touched. */
  ghost predicate BatchRan(def: WorkflowDef, tasks: Tasks, batch: seq<string>, t: Trace) {
    && SafeLog(def, tasks, t.log) && Replay(tasks, t.log) == t.tasks
    && (forall n :: Starts(t.log, n) <= if n in batch then 1 else 0)
    && (forall n :: n !in batch ==> Load(t.tasks, n) == Load(tasks, n))
    && (forall n :: n in batch ==> n in t.tasks ==> t.tasks[n].status != TSkipped)
    && (!t.panicked ==> forall n :: n in batch ==>
          Load(t.tasks, n).status == TSucceeded || Load(t.tasks, n).status == TFailed)
  }

  lemma {:induction false} CallAllSafe(def: WorkflowDef, tasks: Tasks, batch: seq<string>, h: Handler)
    requires NoDuplicates(batch) && forall n :: n in batch ==> Callable(def, tasks, n)
    ensures BatchRan(def, tasks, batch, CallAll(tasks, batch, h))
    decreases batch
  {
    if batch != [] {
      var n, rest := batch[0], batch[1..];
      var one := Call(tasks, n, h);
      CallSafe(def, tasks, n, h);
      if !one.panicked {
        forall m | m in rest ensures Callable(def, one.tasks, m) { CallKeepsCallable(def, tasks, n, m, h); }
        CallAllSafe(def, one.tasks, rest, h);
        BatchCompose(def, tasks, batch, one, CallAll(one.tasks, rest, h));
      }
    }
  }

  lemma BatchCompose(def: WorkflowDef, tasks: Tasks, batch: seq<string>, one: Trace, t: Trace)
    requires batch != [] && NoDuplicates(batch)
    requires SafeLog(def, tasks, one.log) && Replay(tasks, one.log) == one.tasks
    requires forall m :: Starts(one.log, m) == if m == batch[0] then 1 else 0
    requires forall m :: m != batch[0] ==> Load(one.tasks, m) == Load(tasks, m)
    requires Load(one.tasks, batch[0]).status == TSucceeded || Load(one.tasks, batch[0]).status == TFailed
    requires BatchRan(def, one.tasks, batch[1..], t)
    ensures BatchRan(def, tasks, batch, Trace(t.tasks, one.log + t.log, t.panicked))
  {
    var n, rest := batch[0], batch[1..];
    assert batch == [n] + rest && n !in rest;
    Append(def, tasks, one.log, t.log);
    forall m ensures Starts(one.log + t.log, m) <= if m in batch then 1 else 0 {
      StartsAppend(one.log, t.log, m);
      assert Starts(t.log, m) <= if m in rest then 1 else 0;
    }
    assert Load(t.tasks, n) == Load(one.tasks, n);
  }

  // ----- the loop

  /** The tasks of a pass may be called: their dependencies are met, even those picked for a retry. */
  lemma BatchCallable(def: WorkflowDef, tasks: Tasks, executed: set<string>)
    requires ValidDef(def) && Inv(def, tasks)
    ensures NoDuplicates(Batch(def, tasks, executed))
    ensures forall n :: n in Batch(def, tasks, executed) <==>
              Callable(def, tasks, n) && n !in executed
  {
    var states := StatesOf(def, tasks);
    ReadyMeaning(def.tasks, states);
    forall i | 0 <= i < |def.tasks|
      ensures Callable(def, tasks, def.tasks[i].name) <==>
              MayDispatch(states, def.tasks[i]) && WithinBudget(def, tasks, def.tasks[i].name)
    {
      DispatchMeansCallable(def, tasks, i);
    }
    forall n | Callable(def, tasks, n) && n !in executed ensures n in Batch(def, tasks, executed) {
      var i :| 0 <= i < |def.tasks| && def.tasks[i].name == n;
    }
  }

  predicate WithinBudget(def: WorkflowDef, tasks: Tasks, n: string) {
    Load(tasks, n).status == TFailed ==> Load(tasks, n).attempts < Limit(def, n)
  }

  lemma SameSuccess(def: WorkflowDef, tasks: Tasks, d: string)
    ensures Done(tasks, d) <==> Pick.Succeeded(StatesOf(def, tasks), d)
  {
  }

  lemma DispatchMeansCallable(def: WorkflowDef, tasks: Tasks, i: nat)
    requires ValidDef(def) && Inv(def, tasks) && i < |def.tasks|
    ensures Callable(def, tasks, def.tasks[i].name) <==>
            MayDispatch(StatesOf(def, tasks), def.tasks[i]) && WithinBudget(def, tasks, def.tasks[i].name)
  {
    var n := def.tasks[i].name;
    FindUnique(def.tasks, i);
    assert StatusOf(StatesOf(def, tasks), n) == Load(tasks, n).status;
    MetMeansSucceeded(def, tasks, i);
  }

  lemma MetMeansSucceeded(def: WorkflowDef, tasks: Tasks, i: nat)
    requires ValidDef(def) && i < |def.tasks|
    ensures DepsMet(def, tasks, def.tasks[i].name) <==>
            forall d :: d in def.tasks[i].dependsOn ==> Pick.Succeeded(StatesOf(def, tasks), d)
  {
    FindUnique(def.tasks, i);
    forall d ensures Done(tasks, d) <==> Pick.Succeeded(StatesOf(def, tasks), d) { SameSuccess(def, tasks, d); }
  }

  ghost predicate Settled(tasks: Tasks, executed: set<string>) {
    forall n :: n in executed ==> Load(tasks, n).status == TSucceeded || Load(tasks, n).status == TFailed
  }

  ghost predicate SameRunning(a: Tasks, b: Tasks) {
    forall n :: Load(a, n).status == TRunning <==> Load(b, n).status == TRunning
  }

  /** No pending task is left whose dependencies are met. */
  ghost predicate NothingReady(def: WorkflowDef, tasks: Tasks) {
    forall n :: n in TaskNames(def.tasks) && Load(tasks, n).status == TPending ==> !DepsMet(def, tasks, n)
  }

  ghost predicate SameSkips(a: Tasks, b: Tasks) {
    forall n :: Load(a, n).status == TSkipped <==> Load(b, n).status == TSkipped
  }

  /** What the rest of the loop does, given the tasks this attempt has executed so far. */
  ghost predicate LoopRan(def: WorkflowDef, tasks: Tasks, executed: set<string>, r: LoopResult) {
    && SafeLog(def, tasks, r.log) && Replay(tasks, r.log) == r.tasks && Inv(def, r.tasks)
    && (forall n :: Starts(r.log, n) <= if n in executed then 0 else 1)
    && SameSkips(tasks, r.tasks)
    && (!r.end.LoopPanicked? ==> SameRunning(tasks, r.tasks))
    && (r.end.Drained? ==> NothingReady(def, r.tasks))
  }

  lemma LoopStops(def: WorkflowDef, tasks: Tasks, executed: set<string>, end: LoopEnd)
    requires ValidDef(def) && Inv(def, tasks) && Settled(tasks, executed)
    requires end.SawCancel? || (end.Drained? && Batch(def, tasks, executed) == [])
    ensures LoopRan(def, tasks, executed, LoopResult(tasks, [], [], end))
  {
    BatchCallable(def, tasks, executed);
    if end.Drained? {
      forall n | n in TaskNames(def.tasks) && Load(tasks, n).status == TPending ensures !DepsMet(def, tasks, n) {
        assert n !in executed && !Callable(def, tasks, n);
        assert n in tasks ==> tasks[n].attempts == 0;
      }
    }
  }

  lemma BatchKeeps(def: WorkflowDef, tasks: Tasks, executed: set<string>, batch: seq<string>, t: Trace)
    requires ValidDef(def) && Inv(def, tasks) && Settled(tasks, executed)
    requires batch == Batch(def, tasks, executed) && BatchRan(def, tasks, batch, t)
    ensures Inv(def, t.tasks) && SameSkips(tasks, t.tasks)
    ensures !t.panicked ==> Settled(t.tasks, executed + Elements(batch))
    ensures !t.panicked ==> SameRunning(tasks, t.tasks)
  {
    LogKeepsInv(def, tasks, t.log);
    forall n
      ensures Load(tasks, n).status == TSkipped <==> Load(t.tasks, n).status == TSkipped
      ensures !t.panicked ==> (Load(tasks, n).status == TRunning <==> Load(t.tasks, n).status == TRunning)
    {
      BatchKeepsOne(def, tasks, executed, batch, t, n);
    }
  }

  lemma BatchKeepsOne(def: WorkflowDef, tasks: Tasks, executed: set<string>, batch: seq<string>, t: Trace, n: string)
    requires ValidDef(def) && Inv(def, tasks)
    requires batch == Batch(def, tasks, executed) && BatchRan(def, tasks, batch, t)
    ensures Load(tasks, n).status == TSkipped <==> Load(t.tasks, n).status == TSkipped
    ensures !t.panicked ==> (Load(tasks, n).status == TRunning <==> Load(t.tasks, n).status == TRunning)
  {
    if n in batch {
      BatchCallable(def, tasks, executed);
      assert Callable(def, tasks, n);
    }
  }

  lemma LoopCompose(
    def: WorkflowDef, tasks: Tasks, executed: set<string>, batch: seq<string>, t: Trace, rest: LoopResult)
    requires SafeLog(def, tasks, t.log) && Replay(tasks, t.log) == t.tasks && SameSkips(tasks, t.tasks)
    requires forall n :: Starts(t.log, n) <= if n in batch then 1 else 0
    requires forall n :: n in batch ==> n !in executed
    requires SameRunning(tasks, t.tasks)
    requires LoopRan(def, t.tasks, executed + Elements(batch), rest)
    ensures LoopRan(def, tasks, executed, LoopResult(rest.tasks, t.log + rest.log, [batch] + rest.passes, rest.end))
  {
    Append(def, tasks, t.log, rest.log);
    forall n ensures Starts(t.log + rest.log, n) <= if n in executed then 0 else 1 {
      StartsAppend(t.log, rest.log, n);
      assert Starts(rest.log, n) <= if n in executed + Elements(batch) then 0 else 1;
    }
  }

  lemma LoopPanics(def: WorkflowDef, tasks: Tasks, executed: set<string>, batch: seq<string>, t: Trace)
    requires BatchRan(def, tasks, batch, t) && Inv(def, t.tasks) && SameSkips(tasks, t.tasks)
    requires forall n :: n in batch ==> n !in executed
    ensures LoopRan(def, tasks, executed, LoopResult(t.tasks, t.log, [batch], LoopPanicked))
  {
    assert forall n :: Starts(t.log, n) <= if n in executed then 0 else 1;
  }

  lemma {:induction false} LoopSafe(def: WorkflowDef, tasks: Tasks, executed: set<string>, h: Handler,
                                    cancelled: nat -> bool, pass: nat)
    requires ValidDef(def) && Inv(def, tasks) && Settled(tasks, executed)
    ensures LoopRan(def, tasks, executed, Loop(def, tasks, executed, h, cancelled, pass))
    decreases TaskNames(def.tasks) - executed
  {
    var batch := Batch(def, tasks, executed);
    if cancelled(pass) {
      LoopStops(def, tasks, executed, SawCancel);
    } else if batch == [] {
      LoopStops(def, tasks, executed, Drained);
    } else {
      var t := CallAll(tasks, batch, h);
      assert BatchRan(def, tasks, batch, t) by {
        BatchCallable(def, tasks, executed);
        CallAllSafe(def, tasks, batch, h);
      }
      BatchKeeps(def, tasks, executed, batch, t);
      BatchShrinks(def, tasks, executed);
      if !t.panicked {
        LoopSafe(def, t.tasks, executed + Elements(batch), h, cancelled, pass + 1);
        LoopCompose(def, tasks, executed, batch, t,
                    Loop(def, t.tasks, executed + Elements(batch), h, cancelled, pass + 1));
      } else {
        LoopPanics(def, tasks, executed, batch, t);
      }
    }
  }
}
