/**
 Dispatchers, workers, operators and the reaper sharing one store, as a step
 system: no submitted run is ever lost.
 */
module Dispatch {
  import opened Domain
  import opened Names
  import opened Pick
  import opened Queue
  import opened Backends
  import opened Executor
  import opened TaskSafety
  import opened Attempts
  import Lifecycle

  /** Where the dispatcher thread is with a claim, and where the job it made is. */
  datatype Dispatching = HasClaimed | HasMarked(ok: bool) | MustFail | Left

  datatype Job = Unsent | InChannel | Received | Working(snapshot: Run) | Acting(action: RunAction) | Ended

  datatype Hold = Hold(run: string, disp: Dispatching, job: Job) {
    /** Somebody still acts on the strength of this claim. */
    predicate Active() {
      disp != Left || job.InChannel? || job.Received? || job.Working? || job.Acting?
    }
  }

  /** `claims` is keyed by token; `channel` holds the tokens of the jobs waiting for a worker. */
  datatype State = State(
    runs: map<string, Run>, queue: Entries, now: int, claims: map<Token, Hold>, channel: seq<Token>)

  const START := State(map[], map[], 0, map[], [])

  datatype Action =
    | Submit(id: string, deadline: Option<int>)
    | TryClaim(id: string, t: Token, at: int, lease: int)
    | Mark(t: Token)
    | TrySend(t: Token)
    | DropClaim(t: Token)
    | Receive
    | Start(t: Token)
    | Heartbeat(t: Token, at: int, extend: int)
    | SeeCancel(t: Token)
    | Panic(t: Token)
    | Finish(t: Token, outcome: Finalized)
    | Apply(t: Token)
    | CancelRun(id: string)
    | Reap(at: int)
    | Tick(later: int)
    | Crash

  /** `finalize` errs and writes nothing, or puts the run back for the time on its record, or ends it. */
  predicate Decided(f: Finalized) {
    if f.end.Finished? then
      && f.write.Some?
      && if f.end.action.Release? then
           f.write.value.status == Queued && f.write.value.nextAttemptAt == Some(f.end.action.at)
         else f.write.value.status == RunStatus.Succeeded || f.write.value.status == RunStatus.Failed
    else f.write == None
  }

  /** That is all the executor's `finalize` ever does with a running run. */
  lemma FinalizeDecides(def: WorkflowDef, run: Run, tasks: Tasks, states: States, now: int, draw: nat)
    requires run.status == Running
    ensures Decided(Finalize(def, run, tasks, states, now, draw))
  {
    if Finalize(def, run, tasks, states, now, draw).end.Finished? {
      Lifecycle.FinalizeBudget(def, run, tasks, states, now, draw);
    }
  }

  datatype System = System(backend: Backend, capacity: nat)

  predicate Enabled(s: State, a: Action) {
    match a
    case Submit(id, _) => id !in s.runs
    case TryClaim(_, t, at, _) => t != "" && t !in s.claims && at <= s.now
    case Mark(t) => t in s.claims && s.claims[t].disp == HasClaimed && s.claims[t].run in s.runs
    case TrySend(t) => t in s.claims && s.claims[t].disp.HasMarked?
    case DropClaim(t) => t in s.claims && s.claims[t].disp == MustFail
    case Receive => s.channel != [] && s.channel[0] in s.claims
    case Start(t) => t in s.claims && s.claims[t].job == Received && s.claims[t].run in s.runs
    case Heartbeat(t, at, _) => t in s.claims && s.claims[t].job.Working? && at <= s.now
    case SeeCancel(t) =>
      && t in s.claims && s.claims[t].job.Working? && s.claims[t].run in s.runs
      && s.runs[s.claims[t].run].status == Cancelled
    case Panic(t) => t in s.claims && s.claims[t].job.Working?
    case Finish(t, f) =>
      && t in s.claims && s.claims[t].job.Working? && s.claims[t].run in s.runs
      && s.runs[s.claims[t].run].status != Cancelled && Decided(f)
    case Apply(t) => t in s.claims && s.claims[t].job.Acting?
    case CancelRun(id) => id in s.runs
    case Reap(at) => at <= s.now
    case Tick(later) => s.now <= later
    case Crash => true
  }

  /** A store call whose failure the caller ignores. */
  function Try(y: System, q: Entries, op: Op): Entries {
    match Perform(y.backend, q, op)
    case Ok(next) => next
    case Err(_) => q
  }

  function SetJob(s: State, t: Token, job: Job): map<Token, Hold>
    requires t in s.claims
  {
    s.claims[t := s.claims[t].(job := job)]
  }

  function SetDisp(s: State, t: Token, disp: Dispatching): map<Token, Hold>
    requires t in s.claims
  {
    s.claims[t := s.claims[t].(disp := disp)]
  }

  function Submission(id: string, now: int): Entry {
    Entry(id, "", now, None, None)
  }

  function Do(y: System, s: State, a: Action): State
    requires Enabled(s, a)
  {
    match a
    case Submit(id, deadline) =>
      s.(runs := s.runs[id := Lifecycle.Submitted(deadline).run],
         queue := Try(y, s.queue, Enqueue(Submission(id, s.now))))
    case TryClaim(id, t, at, lease) =>
      (match Perform(y.backend, s.queue, Op.Claim(id, t, at, lease))
       case Err(_) => s
       case Ok(q) => s.(queue := q, claims := s.claims[t := Hold(id, HasClaimed, Unsent)]))
    case Mark(t) =>
      var id := s.claims[t].run;
      (match Lifecycle.MarkRunning(s.runs[id], s.now)
       case None => s.(claims := SetDisp(s, t, HasMarked(false)))
       case Some(run) => s.(runs := s.runs[id := run], claims := SetDisp(s, t, HasMarked(true))))
    case TrySend(t) =>
      if |s.channel| < y.capacity then
        var disp := if s.claims[t].disp.ok then Left else MustFail;
        s.(channel := s.channel + [t], claims := s.claims[t := s.claims[t].(disp := disp, job := InChannel)])
      else s.(claims := SetDisp(s, t, MustFail))
    case DropClaim(t) =>
      s.(queue := Try(y, s.queue, FailClaim(s.claims[t].run, t)), claims := SetDisp(s, t, Left))
    case Receive =>
      s.(channel := s.channel[1..], claims := SetJob(s, s.channel[0], Received))
    case Start(t) =>
      var id := s.claims[t].run;
      var run := s.runs[id];
      if run.status == Cancelled then s.(claims := SetJob(s, t, Acting(RunAction.Ack)))
      else if run.status != Running then s.(claims := SetJob(s, t, Acting(RunAction.Release(s.now))))
      else if run.deadlineAt.Some? && s.now > run.deadlineAt.value then
        s.(runs := s.runs[id := run.(status := TimedOut, finishedAt := Some(s.now),
                                     error := Some(RunError(Timeout, None, run.attempts)))],
           claims := SetJob(s, t, Acting(RunAction.Ack)))
      else s.(claims := SetJob(s, t, Working(run)))
    case Heartbeat(t, at, extend) => s.(queue := Try(y, s.queue, Renew(s.claims[t].run, t, at, extend)))
    case SeeCancel(t) => s.(claims := SetJob(s, t, Acting(RunAction.Ack)))
    case Panic(t) => s.(claims := SetJob(s, t, Acting(RunAction.Release(s.now))))
    case Finish(t, f) =>
      if f.end.Finished? then
        s.(runs := s.runs[s.claims[t].run := f.write.value], claims := SetJob(s, t, Acting(f.end.action)))
      else s.(claims := SetJob(s, t, Acting(RunAction.Release(s.now))))
    case Apply(t) =>
      var op := match s.claims[t].job.action
                case Ack => Op.Ack(s.claims[t].run, t)
                case Release(at) => Op.Release(s.claims[t].run, t, at);
      s.(queue := Try(y, s.queue, op), claims := SetJob(s, t, Ended))
    case CancelRun(id) =>
      if s.runs[id].status.IsTerminal() then s
      else s.(runs := s.runs[id := CancelledRun(s.runs[id], s.now)], queue := Try(y, s.queue, Remove(id)))
    case Reap(at) => s.(queue := Try(y, s.queue, Recover(at)))
    case Tick(later) => s.(now := later)
    case Crash =>
      s.(channel := [], claims := map t | t in s.claims :: s.claims[t].(disp := Left, job := Ended))
  }

  /** The claim a step belongs to. */
  function Mover(s: State, a: Action): Option<Token> {
    match a
    case Mark(t) => Some(t)
    case TrySend(t) => Some(t)
    case DropClaim(t) => Some(t)
    case Receive => if s.channel != [] then Some(s.channel[0]) else None
    case Start(t) => Some(t)
    case Heartbeat(t, _, _) => Some(t)
    case SeeCancel(t) => Some(t)
    case Panic(t) => Some(t)
    case Finish(t, _) => Some(t)
    case Apply(t) => Some(t)
    case _ => None
  }

  // ----- the protocol invariant

  predicate Owns(q: Entries, t: Token, id: string) {
    id in q && q[id].token == t && q[id].leaseUntil.Some?
  }

  predicate Over(runs: map<string, Run>, id: string) {
    id in runs && runs[id].status.IsTerminal()
  }

  /** What an active claim may rely on: it owns the entry, or the run is over. */
  ghost predicate ClaimOk(runs: map<string, Run>, q: Entries, t: Token, c: Hold) {
    && t != "" && c.run in runs
    && (c.Active() ==> Owns(q, t, c.run) || Over(runs, c.run))
    && (c.disp.HasClaimed? || c.disp.HasMarked? ==> c.job == Unsent)
    && (c.disp == HasMarked(false) ==> Over(runs, c.run))
    && (c.disp == MustFail && c.job != Unsent ==> Over(runs, c.run))
    && (c.job.Working? ==>
          && c.job.snapshot.status == Running
          && (runs[c.run].status == Cancelled || (Owns(q, t, c.run) && runs[c.run].status == Running)))
    && (c.job.Acting? && c.job.action.Ack? ==> Over(runs, c.run))
  }

  /** A run that is not over has a queue entry, its own. */
  ghost predicate QueueOk(s: State) {
    && (forall id :: id in s.runs && !Over(s.runs, id) ==> id in s.queue)
    && (forall id :: id in s.queue ==> id in s.runs && s.queue[id].runId == id)
    && (forall id :: id in s.queue ==> s.queue[id].token == "" || s.queue[id].token in s.claims)
  }

  ghost predicate ChannelOk(s: State) {
    && NoDuplicates(s.channel)
    && forall t :: t in s.channel ==> t in s.claims && s.claims[t].job == InChannel
  }

  ghost predicate DispatchInv(s: State) {
    && QueueOk(s) && ChannelOk(s)
    && forall t :: t in s.claims ==> ClaimOk(s.runs, s.queue, t, s.claims[t])
  }

  /** No lease of an active claim has run out. */
  ghost predicate NoLapse(s: State) {
    forall t :: t in s.claims && s.claims[t].Active() && Owns(s.queue, t, s.claims[t].run) ==>
      s.queue[s.claims[t].run].IsLeased(s.now)
  }

  /** Runs and queue change at `id` at most, and a run that is over stays as it is. */
  ghost predicate ChangedAt(s: State, next: State, id: string) {
    && next.runs.Keys == s.runs.Keys
    && (forall x :: x in s.runs && (x != id || Over(s.runs, x)) ==> next.runs[x] == s.runs[x])
    && (forall x :: x != id ==> (x in next.queue <==> x in s.queue))
    && (forall x :: x != id && x in s.queue ==> next.queue[x] == s.queue[x])
  }

  /** What one active claim does to its run and entry disturbs no other claim. */
  lemma OthersUndisturbed(s: State, next: State, t: Token, u: Token)
    requires DispatchInv(s) && t in s.claims && s.claims[t].Active() && ChangedAt(s, next, s.claims[t].run)
    requires u in s.claims && u != t
    ensures ClaimOk(next.runs, next.queue, u, s.claims[u])
  {
    assert ClaimOk(s.runs, s.queue, t, s.claims[t]) && ClaimOk(s.runs, s.queue, u, s.claims[u]);
  }

  /** The queue's part of the invariant, at one run. */
  ghost predicate EntryOk(s: State, id: string) {
    && (id in s.runs && !Over(s.runs, id) ==> id in s.queue)
    && (id in s.queue ==>
          id in s.runs && s.queue[id].runId == id && (s.queue[id].token == "" || s.queue[id].token in s.claims))
  }

  /** One active claim moves on: only itself, its run and its entry have to be looked at. */
  ghost predicate MovesOn(s: State, next: State, t: Token) {
    && t in s.claims && s.claims[t].Active() && ChangedAt(s, next, s.claims[t].run)
    && t in next.claims && next.claims == s.claims[t := next.claims[t]]
  }

  lemma OneClaimChanges(s: State, next: State, t: Token)
    requires DispatchInv(s) && MovesOn(s, next, t) && ChannelOk(next)
    requires ClaimOk(next.runs, next.queue, t, next.claims[t]) && EntryOk(next, s.claims[t].run)
    ensures DispatchInv(next)
  {
    forall u | u in next.claims ensures ClaimOk(next.runs, next.queue, u, next.claims[u]) {
      if u != t { OthersUndisturbed(s, next, t, u); }
    }
    forall id ensures EntryOk(next, id) {
      if id != s.claims[t].run { assert EntryOk(s, id); }
    }
  }

  /** A claim that is not in the channel can move on without touching it. */
  lemma ChannelUntouched(s: State, next: State, t: Token)
    requires ChannelOk(s) && MovesOn(s, next, t) && next.channel == s.channel && s.claims[t].job != InChannel
    ensures ChannelOk(next)
  {
  }

  /** A granted claim was of an entry nobody active owned. */
  lemma GrantedWasFree(b: Backend, s: State, id: string, t: Token, at: int, lease: int)
    requires DispatchInv(s) && NoLapse(s) && Enabled(s, TryClaim(id, t, at, lease))
    requires Perform(b, s.queue, Op.Claim(id, t, at, lease)).Ok?
    ensures id in s.queue
    ensures Perform(b, s.queue, Op.Claim(id, t, at, lease)).value == s.queue[id := s.queue[id].Held(t, at + lease)]
    ensures forall u :: u in s.claims && s.claims[u].Active() && s.claims[u].run == id ==> !Owns(s.queue, u, id)
  {
    if b.Sqlite? { SqlStepIsMemoryStep(s.queue, Op.Claim(id, t, at, lease)); }
    assert !s.queue[id].IsLeased(at);
  }

  lemma ClaimStep(y: System, s: State, id: string, t: Token, at: int, lease: int)
    requires DispatchInv(s) && NoLapse(s) && Enabled(s, TryClaim(id, t, at, lease))
    ensures DispatchInv(Do(y, s, TryClaim(id, t, at, lease)))
  {
    if Perform(y.backend, s.queue, Op.Claim(id, t, at, lease)).Ok? {
      GrantedWasFree(y.backend, s, id, t, at, lease);
      var next := Do(y, s, TryClaim(id, t, at, lease));
      forall u | u in next.claims ensures ClaimOk(next.runs, next.queue, u, next.claims[u]) {
        if u != t { assert ClaimOk(s.runs, s.queue, u, s.claims[u]); }
      }
    }
  }

  lemma ReapStep(y: System, s: State, at: int)
    requires DispatchInv(s) && NoLapse(s) && Enabled(s, Reap(at))
    ensures DispatchInv(Do(y, s, Reap(at)))
  {
    var q := Recovered(s.queue, at);
    forall u | u in s.claims ensures ClaimOk(s.runs, q, u, s.claims[u]) {
      assert ClaimOk(s.runs, s.queue, u, s.claims[u]);
    }
  }

  lemma SubmitStep(y: System, s: State, id: string, deadline: Option<int>)
    requires DispatchInv(s) && Enabled(s, Submit(id, deadline))
    ensures DispatchInv(Do(y, s, Submit(id, deadline)))
  {
  }

  lemma MarkStep(y: System, s: State, t: Token)
    requires DispatchInv(s) && Enabled(s, Mark(t))
    ensures DispatchInv(Do(y, s, Mark(t)))
  {
    var next := Do(y, s, Mark(t));
    assert ClaimOk(s.runs, s.queue, t, s.claims[t]) && EntryOk(s, s.claims[t].run);
    ChannelUntouched(s, next, t);
    OneClaimChanges(s, next, t);
  }

  lemma SendStep(y: System, s: State, t: Token)
    requires DispatchInv(s) && Enabled(s, TrySend(t))
    ensures DispatchInv(Do(y, s, TrySend(t)))
  {
  }

  lemma DropStep(y: System, s: State, t: Token)
    requires DispatchInv(s) && Enabled(s, DropClaim(t))
    ensures DispatchInv(Do(y, s, DropClaim(t)))
  {
    OneClaimChanges(s, Do(y, s, DropClaim(t)), t);
  }

  lemma ReceiveStep(y: System, s: State)
    requires DispatchInv(s) && Enabled(s, Receive)
    ensures DispatchInv(Do(y, s, Receive))
  {
  }

  predicate Late(run: Run, now: int) {
    run.status == Running && run.deadlineAt.Some? && now > run.deadlineAt.value
  }

  lemma TimeoutStep(y: System, s: State, t: Token)
    requires DispatchInv(s) && Enabled(s, Start(t)) && Late(s.runs[s.claims[t].run], s.now)
    ensures DispatchInv(Do(y, s, Start(t)))
  {
    var next := Do(y, s, Start(t));
    assert ClaimOk(s.runs, s.queue, t, s.claims[t]) && EntryOk(s, s.claims[t].run);
    ChannelUntouched(s, next, t);
    OneClaimChanges(s, next, t);
  }

  lemma StartStep(y: System, s: State, t: Token)
    requires DispatchInv(s) && Enabled(s, Start(t)) && !Late(s.runs[s.claims[t].run], s.now)
    ensures DispatchInv(Do(y, s, Start(t)))
  {
    var next := Do(y, s, Start(t));
    assert ClaimOk(s.runs, s.queue, t, s.claims[t]) && EntryOk(s, s.claims[t].run);
    ChannelUntouched(s, next, t);
    OneClaimChanges(s, next, t);
  }

  lemma HeartbeatStep(y: System, s: State, t: Token, at: int, extend: int)
    requires DispatchInv(s) && Enabled(s, Heartbeat(t, at, extend))
    ensures DispatchInv(Do(y, s, Heartbeat(t, at, extend)))
  {
    var next := Do(y, s, Heartbeat(t, at, extend));
    assert ClaimOk(s.runs, s.queue, t, s.claims[t]) && EntryOk(s, s.claims[t].run);
    ChannelUntouched(s, next, t);
    OneClaimChanges(s, next, t);
  }

  lemma JobStep(y: System, s: State, a: Action)
    requires DispatchInv(s) && Enabled(s, a) && (a.SeeCancel? || a.Panic?)
    ensures DispatchInv(Do(y, s, a))
  {
    var next := Do(y, s, a);
    assert ClaimOk(s.runs, s.queue, a.t, s.claims[a.t]) && EntryOk(s, s.claims[a.t].run);
    ChannelUntouched(s, next, a.t);
    OneClaimChanges(s, next, a.t);
  }

  lemma FinishStep(y: System, s: State, a: Action)
    requires DispatchInv(s) && Enabled(s, a) && a.Finish?
    ensures DispatchInv(Do(y, s, a))
  {
    var next := Do(y, s, a);
    assert ClaimOk(s.runs, s.queue, a.t, s.claims[a.t]) && EntryOk(s, s.claims[a.t].run);
    ChannelUntouched(s, next, a.t);
    OneClaimChanges(s, next, a.t);
  }

  lemma AckStep(y: System, s: State, t: Token)
    requires DispatchInv(s) && Enabled(s, Apply(t)) && s.claims[t].job.action.Ack?
    ensures DispatchInv(Do(y, s, Apply(t)))
  {
    var next := Do(y, s, Apply(t));
    assert ClaimOk(s.runs, s.queue, t, s.claims[t]) && EntryOk(s, s.claims[t].run);
    ChannelUntouched(s, next, t);
    OneClaimChanges(s, next, t);
  }

  lemma ReleaseStep(y: System, s: State, t: Token)
    requires DispatchInv(s) && Enabled(s, Apply(t)) && s.claims[t].job.action.Release?
    ensures DispatchInv(Do(y, s, Apply(t)))
  {
    var next := Do(y, s, Apply(t));
    assert ClaimOk(s.runs, s.queue, t, s.claims[t]) && EntryOk(s, s.claims[t].run);
    ChannelUntouched(s, next, t);
    OneClaimChanges(s, next, t);
  }

  lemma CancelStep(y: System, s: State, id: string)
    requires DispatchInv(s) && Enabled(s, CancelRun(id))
    ensures DispatchInv(Do(y, s, CancelRun(id)))
  {
  }

  lemma ClockStep(y: System, s: State, later: int)
    requires DispatchInv(s) && Enabled(s, Tick(later))
    ensures DispatchInv(Do(y, s, Tick(later)))
  {
  }

  lemma CrashStep(y: System, s: State)
    requires DispatchInv(s)
    ensures DispatchInv(Do(y, s, Crash))
  {
  }

  lemma StepKeepsInv(y: System, s: State, a: Action)
    requires DispatchInv(s) && NoLapse(s) && Enabled(s, a)
    ensures DispatchInv(Do(y, s, a))
  {
    match a
    case Submit(id, deadline) => SubmitStep(y, s, id, deadline);
    case TryClaim(id, t, at, lease) => ClaimStep(y, s, id, t, at, lease);
    case Mark(t) => MarkStep(y, s, t);
    case TrySend(t) => SendStep(y, s, t);
    case DropClaim(t) => DropStep(y, s, t);
    case Receive => ReceiveStep(y, s);
    case Start(t) =>
      if Late(s.runs[s.claims[t].run], s.now) { TimeoutStep(y, s, t); } else { StartStep(y, s, t); }
    case Heartbeat(t, at, extend) => HeartbeatStep(y, s, t, at, extend);
    case SeeCancel(t) => JobStep(y, s, a);
    case Panic(t) => JobStep(y, s, a);
    case Finish(t, _) => FinishStep(y, s, a);
    case Apply(t) => if s.claims[t].job.action.Ack? { AckStep(y, s, t); } else { ReleaseStep(y, s, t); }
    case CancelRun(id) => CancelStep(y, s, id);
    case Reap(at) => ReapStep(y, s, at);
    case Tick(later) => ClockStep(y, s, later);
    case Crash => CrashStep(y, s);
  }

  /** Marking a queued run stamps its start, a running one is left as it is, and any other fails. */
  lemma MarkTakesEffect(y: System, s: State, t: Token)
    requires Enabled(s, Mark(t))
    ensures var id, next := s.claims[t].run, Do(y, s, Mark(t));
      && next == s.(runs := next.runs, claims := next.claims)
      && next.claims == s.claims[t := s.claims[t].(disp := HasMarked(!Over(s.runs, id)))]
      && next.runs ==
         if s.runs[id].status == Queued then
           s.runs[id := s.runs[id].(status := Running, startedAt := Some(s.now))]
         else s.runs
  {
  }

  /** Cancelling takes a live run out of the queue in the same step, and leaves a finished one alone. */
  lemma CancelTakesEffect(y: System, s: State, id: string)
    requires id in s.runs
    ensures var next := Do(y, s, CancelRun(id));
      if s.runs[id].status == Queued || s.runs[id].status == Running then
        && next.runs == s.runs[id := s.runs[id].(status := Cancelled, finishedAt := Some(s.now), error := None)]
        && next.queue == s.queue - {id} && next.claims == s.claims && next.channel == s.channel
      else next == s
  {
  }

  /** No claim is ever stuck: whoever acts on it has a next step, but for a job that waits its turn in the channel. */
  lemma ActiveCanMove(s: State, t: Token) returns (a: Action)
    requires DispatchInv(s) && t in s.claims && s.claims[t].Active()
    requires s.claims[t].job == InChannel ==> s.channel != [] && s.channel[0] == t
    ensures Enabled(s, a) && Mover(s, a) == Some(t)
  {
    assert ClaimOk(s.runs, s.queue, t, s.claims[t]);
    a := match s.claims[t].disp
      case HasClaimed => Mark(t)
      case HasMarked(_) => TrySend(t)
      case MustFail => DropClaim(t)
      case Left =>
        match s.claims[t].job
        case InChannel => Receive
        case Received => Start(t)
        case Working(_) => Panic(t)
        case _ => Apply(t);
  }

  /** A worker at work sees a cancellation, or else ends as `finalize` decides. */
  lemma WorkCanEnd(s: State, t: Token, f: Finalized)
    requires DispatchInv(s) && t in s.claims && s.claims[t].job.Working? && Decided(f)
    ensures if s.runs[s.claims[t].run].status == Cancelled then Enabled(s, SeeCancel(t)) else Enabled(s, Finish(t, f))
  {
    assert ClaimOk(s.runs, s.queue, t, s.claims[t]);
  }

  /** A status change the run machine allows; a retry goes through failed. */
  predicate Follows(from: RunStatus, to: RunStatus) {
    || from == to || CanTransitionRun(from, to)
    || (to == Queued && CanTransitionRun(from, RunStatus.Failed) && CanTransitionRun(RunStatus.Failed, to))
  }

  /** Whatever a step does to a record, its status follows the run machine. */
  lemma StepFollowsMachine(y: System, s: State, a: Action, id: string)
    requires DispatchInv(s) && Enabled(s, a) && id in s.runs
    ensures id in Do(y, s, a).runs && Follows(s.runs[id].status, Do(y, s, a).runs[id].status)
  {
    if a.Finish? {
      assert ClaimOk(s.runs, s.queue, a.t, s.claims[a.t]);
      FinishFollows(y, s, a, id);
    } else {
      OthersFollow(y, s, a, id);
    }
  }

  lemma FinishFollows(y: System, s: State, a: Action, id: string)
    requires Enabled(s, a) && a.Finish? && id in s.runs && s.runs[s.claims[a.t].run].status == Running
    ensures id in Do(y, s, a).runs && Follows(s.runs[id].status, Do(y, s, a).runs[id].status)
  {
  }

  lemma OthersFollow(y: System, s: State, a: Action, id: string)
    requires Enabled(s, a) && !a.Finish? && id in s.runs
    ensures id in Do(y, s, a).runs && Follows(s.runs[id].status, Do(y, s, a).runs[id].status)
  {
  }

  // ----- whole runs of the system

  ghost predicate Possible(y: System, s: State, actions: seq<Action>)
    decreases |actions|
  {
    actions == [] || (Enabled(s, actions[0]) && Possible(y, Do(y, s, actions[0]), actions[1..]))
  }

  ghost function After(y: System, s: State, actions: seq<Action>): State
    requires Possible(y, s, actions)
    decreases |actions|
  {
    if actions == [] then s else After(y, Do(y, s, actions[0]), actions[1..])
  }

  /** Throughout the run, no active claim's lease runs out. */
  ghost predicate Unlapsed(y: System, s: State, actions: seq<Action>)
    requires Possible(y, s, actions)
    decreases |actions|
  {
    NoLapse(s) && (actions == [] || Unlapsed(y, Do(y, s, actions[0]), actions[1..]))
  }

  lemma {:induction false} RunKeepsInv(y: System, s: State, actions: seq<Action>)
    requires DispatchInv(s) && Possible(y, s, actions) && Unlapsed(y, s, actions)
    ensures DispatchInv(After(y, s, actions)) && NoLapse(After(y, s, actions))
    decreases |actions|
  {
    if actions != [] {
      StepKeepsInv(y, s, actions[0]);
      RunKeepsInv(y, Do(y, s, actions[0]), actions[1..]);
    }
  }

  lemma OverStays(y: System, s: State, a: Action, id: string)
    requires DispatchInv(s) && Enabled(s, a) && Over(s.runs, id)
    ensures id in Do(y, s, a).runs && Do(y, s, a).runs[id] == s.runs[id]
  {
    if a.Finish? { assert ClaimOk(s.runs, s.queue, a.t, s.claims[a.t]); }
  }

  /** As long as no lease runs out under a claim, the record of a run that is over never changes again. */
  lemma {:induction false} OverForGood(y: System, s: State, actions: seq<Action>, id: string)
    requires DispatchInv(s) && Possible(y, s, actions) && Unlapsed(y, s, actions) && Over(s.runs, id)
    ensures id in After(y, s, actions).runs && After(y, s, actions).runs[id] == s.runs[id]
    decreases |actions|
  {
    if actions != [] {
      OverStays(y, s, actions[0], id);
      StepKeepsInv(y, s, actions[0]);
      OverForGood(y, Do(y, s, actions[0]), actions[1..], id);
    }
  }

  lemma {:induction false} Extend(y: System, s: State, actions: seq<Action>, a: Action)
    requires Possible(y, s, actions) && Enabled(After(y, s, actions), a)
    ensures Possible(y, s, actions + [a]) && After(y, s, actions + [a]) == Do(y, After(y, s, actions), a)
    decreases |actions|
  {
    if actions == [] {
      assert ([] + [a])[1..] == [];
    } else {
      Extend(y, Do(y, s, actions[0]), actions[1..], a);
      assert (actions + [a])[1..] == actions[1..] + [a];
    }
  }

  // ----- the executor's attempt, step by step

  /** What the worker does with the queue entry when an attempt ends at `now`. */
  function ActionAfter(end: AttemptEnd, now: int): RunAction {
    if end.Finished? then end.action else RunAction.Release(now)
  }

  /** An attempt that ends before its loop is one `Start`. */
  lemma ShortAttemptIsStart(y: System, s: State, t: Token, def: WorkflowDef, tasks: Tasks, w: World)
    requires Enabled(s, Start(t)) && w.startMs == s.now
    requires var run := s.runs[s.claims[t].run]; run.status != Running || Late(run, s.now)
    ensures var id := s.claims[t].run;
      var r := Attempt(def, s.runs[id], tasks, w);
      var next := Do(y, s, Start(t));
      && next.claims[t].job == Acting(ActionAfter(r.end, s.now))
      && next.runs == match r.write case Some(run) => s.runs[id := run] case None => s.runs
  {
  }

  /** An attempt that reaches `finalize` ends as `Finish` may. */
  lemma LongAttemptIsFinish(def: WorkflowDef, run: Run, tasks: Tasks, w: World)
    requires ValidDef(def) && Inv(def, tasks) && ReachesFinalize(def, run, tasks, w)
    ensures var r := Attempt(def, run, tasks, w); Decided(Finalized(r.write, r.end))
  {
    var r := Attempt(def, run, tasks, w);
    var mid := FinalizingAttempt(def, run, tasks, w);
    FinalizeDecides(def, run, r.tasks, StatesOf(def, r.tasks), w.endMs, w.draw);
  }

  /** An attempt gets to its loop exactly when `Start` puts the worker to work. */
  lemma AdmittedIsWorking(y: System, s: State, t: Token, w: World)
    requires Enabled(s, Start(t)) && w.startMs == s.now
    ensures var run := s.runs[s.claims[t].run];
      Admitted(run, w) <==> Do(y, s, Start(t)).claims[t].job == Working(run)
  {
  }

  /** The step that ends an attempt's work: a cancellation seen, a panic, or `finalize`. */
  function LastStep(t: Token, end: LoopEnd, r: AttemptResult): Action {
    match end
    case SawCancel => SeeCancel(t)
    case LoopPanicked => Panic(t)
    case Drained => Finish(t, Finalized(r.write, r.end))
  }

  ghost predicate EndsWith(end: LoopEnd, r: AttemptResult) {
    match end
    case SawCancel => r.write == None && r.end == Finished(Cancelled, [], RunAction.Ack)
    case LoopPanicked => r.write == None && r.end == Panicked
    case Drained => Decided(Finalized(r.write, r.end))
  }

  lemma EndsWithItsLoop(def: WorkflowDef, run: Run, tasks: Tasks, w: World)
    requires ValidDef(def) && Inv(def, tasks) && Admitted(run, w)
    ensures EndsWith(Loop(def, tasks, {}, w.handler, w.cancelled, 0).end, Attempt(def, run, tasks, w))
  {
    if Loop(def, tasks, {}, w.handler, w.cancelled, 0).end.Drained? {
      LongAttemptIsFinish(def, run, tasks, w);
    } else {
      CutShort(def, run, tasks, w);
    }
  }

  lemma CutShort(def: WorkflowDef, run: Run, tasks: Tasks, w: World)
    requires Admitted(run, w) && !Loop(def, tasks, {}, w.handler, w.cancelled, 0).end.Drained?
    ensures EndsWith(Loop(def, tasks, {}, w.handler, w.cancelled, 0).end, Attempt(def, run, tasks, w))
  {
  }

  lemma LastStepMatches(y: System, s: State, t: Token, end: LoopEnd, r: AttemptResult)
    requires t in s.claims && s.claims[t].job.Working? && s.claims[t].run in s.runs && EndsWith(end, r)
    requires end.SawCancel? <==> s.runs[s.claims[t].run].status == Cancelled
    ensures var a := LastStep(t, end, r);
      && Enabled(s, a) && Do(y, s, a).claims[t].job == Acting(ActionAfter(r.end, s.now))
      && Do(y, s, a).runs == match r.write case Some(next) => s.runs[s.claims[t].run := next] case None => s.runs
  {
  }

  /** An attempt that gets to its loop ends as one step: the same record, the same action next. */
  lemma LongAttemptIsStep(y: System, s: State, t: Token, def: WorkflowDef, tasks: Tasks, w: World)
    requires ValidDef(def) && Inv(def, tasks) && t in s.claims && s.claims[t].job.Working? && s.claims[t].run in s.runs
    requires Admitted(s.claims[t].job.snapshot, w)
    requires Loop(def, tasks, {}, w.handler, w.cancelled, 0).end.SawCancel? <==>
             s.runs[s.claims[t].run].status == Cancelled
    ensures var r := Attempt(def, s.claims[t].job.snapshot, tasks, w);
      var a := LastStep(t, Loop(def, tasks, {}, w.handler, w.cancelled, 0).end, r);
      && Enabled(s, a) && Do(y, s, a).claims[t].job == Acting(ActionAfter(r.end, s.now))
      && Do(y, s, a).runs == match r.write case Some(next) => s.runs[s.claims[t].run := next] case None => s.runs
  {
    var run := s.claims[t].job.snapshot;
    var end := Loop(def, tasks, {}, w.handler, w.cancelled, 0).end;
    EndsWithItsLoop(def, run, tasks, w);
    LastStepMatches(y, s, t, end, Attempt(def, run, tasks, w));
  }
}
