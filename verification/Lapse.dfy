/**
 What goes wrong when a lease runs out under a live worker, or the process crashes
 at the wrong moment: complete runs of the system that lose a run, strand one, or
 retry one early.
 */
module Lapse {
  import opened Domain
  import opened Queue
  import opened Executor
  import opened Dispatch
  import opened Loss
  import opened Marking
  import opened Schedule
  import Lifecycle

  const RUNNING := Run(Running, 0, None, None, Some(0), None, None)

  /** Worker `a` is at work under a lease until 10. */
  function Working1(r: string, a: Token): State {
    State(map[r := RUNNING], map[r := Entry(r, a, 0, Some(10), Some("dispatcher"))], 0,
          map[a := Hold(r, Left, Working(RUNNING))], [])
  }

  /** At time 20 the lease has been reaped and worker `b` is at work as well. */
  function Working2(r: string, a: Token, b: Token): State {
    State(map[r := RUNNING], map[r := Entry(r, b, 0, Some(30), Some("dispatcher"))], 20,
          map[a := Hold(r, Left, Working(RUNNING)), b := Hold(r, Left, Working(RUNNING))], [])
  }

  /** What a dispatcher and a worker do to take up a run. */
  function TakeUp(r: string, t: Token, at: int): seq<Action> {
    [TryClaim(r, t, at, 10), Mark(t), TrySend(t), Receive, Start(t)]
  }

  ghost predicate Leads(y: System, s: State, actions: seq<Action>, end: State) {
    Possible(y, s, actions) && After(y, s, actions) == end
  }

  lemma {:induction false} Concat(y: System, s: State, first: seq<Action>, mid: State, second: seq<Action>, end: State)
    requires Leads(y, s, first, mid) && Leads(y, mid, second, end)
    ensures Leads(y, s, first + second, end)
    decreases |first|
  {
    if first == [] {
      assert first + second == second;
    } else {
      Concat(y, Do(y, s, first[0]), first[1..], mid, second, end);
      assert (first + second)[1..] == first[1..] + second;
    }
  }

  lemma One(y: System, s: State, a: Action)
    requires Enabled(s, a)
    ensures Leads(y, s, [a], Do(y, s, a))
  {
    assert [a][1..] == [];
  }

  lemma TwoSteps(y: System, s: State, a: Action, mid: State, b: Action, end: State)
    requires Enabled(s, a) && Do(y, s, a) == mid && Enabled(mid, b) && Do(y, mid, b) == end
    ensures Leads(y, s, [a, b], end)
  {
    One(y, s, a);
    One(y, mid, b);
    Concat(y, s, [a], mid, [b], end);
    assert [a] + [b] == [a, b];
  }

  function Busy(s: State, r: string, t: Token, marked: Run): State
    requires r in s.queue
  {
    s.(runs := s.runs[r := marked], queue := s.queue[r := s.queue[r].Held(t, s.now + 10)],
       claims := s.claims[t := Hold(r, Left, Working(marked))])
  }

  /** The entry is claimed and the run marked, the job not yet submitted. */
  function Taken(s: State, r: string, t: Token, marked: Run): State
    requires r in s.queue
  {
    Busy(s, r, t, marked).(claims := s.claims[t := Hold(r, HasMarked(true), Unsent)])
  }

  ghost predicate Free(s: State, r: string, t: Token, marked: Run) {
    && t != "" && t !in s.claims && s.channel == []
    && r in s.queue && s.queue[r].token == "" && s.queue[r].leaseUntil == None
    && r in s.runs && Lifecycle.MarkRunning(s.runs[r], s.now) == Some(marked)
    && marked.status == Running && marked.deadlineAt == None
  }

  lemma Claiming(y: System, s: State, r: string, t: Token, marked: Run)
    requires Free(s, r, t, marked)
    ensures Leads(y, s, [TryClaim(r, t, s.now, 10), Mark(t)], Taken(s, r, t, marked))
  {
    var claim := TryClaim(r, t, s.now, 10);
    var s1 := Do(y, s, claim);
    var s2 := Do(y, s1, Mark(t));
    assert s2.claims == Taken(s, r, t, marked).claims;
    TwoSteps(y, s, claim, s1, Mark(t), s2);
  }

  lemma Sending(y: System, s: State, r: string, t: Token, marked: Run)
    requires Free(s, r, t, marked) && y.capacity > 0
    ensures Leads(y, Taken(s, r, t, marked), [TrySend(t), Receive] + [Start(t)], Busy(s, r, t, marked))
  {
    var s2 := Taken(s, r, t, marked);
    var s3 := Do(y, s2, TrySend(t));
    assert s3.channel == [t];
    var s4 := Do(y, s3, Receive);
    assert s4.channel == [];
    var s5 := Do(y, s4, Start(t));
    assert s5.claims == Busy(s, r, t, marked).claims;
    TwoSteps(y, s2, TrySend(t), s3, Receive, s4);
    One(y, s4, Start(t));
    Concat(y, s2, [TrySend(t), Receive], s4, [Start(t)], s5);
  }

  /** From a free entry of a run that can be marked, `TakeUp` leads to a worker at work. */
  lemma TakingUp(y: System, s: State, r: string, t: Token, marked: Run)
    requires Free(s, r, t, marked) && y.capacity > 0
    ensures Leads(y, s, TakeUp(r, t, s.now), Busy(s, r, t, marked))
  {
    var begin := [TryClaim(r, t, s.now, 10), Mark(t)];
    Claiming(y, s, r, t, marked);
    Sending(y, s, r, t, marked);
    Concat(y, s, begin, Taken(s, r, t, marked), [TrySend(t), Receive] + [Start(t)], Busy(s, r, t, marked));
    assert TakeUp(r, t, s.now) == begin + ([TrySend(t), Receive] + [Start(t)]);
  }

  lemma FirstWorker(y: System, r: string, a: Token)
    requires y.capacity > 0 && a != ""
    ensures Leads(y, START, [Submit(r, None)] + TakeUp(r, a, 0), Working1(r, a))
  {
    var s := Do(y, START, Submit(r, None));
    assert s == State(map[r := Lifecycle.Submitted(None).run], map[r := Submission(r, 0)], 0, map[], []);
    One(y, START, Submit(r, None));
    TakingUp(y, s, r, a, RUNNING);
    assert Busy(s, r, a, RUNNING) == Working1(r, a);
    Concat(y, START, [Submit(r, None)], s, TakeUp(r, a, 0), Working1(r, a));
  }

  lemma SecondWorker(y: System, r: string, a: Token, b: Token)
    requires y.capacity > 0 && a != "" && b != "" && a != b
    ensures Leads(y, Working1(r, a), [Tick(20), Reap(20)] + TakeUp(r, b, 20), Working2(r, a, b))
  {
    var s := Working1(r, a);
    var reaped := Reaped(r, a);
    Reaping(y, r, a);
    TakingUp(y, reaped, r, b, RUNNING);
    assert Busy(reaped, r, b, RUNNING) == Working2(r, a, b);
    Concat(y, s, [Tick(20), Reap(20)], reaped, TakeUp(r, b, 20), Working2(r, a, b));
  }

  function Reaped(r: string, a: Token): State {
    Working1(r, a).(now := 20, queue := map[r := Submission(r, 0)])
  }

  lemma Reaping(y: System, r: string, a: Token)
    ensures Leads(y, Working1(r, a), [Tick(20), Reap(20)], Reaped(r, a))
  {
    var s := Working1(r, a);
    assert Recovered(s.queue, 20) == Reaped(r, a).queue;
    TwoSteps(y, s, Tick(20), s.(now := 20), Reap(20), Reaped(r, a));
  }

  // ----- two ways to lose a run

  /** Outcomes of `finalize` that some definition and task states bring about: a success, and a retry. */
  ghost predicate Outcomes(done: Finalized, retry: Finalized) {
    && Decided(done) && done.end.Finished? && done.end.action.Ack?
    && done.write.value.status == RunStatus.Succeeded
    && Decided(retry) && retry.end.Finished? && retry.end.action.Release?
  }

  lemma TwoOutcomes(f: string, g: string, now: int) returns (done: Finalized, retry: Finalized)
    requires f != g
    ensures Outcomes(done, retry) && (now == 0 ==> retry.end.action.at == 1000)
    ensures exists def, tasks, states, draw: nat :: done == Finalize(def, RUNNING, tasks, states, now, draw)
    ensures exists def, tasks, states, draw: nat :: retry == Finalize(def, RUNNING, tasks, states, now, draw)
  {
    var def := Lifecycle.Example(f, g);
    Lifecycle.ExampleShape(f, g);
    var failed: Tasks := map[f := TaskRec(TFailed, 1)];
    done := Finalize(def, RUNNING, map[], map[f := TSucceeded], now, 0);
    retry := Finalize(def, RUNNING, failed, map[f := TFailed], now, 0);
    FinalizeDecides(def, RUNNING, map[], map[f := TSucceeded], now, 0);
    FinalizeDecides(def, RUNNING, failed, map[f := TFailed], now, 0);
    Lifecycle.ExampleRequeues(def, failed, f, RUNNING, map[f := TFailed], now);
    Lifecycle.ReleaseTime(def, RUNNING, failed, map[f := TFailed], now, 0, 1.0);
    Lifecycle.ExampleSucceeds(def, map[], RUNNING, map[f := TSucceeded], now);
  }

  lemma ThreeSteps(y: System, s: State, a: Action, s1: State, b: Action, s2: State, c: Action, s3: State)
    requires Enabled(s, a) && Do(y, s, a) == s1 && Enabled(s1, b) && Do(y, s1, b) == s2
    requires Enabled(s2, c) && Do(y, s2, c) == s3
    ensures Leads(y, s, [a, b, c], s3)
  {
    TwoSteps(y, s, a, s1, b, s2);
    One(y, s2, c);
    Concat(y, s, [a, b], s2, [c], s3);
    assert [a, b] + [c] == [a, b, c];
  }

  /** `b` finishes and acknowledges; then `a` puts the run back in a queue it is no longer in. */
  lemma LateRetry(y: System, r: string, a: Token, b: Token, done: Finalized, retry: Finalized)
    requires a != b && Outcomes(done, retry)
    ensures var actions := [Finish(b, done), Apply(b), Finish(a, retry)];
      Possible(y, Working2(r, a, b), actions) && Lost(After(y, Working2(r, a, b), actions), r)
  {
    var s := Working2(r, a, b);
    var s1 := Do(y, s, Finish(b, done));
    var s2 := Do(y, s1, Apply(b));
    assert r !in s2.queue;
    ThreeSteps(y, s, Finish(b, done), s1, Apply(b), s2, Finish(a, retry), Do(y, s2, Finish(a, retry)));
  }

  /** `b` finishes, `a`'s retry makes the run live again, and `b` acknowledges it. */
  lemma LateAck(y: System, r: string, a: Token, b: Token, done: Finalized, retry: Finalized)
    requires a != b && Outcomes(done, retry)
    ensures var actions := [Finish(b, done), Finish(a, retry), Apply(b)];
      Possible(y, Working2(r, a, b), actions) && Lost(After(y, Working2(r, a, b), actions), r)
  {
    var s := Working2(r, a, b);
    var s1 := Do(y, s, Finish(b, done));
    var s2 := Do(y, s1, Finish(a, retry));
    var s3 := Do(y, s2, Apply(b));
    assert r !in s3.queue;
    ThreeSteps(y, s, Finish(b, done), s1, Finish(a, retry), s2, Apply(b), s3);
  }

  lemma ThenLost(y: System, r: string, a: Token, b: Token, last: seq<Action>) returns (actions: seq<Action>)
    requires y.capacity > 0 && a != "" && b != "" && a != b
    requires Possible(y, Working2(r, a, b), last) && Lost(After(y, Working2(r, a, b), last), r)
    ensures Possible(y, START, actions) && Lost(After(y, START, actions), r)
    ensures |actions| > |last| && actions[|actions| - |last|..] == last
  {
    FirstWorker(y, r, a);
    SecondWorker(y, r, a, b);
    var begin := [Submit(r, None)] + TakeUp(r, a, 0);
    var middle := [Tick(20), Reap(20)] + TakeUp(r, b, 20);
    Concat(y, START, begin, Working1(r, a), middle, Working2(r, a, b));
    Concat(y, START, begin + middle, Working2(r, a, b), last, After(y, Working2(r, a, b), last));
    actions := begin + middle + last;
  }

  /**
   The condition on leases is needed, for both losing steps: when a lease runs out
   under a live worker and is reaped, a second worker takes the run up. It can
   finish and acknowledge the run before the first one's retry writes it back as
   queued, or finish it, and acknowledge it only after that retry. Either way the
   run is queued with no entry.
   */
  lemma LapsedLeaseLosesRun(y: System, r: string, a: Token, b: Token, f: string, g: string)
    returns (lateRetry: seq<Action>, lateAck: seq<Action>)
    requires y.capacity > 0 && a != "" && b != "" && a != b && f != g
    ensures Possible(y, START, lateRetry) && Lost(After(y, START, lateRetry), r)
    ensures Possible(y, START, lateAck) && Lost(After(y, START, lateAck), r)
    ensures lateRetry != [] && lateRetry[|lateRetry| - 1].Finish?
    ensures lateAck != [] && lateAck[|lateAck| - 1].Apply?
  {
    var done, retry := TwoOutcomes(f, g, 20);
    LateRetry(y, r, a, b, done, retry);
    LateAck(y, r, a, b, done, retry);
    lateRetry := ThenLost(y, r, a, b, [Finish(b, done), Apply(b), Finish(a, retry)]);
    lateAck := ThenLost(y, r, a, b, [Finish(b, done), Finish(a, retry), Apply(b)]);
  }

  // ----- how a crash strands an entry

  /** Every lease in the queue is still running. */
  ghost predicate AllRunning(s: State) {
    forall id :: id in s.queue && s.queue[id].leaseUntil.Some? ==> s.queue[id].leaseUntil.value > s.now
  }

  predicate Calm(a: Action, now: int) {
    !a.Tick? && (a.TryClaim? ==> a.at + a.lease > now) && !a.Heartbeat?
  }

  lemma CalmStep(y: System, s: State, a: Action)
    requires Enabled(s, a) && AllRunning(s) && Calm(a, s.now)
    ensures AllRunning(Do(y, s, a)) && Do(y, s, a).now == s.now && NoLapse(s)
  {
  }

  lemma {:induction false} CalmIsUnlapsed(y: System, s: State, actions: seq<Action>)
    requires Possible(y, s, actions) && AllRunning(s) && forall k :: 0 <= k < |actions| ==> Calm(actions[k], s.now)
    ensures Unlapsed(y, s, actions)
    decreases |actions|
  {
    if actions != [] {
      CalmStep(y, s, actions[0]);
      CalmIsUnlapsed(y, Do(y, s, actions[0]), actions[1..]);
    }
  }

  /** The worker finished, the process crashed before it could acknowledge or release. */
  function Crashed(r: string, a: Token, done: Run): State {
    Working1(r, a).(runs := map[r := done], claims := map[a := Hold(r, Left, Ended)])
  }

  lemma Crashing(y: System, r: string, a: Token, done: Finalized)
    requires Decided(done) && done.end.Finished?
    ensures Leads(y, Working1(r, a), [Finish(a, done), Crash], Crashed(r, a, done.write.value))
  {
    var s := Working1(r, a);
    var s1 := Do(y, s, Finish(a, done));
    assert Do(y, s1, Crash) == Crashed(r, a, done.write.value);
    TwoSteps(y, s, Finish(a, done), s1, Crash, Crashed(r, a, done.write.value));
  }

  lemma CrashedIsStranded(r: string, a: Token, done: Run)
    requires done.status.IsTerminal() && done.status != Cancelled
    ensures Stranded(Crashed(r, a, done), r)
  {
  }

  /** The lease is reaped, the entry claimed again, and marking its run fails. */
  function Again(r: string, b: Token): seq<Action> {
    [Tick(20), Reap(20)] + [TryClaim(r, b, 20, 10), Mark(b)]
  }

  lemma ClaimedAgain(y: System, r: string, a: Token, b: Token, done: Run)
    requires done.status.IsTerminal() && b != "" && a != b
    ensures Possible(y, Crashed(r, a, done), Again(r, b))
    ensures var end := After(y, Crashed(r, a, done), Again(r, b));
      b in end.claims && end.claims[b] == Hold(r, HasMarked(false), Unsent)
  {
    var s, free := Crashed(r, a, done), FreeAgain(r, a, done);
    ReapedAgain(y, r, a, done);
    var claimed := Do(y, free, TryClaim(r, b, 20, 10));
    var marked := Do(y, claimed, Mark(b));
    TwoSteps(y, free, TryClaim(r, b, 20, 10), claimed, Mark(b), marked);
    Concat(y, s, [Tick(20), Reap(20)], free, [TryClaim(r, b, 20, 10), Mark(b)], marked);
  }

  function FreeAgain(r: string, a: Token, done: Run): State {
    Crashed(r, a, done).(now := 20, queue := map[r := Submission(r, 0)])
  }

  lemma ReapedAgain(y: System, r: string, a: Token, done: Run)
    ensures Leads(y, Crashed(r, a, done), [Tick(20), Reap(20)], FreeAgain(r, a, done))
  {
    var s := Crashed(r, a, done);
    assert Recovered(s.queue, 20) == FreeAgain(r, a, done).queue;
    TwoSteps(y, s, Tick(20), s.(now := 20), Reap(20), FreeAgain(r, a, done));
  }

  /**
   Without any lease running out under a claim, a crash between `finalize` and the
   acknowledgement strands the entry; once its lease is reaped it is claimed again,
   and marking its run fails.
   */
  lemma CrashStrandsEntry(y: System, r: string, a: Token, b: Token, f: string, g: string)
    returns (actions: seq<Action>)
    requires y.capacity > 0 && a != "" && b != "" && a != b && f != g
    ensures Possible(y, START, actions) && Unlapsed(y, START, actions) && Stranded(After(y, START, actions), r)
    ensures Possible(y, START, actions + Again(r, b))
    ensures var end := After(y, START, actions + Again(r, b));
      b in end.claims && end.claims[b] == Hold(r, HasMarked(false), Unsent)
  {
    var done, retry := TwoOutcomes(f, g, 0);
    var run := done.write.value;
    actions := [Submit(r, None)] + TakeUp(r, a, 0) + [Finish(a, done), Crash];
    UpToTheCrash(y, r, a, done);
    CrashedIsStranded(r, a, run);
    ClaimedAgain(y, r, a, b, run);
    Concat(y, START, actions, Crashed(r, a, run), Again(r, b), After(y, Crashed(r, a, run), Again(r, b)));
  }

  lemma UpToTheCrash(y: System, r: string, a: Token, done: Finalized)
    requires y.capacity > 0 && a != "" && Decided(done) && done.end.Finished?
    ensures var actions := [Submit(r, None)] + TakeUp(r, a, 0) + [Finish(a, done), Crash];
      Leads(y, START, actions, Crashed(r, a, done.write.value)) && Unlapsed(y, START, actions)
  {
    var begin := [Submit(r, None)] + TakeUp(r, a, 0);
    FirstWorker(y, r, a);
    Crashing(y, r, a, done);
    Concat(y, START, begin, Working1(r, a), [Finish(a, done), Crash], Crashed(r, a, done.write.value));
    CalmIsUnlapsed(y, START, begin + [Finish(a, done), Crash]);
  }

  // ----- how a crash loses a delay

  lemma {:induction false} UnlapsedConcat(y: System, s: State, first: seq<Action>, mid: State, second: seq<Action>)
    requires Leads(y, s, first, mid) && Possible(y, mid, second) && Possible(y, s, first + second)
    requires Unlapsed(y, s, first) && Unlapsed(y, mid, second)
    ensures Unlapsed(y, s, first + second)
    decreases |first|
  {
    if first == [] {
      assert first + second == second;
    } else {
      assert (first + second)[1..] == first[1..] + second;
      UnlapsedConcat(y, Do(y, s, first[0]), first[1..], mid, second);
    }
  }

  lemma NobodyLapses(y: System, r: string, a: Token, done: Run)
    ensures Possible(y, Crashed(r, a, done), [Tick(20), Reap(20)])
    ensures Unlapsed(y, Crashed(r, a, done), [Tick(20), Reap(20)])
  {
    ReapedAgain(y, r, a, done);
    var s := Crashed(r, a, done);
    var s1 := Do(y, s, Tick(20));
    assert [Tick(20), Reap(20)][1..] == [Reap(20)] && [Reap(20)][1..] == [];
    assert Unlapsed(y, Do(y, s1, Reap(20)), []);
    assert Unlapsed(y, s1, [Reap(20)]);
  }

  /**
   Without any lease running out under a claim, a crash between writing a retry for
   time 1000 and releasing the entry loses the delay: at time 20 the run is ready.
   */
  lemma CrashLosesDelay(y: System, r: string, a: Token, f: string, g: string) returns (actions: seq<Action>)
    requires y.capacity > 0 && a != "" && f != g
    ensures Possible(y, START, actions) && Unlapsed(y, START, actions)
    ensures var s := After(y, START, actions);
      && r in s.runs && s.runs[r].status == Queued && s.runs[r].nextAttemptAt == Some(1000)
      && Mistimed(s, r) && s.now == 20 && r in ReadyIds(s.queue, s.now)
  {
    var done, retry := TwoOutcomes(f, g, 0);
    var run := retry.write.value;
    var begin := [Submit(r, None)] + TakeUp(r, a, 0) + [Finish(a, retry), Crash];
    UpToTheCrash(y, r, a, retry);
    ReapedAgain(y, r, a, run);
    NobodyLapses(y, r, a, run);
    Concat(y, START, begin, Crashed(r, a, run), [Tick(20), Reap(20)], FreeAgain(r, a, run));
    actions := begin + [Tick(20), Reap(20)];
    UnlapsedConcat(y, START, begin, Crashed(r, a, run), [Tick(20), Reap(20)]);
  }
}
