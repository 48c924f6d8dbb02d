/**
 When a retried run becomes ready: at the time its record says, unless the process
 crashes between writing the record and releasing the entry.
 */
module Schedule {
  import opened Domain
  import opened Names
  import opened Queue
  import opened Dispatch
  import opened Marking

  // ----- one release

  /** The entry is free, and ready at any time from `at` on. */
  ghost predicate ReadyFrom(q: Entries, id: string, at: int) {
    && id in q && q[id].token == "" && q[id].leaseUntil == None && q[id].dueAt == at
    && forall v :: id in ReadyIds(q, v) <==> at <= v
  }

  /** A submitted run is ready at once. */
  lemma SubmittedFor(y: System, s: State, id: string, deadline: Option<int>)
    requires QueueOk(s) && Enabled(s, Submit(id, deadline))
    ensures ReadyFrom(Do(y, s, Submit(id, deadline)).queue, id, s.now)
    ensures Do(y, s, Submit(id, deadline)).runs == s.runs[id := Run(Queued, 0, None, deadline, None, None, None)]
  {
  }

  /** The holder's release makes the entry ready at the time it is released for. */
  lemma ReleasedFor(y: System, s: State, t: Token)
    requires Enabled(s, Apply(t)) && s.claims[t].job.action.Release?
    requires s.claims[t].run in s.queue && s.queue[s.claims[t].run].token == t
    ensures ReadyFrom(Do(y, s, Apply(t)).queue, s.claims[t].run, s.claims[t].job.action.at)
  {
  }

  /** A claim given back leaves the entry due when it was. */
  lemma GivenBack(y: System, s: State, t: Token)
    requires Enabled(s, DropClaim(t)) && s.claims[t].run in s.queue && s.queue[s.claims[t].run].token == t
    ensures ReadyFrom(Do(y, s, DropClaim(t)).queue, s.claims[t].run, s.queue[s.claims[t].run].dueAt)
  {
  }

  /** A heartbeat under a running lease moves its end, and nothing else. */
  lemma HeartbeatRenews(y: System, s: State, t: Token, at: int, extend: int)
    requires Enabled(s, Heartbeat(t, at, extend))
    ensures var id, next := s.claims[t].run, Do(y, s, Heartbeat(t, at, extend));
      && next == s.(queue := next.queue)
      && next.queue ==
         if id in s.queue && s.queue[id].token == t && s.queue[id].IsLeased(at) then
           s.queue[id := s.queue[id].(leaseUntil := Some(at + extend))]
         else s.queue
  {
  }

  // ----- the invariant of one run

  /** The entry of a queued run is due when the record says; before any retry, it is due already. */
  predicate OnTime(s: State, id: string) {
    id in s.queue && id in s.runs && s.runs[id].status == Queued ==>
      match s.runs[id].nextAttemptAt
      case Some(at) => s.queue[id].dueAt == at
      case None => s.queue[id].dueAt <= s.now
  }

  /** Claim `t` has written a retry and is about to release the entry for the time on the record. */
  predicate Releasing(s: State, t: Token, id: string) {
    && t in s.claims && s.claims[t].run == id && s.claims[t].job.Acting? && s.claims[t].job.action.Release?
    && id in s.runs && s.runs[id].nextAttemptAt == Some(s.claims[t].job.action.at)
  }

  /** The claim that owns a queued run's entry has not marked it yet, or is about to release it. */
  predicate BeforeOrAfter(s: State, t: Token, id: string) {
    Holds(s, t, id) && id in s.runs && s.runs[id].status == Queued ==>
      s.claims[t].disp == HasClaimed || Releasing(s, t, id)
  }

  predicate Holds(s: State, t: Token, id: string) {
    t in s.claims && s.claims[t].run == id && s.claims[t].Active() && Owns(s.queue, t, id)
  }

  ghost predicate InTime(s: State, id: string) {
    id in s.queue ==> OnTime(s, id) || Releasing(s, s.queue[id].token, id)
  }

  ghost predicate Timed(s: State, id: string) {
    InTime(s, id) && forall t :: BeforeOrAfter(s, t, id)
  }

  /** The process crashes after a retry was written and before its entry was released. */
  predicate CutsOff(s: State, a: Action, id: string) {
    a.Crash? && !OnTime(s, id)
  }

  ghost predicate Unclaimed(s: State, id: string) {
    forall t :: t in s.claims && s.claims[t].run == id ==> !s.claims[t].Active()
  }

  lemma UnclaimedIsOnTime(s: State, id: string)
    requires Timed(s, id) && Unclaimed(s, id)
    ensures OnTime(s, id)
  {
  }

  // ----- steps that have nothing to do with the run

  ghost predicate Untouched(s: State, next: State, id: string) {
    && s.now <= next.now
    && (id in next.runs <==> id in s.runs) && (id in s.runs ==> next.runs[id] == s.runs[id])
    && (id in next.queue <==> id in s.queue) && (id in s.queue ==> next.queue[id] == s.queue[id])
    && forall t :: SameClaim(s, next, t, id)
  }

  predicate SameClaim(s: State, next: State, t: Token, id: string) {
    && (t in s.claims && s.claims[t].run == id ==> t in next.claims && next.claims[t] == s.claims[t])
    && (t in next.claims && next.claims[t].run == id ==> t in s.claims && s.claims[t] == next.claims[t])
  }

  lemma UntouchedStaysTimed(s: State, next: State, id: string)
    requires Timed(s, id) && Untouched(s, next, id)
    ensures Timed(next, id)
  {
    forall t ensures BeforeOrAfter(next, t, id) { assert BeforeOrAfter(s, t, id) && SameClaim(s, next, t, id); }
    if id in s.queue { assert SameClaim(s, next, s.queue[id].token, id); }
  }

  // ----- steps of a claim of the run

  /** What claim `t` leaves of the entry: its own, a free one, or the one that was there. */
  ghost predicate Leaves(s: State, next: State, t: Token, id: string) {
    id in next.queue ==>
      && id in s.queue
      && (next.queue[id].token == t || next.queue[id].token == "" || next.queue[id] == s.queue[id])
  }

  lemma MovedIsTimed(s: State, next: State, t: Token, id: string)
    requires DispatchInv(s) && Timed(s, id) && MovesOn(s, next, t) && s.claims[t].run == id
    requires Leaves(s, next, t, id) && BeforeOrAfter(next, t, id)
    requires InTime(next, id)
    ensures Timed(next, id)
  {
    forall u ensures BeforeOrAfter(next, u, id) {
      if u != t && Holds(next, u, id) { OthersKeepTime(s, next, t, u, id); }
    }
  }

  lemma OthersKeepTime(s: State, next: State, t: Token, u: Token, id: string)
    requires DispatchInv(s) && Timed(s, id) && MovesOn(s, next, t) && s.claims[t].run == id
    requires Leaves(s, next, t, id) && u != t && Holds(next, u, id)
    ensures Over(next.runs, id)
  {
    assert ClaimOk(s.runs, s.queue, t, s.claims[t]) && ClaimOk(s.runs, s.queue, u, s.claims[u]);
  }

  lemma MoverMovesOn(y: System, s: State, a: Action, t: Token)
    requires DispatchInv(s) && Enabled(s, a) && Mover(s, a) == Some(t)
    ensures t in s.claims && MovesOn(s, Do(y, s, a), t) && Leaves(s, Do(y, s, a), t, s.claims[t].run)
    ensures Do(y, s, a).now == s.now && Do(y, s, a).claims[t].run == s.claims[t].run
  {
    assert ClaimOk(s.runs, s.queue, t, s.claims[t]);
    if a.DropClaim? || a.Heartbeat? || a.Apply? {
      QueueMoves(y, s, a, t);
    } else {
      RecordMoves(y, s, a, t);
    }
  }

  lemma QueueMoves(y: System, s: State, a: Action, t: Token)
    requires Enabled(s, a) && Mover(s, a) == Some(t) && (a.DropClaim? || a.Heartbeat? || a.Apply?)
    ensures t in s.claims && MovesOn(s, Do(y, s, a), t) && Leaves(s, Do(y, s, a), t, s.claims[t].run)
    ensures Do(y, s, a).now == s.now && Do(y, s, a).claims[t].run == s.claims[t].run
  {
  }

  lemma RecordMoves(y: System, s: State, a: Action, t: Token)
    requires Enabled(s, a) && Mover(s, a) == Some(t) && !a.DropClaim? && !a.Heartbeat? && !a.Apply?
    requires t in s.claims && ClaimOk(s.runs, s.queue, t, s.claims[t])
    requires a.Receive? ==> s.claims[t].job == InChannel
    ensures MovesOn(s, Do(y, s, a), t) && Leaves(s, Do(y, s, a), t, s.claims[t].run)
    ensures Do(y, s, a).now == s.now && Do(y, s, a).claims[t].run == s.claims[t].run
  {
    var next := Do(y, s, a);
    assert next.claims == s.claims[t := next.claims[t]];
  }

  lemma MoverKeepsTimed(y: System, s: State, a: Action, t: Token, id: string)
    requires DispatchInv(s) && Enabled(s, a) && Timed(s, id) && Mover(s, a) == Some(t)
    ensures Timed(Do(y, s, a), id)
  {
    MoverMovesOn(y, s, a, t);
    var next := Do(y, s, a);
    if s.claims[t].run == id {
      assert ClaimOk(s.runs, s.queue, t, s.claims[t]) && BeforeOrAfter(s, t, id);
      OwnStep(y, s, a, t, id);
      MovedIsTimed(s, next, t, id);
    } else {
      ElsewhereUntouched(s, next, t, id);
      UntouchedStaysTimed(s, next, id);
    }
  }

  lemma ElsewhereUntouched(s: State, next: State, t: Token, id: string)
    requires MovesOn(s, next, t) && s.claims[t].run != id && next.claims[t].run != id && s.now <= next.now
    ensures Untouched(s, next, id)
  {
  }

  lemma OwnStep(y: System, s: State, a: Action, t: Token, id: string)
    requires Enabled(s, a) && Mover(s, a) == Some(t) && t in s.claims && s.claims[t].run == id
    requires ClaimOk(s.runs, s.queue, t, s.claims[t]) && BeforeOrAfter(s, t, id) && InTime(s, id)
    requires s.claims[t].Active()
    requires a.Receive? ==> s.claims[t].job == InChannel
    ensures BeforeOrAfter(Do(y, s, a), t, id) && InTime(Do(y, s, a), id)
  {
    if a.DropClaim? || a.Heartbeat? || a.Apply? {
      OwnQueueStep(y, s, a, t, id);
    } else {
      OwnRecordStep(y, s, a, t, id);
    }
  }

  lemma OwnQueueStep(y: System, s: State, a: Action, t: Token, id: string)
    requires Enabled(s, a) && Mover(s, a) == Some(t) && t in s.claims && s.claims[t].run == id
    requires ClaimOk(s.runs, s.queue, t, s.claims[t]) && BeforeOrAfter(s, t, id) && InTime(s, id)
    requires a.DropClaim? || a.Heartbeat? || a.Apply?
    ensures BeforeOrAfter(Do(y, s, a), t, id) && InTime(Do(y, s, a), id)
  {
  }

  lemma OwnRecordStep(y: System, s: State, a: Action, t: Token, id: string)
    requires Enabled(s, a) && Mover(s, a) == Some(t) && t in s.claims && s.claims[t].run == id
    requires ClaimOk(s.runs, s.queue, t, s.claims[t]) && BeforeOrAfter(s, t, id) && InTime(s, id)
    requires s.claims[t].Active() && !a.DropClaim? && !a.Heartbeat? && !a.Apply?
    requires a.Receive? ==> s.claims[t].job == InChannel
    ensures BeforeOrAfter(Do(y, s, a), t, id) && InTime(Do(y, s, a), id)
  {
  }

  lemma ClaimKeepsTimed(y: System, s: State, a: Action, id: string)
    requires DispatchInv(s) && NoLapse(s) && Enabled(s, a) && Timed(s, id) && a.TryClaim?
    ensures Timed(Do(y, s, a), id)
  {
    var next := Do(y, s, a);
    if next != s {
      GrantedWasFree(y.backend, s, a.id, a.t, a.at, a.lease);
      if a.id != id {
        forall u ensures SameClaim(s, next, u, id) {}
        UntouchedStaysTimed(s, next, id);
      } else {
        var holder := s.queue[id].token;
        if holder in s.claims { assert ClaimOk(s.runs, s.queue, holder, s.claims[holder]); }
        forall u ensures BeforeOrAfter(next, u, id) { assert BeforeOrAfter(s, u, id); }
      }
    }
  }

  lemma RunKeepsTimed(y: System, s: State, a: Action, id: string)
    requires DispatchInv(s) && Enabled(s, a) && Timed(s, id) && (a.Submit? || a.CancelRun?)
    ensures Timed(Do(y, s, a), id)
  {
    var next := Do(y, s, a);
    forall u ensures BeforeOrAfter(next, u, id) { assert BeforeOrAfter(s, u, id); }
  }

  lemma ClockKeepsTimed(y: System, s: State, a: Action, id: string)
    requires DispatchInv(s) && NoLapse(s) && Enabled(s, a) && Timed(s, id) && (a.Reap? || a.Tick?)
    ensures Timed(Do(y, s, a), id)
  {
    var next := Do(y, s, a);
    forall u ensures BeforeOrAfter(next, u, id) { assert BeforeOrAfter(s, u, id); }
  }

  lemma CrashKeepsTimed(y: System, s: State, id: string)
    requires Timed(s, id) && !CutsOff(s, Crash, id)
    ensures Timed(Do(y, s, Crash), id)
  {
  }

  /** Every step keeps it, unless it is a crash that cuts off a release. */
  lemma StepKeepsTimed(y: System, s: State, a: Action, id: string)
    requires DispatchInv(s) && NoLapse(s) && Enabled(s, a) && Timed(s, id) && !CutsOff(s, a, id)
    ensures Timed(Do(y, s, a), id)
  {
    match a
    case TryClaim(_, _, _, _) => ClaimKeepsTimed(y, s, a, id);
    case Submit(_, _) => RunKeepsTimed(y, s, a, id);
    case CancelRun(_) => RunKeepsTimed(y, s, a, id);
    case Reap(_) => ClockKeepsTimed(y, s, a, id);
    case Tick(_) => ClockKeepsTimed(y, s, a, id);
    case Crash => CrashKeepsTimed(y, s, id);
    case _ => MoverKeepsTimed(y, s, a, Mover(s, a).value, id);
  }

  // ----- whole runs of the system

  /** Nobody is acting on the queued run, and its entry is not due when the record says. */
  ghost predicate Mistimed(s: State, id: string) {
    Unclaimed(s, id) && !OnTime(s, id)
  }

  ghost predicate EverMistimed(y: System, s: State, actions: seq<Action>, id: string)
    requires Possible(y, s, actions)
    decreases |actions|
  {
    Mistimed(s, id) || (actions != [] && EverMistimed(y, Do(y, s, actions[0]), actions[1..], id))
  }

  ghost predicate EverCutOff(y: System, s: State, actions: seq<Action>, id: string)
    requires Possible(y, s, actions)
    decreases |actions|
  {
    actions != [] && (CutsOff(s, actions[0], id) || EverCutOff(y, Do(y, s, actions[0]), actions[1..], id))
  }

  lemma CutOffIsMistimed(y: System, s: State, id: string)
    requires CutsOff(s, Crash, id)
    ensures Mistimed(Do(y, s, Crash), id)
  {
  }

  lemma {:induction false} MistimedIffFrom(y: System, s: State, actions: seq<Action>, id: string)
    requires DispatchInv(s) && Timed(s, id) && Possible(y, s, actions) && Unlapsed(y, s, actions)
    ensures EverMistimed(y, s, actions, id) <==> EverCutOff(y, s, actions, id)
    decreases |actions|
  {
    if Unclaimed(s, id) { UnclaimedIsOnTime(s, id); }
    if actions != [] {
      var next := Do(y, s, actions[0]);
      if CutsOff(s, actions[0], id) {
        CutOffIsMistimed(y, s, id);
        assert EverMistimed(y, next, actions[1..], id);
      } else {
        StepKeepsInv(y, s, actions[0]);
        StepKeepsTimed(y, s, actions[0], id);
        MistimedIffFrom(y, next, actions[1..], id);
      }
    }
  }

  /**
   As long as no lease runs out under a claim, a queued run that nobody is acting on
   is ever due at another time than its record says exactly when some crash comes
   between writing its retry and releasing its entry.
   */
  lemma MistimedIff(y: System, actions: seq<Action>, id: string)
    requires Possible(y, START, actions) && Unlapsed(y, START, actions)
    ensures EverMistimed(y, START, actions, id) <==> EverCutOff(y, START, actions, id)
  {
    MistimedIffFrom(y, START, actions, id);
  }

  // ----- without crashes

  /** An entry under lease belongs to a claim somebody is acting on. */
  predicate HeldActively(s: State, id: string) {
    id in s.queue && s.queue[id].leaseUntil.Some? && !Over(s.runs, id) ==> Holds(s, s.queue[id].token, id)
  }

  lemma UntouchedStaysHeld(s: State, next: State, id: string)
    requires HeldActively(s, id) && Untouched(s, next, id)
    ensures HeldActively(next, id)
  {
    if id in s.queue { assert SameClaim(s, next, s.queue[id].token, id); }
  }

  lemma MoverKeepsHeld(y: System, s: State, a: Action, t: Token, id: string)
    requires DispatchInv(s) && Enabled(s, a) && HeldActively(s, id) && Mover(s, a) == Some(t)
    ensures HeldActively(Do(y, s, a), id)
  {
    MoverMovesOn(y, s, a, t);
    var next := Do(y, s, a);
    if s.claims[t].run == id {
      assert ClaimOk(s.runs, s.queue, t, s.claims[t]);
      OwnHold(y, s, a, t, id);
      MovedIsHeld(s, next, t, id);
    } else {
      ElsewhereUntouched(s, next, t, id);
      UntouchedStaysHeld(s, next, id);
    }
  }

  /** What the claim leaves: the entry as it was, a free one, or one it is still acting on. */
  predicate LeavesHeld(s: State, next: State, t: Token, id: string) {
    id in next.queue && next.queue[id].leaseUntil.Some? && !Over(next.runs, id) ==>
      Holds(next, t, id) || (id in s.queue && next.queue[id] == s.queue[id] && s.queue[id].token != t)
  }

  lemma MovedIsHeld(s: State, next: State, t: Token, id: string)
    requires HeldActively(s, id) && MovesOn(s, next, t) && s.claims[t].run == id && LeavesHeld(s, next, t, id)
    ensures HeldActively(next, id)
  {
  }

  lemma OwnHold(y: System, s: State, a: Action, t: Token, id: string)
    requires Enabled(s, a) && Mover(s, a) == Some(t) && t in s.claims && s.claims[t].run == id
    requires ClaimOk(s.runs, s.queue, t, s.claims[t]) && s.claims[t].Active()
    ensures LeavesHeld(s, Do(y, s, a), t, id)
  {
    if a.DropClaim? || a.Heartbeat? || a.Apply? {
      OwnQueueHold(y, s, a, t, id);
    } else {
      OwnRecordHold(y, s, a, t, id);
    }
  }

  lemma OwnQueueHold(y: System, s: State, a: Action, t: Token, id: string)
    requires Enabled(s, a) && Mover(s, a) == Some(t) && t in s.claims && s.claims[t].run == id
    requires ClaimOk(s.runs, s.queue, t, s.claims[t]) && (a.DropClaim? || a.Heartbeat? || a.Apply?)
    ensures LeavesHeld(s, Do(y, s, a), t, id)
  {
  }

  lemma OwnRecordHold(y: System, s: State, a: Action, t: Token, id: string)
    requires Enabled(s, a) && Mover(s, a) == Some(t) && t in s.claims && s.claims[t].run == id
    requires ClaimOk(s.runs, s.queue, t, s.claims[t]) && s.claims[t].Active()
    requires !a.DropClaim? && !a.Heartbeat? && !a.Apply?
    ensures LeavesHeld(s, Do(y, s, a), t, id)
  {
  }

  lemma ClaimKeepsHeld(y: System, s: State, a: Action, id: string)
    requires DispatchInv(s) && NoLapse(s) && Enabled(s, a) && HeldActively(s, id) && a.TryClaim?
    ensures HeldActively(Do(y, s, a), id)
  {
    var next := Do(y, s, a);
    if next != s {
      GrantedWasFree(y.backend, s, a.id, a.t, a.at, a.lease);
      if a.id != id {
        forall u ensures SameClaim(s, next, u, id) {}
        UntouchedStaysHeld(s, next, id);
      }
    }
  }

  lemma RunKeepsHeld(y: System, s: State, a: Action, id: string)
    requires DispatchInv(s) && Enabled(s, a) && HeldActively(s, id) && (a.Submit? || a.CancelRun?)
    ensures HeldActively(Do(y, s, a), id)
  {
  }

  lemma ClockKeepsHeld(y: System, s: State, a: Action, id: string)
    requires Enabled(s, a) && HeldActively(s, id) && (a.Reap? || a.Tick?)
    ensures HeldActively(Do(y, s, a), id)
  {
  }

  lemma StepKeepsHeld(y: System, s: State, a: Action, id: string)
    requires DispatchInv(s) && NoLapse(s) && Enabled(s, a) && HeldActively(s, id) && !a.Crash?
    ensures HeldActively(Do(y, s, a), id)
  {
    if Mover(s, a).Some? {
      MoverKeepsHeld(y, s, a, Mover(s, a).value, id);
    } else if a.TryClaim? {
      ClaimKeepsHeld(y, s, a, id);
    } else if a.Submit? || a.CancelRun? {
      RunKeepsHeld(y, s, a, id);
    } else {
      ClockKeepsHeld(y, s, a, id);
    }
  }

  lemma {:induction false} StaysTimed(y: System, s: State, actions: seq<Action>, id: string)
    requires DispatchInv(s) && Timed(s, id) && HeldActively(s, id)
    requires Possible(y, s, actions) && Unlapsed(y, s, actions) && NoCrash(actions)
    ensures var end := After(y, s, actions); DispatchInv(end) && Timed(end, id) && HeldActively(end, id)
    decreases |actions|
  {
    if actions != [] {
      StepKeepsInv(y, s, actions[0]);
      StepKeepsTimed(y, s, actions[0], id);
      StepKeepsHeld(y, s, actions[0], id);
      StaysTimed(y, Do(y, s, actions[0]), actions[1..], id);
    }
  }

  /**
   Over every run of the system without crashes in which no lease runs out under a
   claim: a run put back for a time, that nobody is acting on, is ready from exactly
   that time on.  No scan returns it earlier.
   */
  lemma RetryWaits(y: System, actions: seq<Action>, id: string, at: int)
    requires Possible(y, START, actions) && Unlapsed(y, START, actions) && NoCrash(actions)
    requires var s := After(y, START, actions);
      && id in s.runs && s.runs[id].status == Queued && s.runs[id].nextAttemptAt == Some(at)
      && Unclaimed(s, id)
    ensures var s := After(y, START, actions);
      && id in s.queue && s.queue[id].leaseUntil == None && s.queue[id].dueAt == at
      && (forall v :: id in ReadyIds(s.queue, v) <==> at <= v)
      && (forall v, limit, scan :: IsScan(s.queue, v, limit, scan) && id in scan ==> at <= v)
  {
    var s := After(y, START, actions);
    StaysTimed(y, START, actions, id);
    UnclaimedIsOnTime(s, id);
    forall v, limit, scan | IsScan(s.queue, v, limit, scan) && id in scan ensures at <= v {
      assert id in Elements(scan);
    }
  }
}
