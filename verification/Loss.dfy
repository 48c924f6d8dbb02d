/**
 When a run is lost: queued or running, with no queue entry that would ever bring a
 worker to it. The exact condition, and the protocol's way of excluding it.
 */
module Loss {
  import opened Domain
  import opened Dispatch

  /** The run is not over and has no queue entry. */
  predicate Lost(s: State, id: string) {
    id in s.runs && !Over(s.runs, id) && id !in s.queue
  }

  /**
   The two ways to lose a run: a worker's retry puts it back in a queue it is no
   longer in, or the worker on the entry acknowledges it although another worker's
   write has meanwhile made it live again.
   */
  predicate Loses(s: State, a: Action, id: string)
    requires Enabled(s, a)
  {
    match a
    case Finish(t, f) => s.claims[t].run == id && f.end.Finished? && f.end.action.Release? && id !in s.queue
    case Apply(t) =>
      && s.claims[t].run == id && s.claims[t].job.action.Ack?
      && id in s.queue && s.queue[id].token == t && !Over(s.runs, id)
    case _ => false
  }

  ghost predicate EntriesHaveRuns(s: State) {
    s.queue.Keys <= s.runs.Keys
  }

  /** A step loses a run exactly when it is one of the two; no lease need be intact for that. */
  lemma StepLosesIff(y: System, s: State, a: Action, id: string)
    requires Enabled(s, a) && EntriesHaveRuns(s) && !Lost(s, id)
    ensures Lost(Do(y, s, a), id) <==> Loses(s, a, id)
  {
  }

  lemma StepKeepsEntries(y: System, s: State, a: Action)
    requires Enabled(s, a) && EntriesHaveRuns(s)
    ensures EntriesHaveRuns(Do(y, s, a))
  {
  }

  /** At some point of the run of the system, `id` is lost. */
  ghost predicate EverLost(y: System, s: State, actions: seq<Action>, id: string)
    requires Possible(y, s, actions)
    decreases |actions|
  {
    Lost(s, id) || (actions != [] && EverLost(y, Do(y, s, actions[0]), actions[1..], id))
  }

  /** Some step of it is one of the two that lose `id`. */
  ghost predicate EverLoses(y: System, s: State, actions: seq<Action>, id: string)
    requires Possible(y, s, actions)
    decreases |actions|
  {
    actions != [] && (Loses(s, actions[0], id) || EverLoses(y, Do(y, s, actions[0]), actions[1..], id))
  }

  lemma {:induction false} LostIffFrom(y: System, s: State, actions: seq<Action>, id: string)
    requires EntriesHaveRuns(s) && !Lost(s, id) && Possible(y, s, actions)
    ensures EverLost(y, s, actions, id) <==> EverLoses(y, s, actions, id)
    decreases |actions|
  {
    if actions != [] {
      var next := Do(y, s, actions[0]);
      StepLosesIff(y, s, actions[0], id);
      StepKeepsEntries(y, s, actions[0]);
      if !Lost(next, id) { LostIffFrom(y, next, actions[1..], id); }
    }
  }

  /**
   The exact condition: whatever leases run out and whoever crashes, a run is at
   some point live without an entry exactly when a step is a retry written into a
   queue the run has left, or an acknowledgement of a run that is live again.
   */
  lemma LostIff(y: System, actions: seq<Action>, id: string)
    requires Possible(y, START, actions)
    ensures EverLost(y, START, actions, id) <==> EverLoses(y, START, actions, id)
  {
    LostIffFrom(y, START, actions, id);
  }

  /** A lost run stays out of the queue: nothing enqueues it again. */
  lemma {:induction false} LostForGood(y: System, s: State, actions: seq<Action>, id: string)
    requires Possible(y, s, actions) && id in s.runs && id !in s.queue
    ensures id in After(y, s, actions).runs && id !in After(y, s, actions).queue
    decreases |actions|
  {
    if actions != [] {
      StaysOut(y, s, actions[0], id);
      LostForGood(y, Do(y, s, actions[0]), actions[1..], id);
    }
  }

  lemma StaysOut(y: System, s: State, a: Action, id: string)
    requires Enabled(s, a) && id in s.runs && id !in s.queue
    ensures id in Do(y, s, a).runs && id !in Do(y, s, a).queue
  {
  }

  // ----- the protocol's way

  /** Under the protocol invariant neither losing step is possible. */
  lemma InvExcludesLoss(s: State, a: Action, id: string)
    requires DispatchInv(s) && Enabled(s, a)
    ensures !Loses(s, a, id)
  {
    if a.Finish? || a.Apply? {
      assert ClaimOk(s.runs, s.queue, a.t, s.claims[a.t]);
    }
  }

  /** So it takes a lease that runs out under an active claim to lose a run. */
  lemma {:induction false} UnlapsedNeverLoses(y: System, s: State, actions: seq<Action>, id: string)
    requires DispatchInv(s) && Possible(y, s, actions) && Unlapsed(y, s, actions)
    ensures !EverLoses(y, s, actions, id)
    decreases |actions|
  {
    if actions != [] {
      InvExcludesLoss(s, actions[0], id);
      StepKeepsInv(y, s, actions[0]);
      UnlapsedNeverLoses(y, Do(y, s, actions[0]), actions[1..], id);
    }
  }

  /**
   No run is lost: through full channels, handler errors, panics, retries,
   cancellations, reaping and crashes of the whole process, every submitted run
   that is queued or running has exactly one queue entry in every reachable state.
   */
  lemma NoRunIsLost(y: System, actions: seq<Action>, id: string)
    requires Possible(y, START, actions) && Unlapsed(y, START, actions)
    ensures !EverLost(y, START, actions, id)
    ensures var s := After(y, START, actions);
      id in s.runs && (s.runs[id].status == Queued || s.runs[id].status == Running) ==>
        forall k :: k in s.queue && s.queue[k].runId == id <==> k == id
  {
    UnlapsedNeverLoses(y, START, actions, id);
    LostIff(y, actions, id);
    RunKeepsInv(y, START, actions);
  }
}
