/**
 The retention sweep, and why it never takes a run in flight: whatever whole-record
 writes overwrite each other, a stored record is stamped finished exactly when its
 status is terminal.
 */
module Retention {
  import opened Domain
  import opened Names
  import opened Pick
  import opened Queue
  import opened Executor
  import Lifecycle

  /** A record is stamped finished exactly when it is over. */
  predicate Settled(run: Run) {
    run.finishedAt.Some? <==> run.status.IsTerminal()
  }

  /**
   `stored` are the current records, `ever` all the records ever stored, by run:
   a writer may hold any of them as its snapshot, however old. `listing` is what
   the sweep last read.
   */
  datatype State = State(stored: map<string, Run>, ever: map<string, set<Run>>, listing: map<string, Run>)

  const START := State(map[], map[], map[])

  datatype Action =
    | Submit(id: string, deadline: Option<int>)
    | Mark(id: string, snapshot: Run, now: int)
    | Attempted(id: string, snapshot: Run, def: WorkflowDef, tasks: Tasks, world: World)
    | Cancel(id: string, now: int)
    | List
    | Delete(id: string, before: int)

  function Ever(s: State, id: string): set<Run> {
    if id in s.ever then s.ever[id] else {}
  }

  predicate Enabled(s: State, a: Action) {
    match a
    case Submit(id, _) => id !in s.ever
    case Mark(id, snapshot, _) => snapshot in Ever(s, id)
    case Attempted(id, snapshot, _, _, _) => snapshot in Ever(s, id)
    case Cancel(id, _) => id in s.stored
    case List => true
    case Delete(id, before) => StaleIn(s.listing, id, before)
  }

  function Put(s: State, id: string, run: Run): State {
    s.(stored := s.stored[id := run], ever := s.ever[id := Ever(s, id) + {run}])
  }

  function PutIf(s: State, id: string, write: Option<Run>): State {
    match write
    case Some(run) => Put(s, id, run)
    case None => s
  }

  function Do(s: State, a: Action): State {
    match a
    case Submit(id, deadline) => Put(s, id, Lifecycle.Submitted(deadline).run)
    case Mark(id, snapshot, now) => PutIf(s, id, Lifecycle.MarkRunning(snapshot, now))
    case Attempted(id, snapshot, def, tasks, w) => PutIf(s, id, Attempt(def, snapshot, tasks, w).write)
    case Cancel(id, now) =>
      if id in s.stored && !s.stored[id].status.IsTerminal() then Put(s, id, CancelledRun(s.stored[id], now)) else s
    case List => s.(listing := s.stored)
    case Delete(id, _) => s.(stored := s.stored - {id})
  }

  ghost predicate RecordsInv(s: State) {
    && (forall id :: id in s.stored ==> s.stored[id] in Ever(s, id))
    && (forall id, r :: r in Ever(s, id) ==> Settled(r))
    && (forall id :: id in s.listing ==> s.listing[id] in Ever(s, id))
  }

  /** An attempt stamps the record exactly when it ends the run. */
  lemma AttemptWritesSettled(def: WorkflowDef, run: Run, tasks: Tasks, w: World)
    requires Settled(run) && Attempt(def, run, tasks, w).write.Some?
    ensures Settled(Attempt(def, run, tasks, w).write.value)
  {
    var l := Loop(def, tasks, {}, w.handler, w.cancelled, 0);
    if run.status == Running && l.end.Drained? {
      var states := StatesOf(def, l.tasks);
      var blocked := Blocked(def.tasks, states);
      var skipped := SkipAll(l.tasks, SortedSeq(blocked)).tasks;
      FinalizeWritesSettled(def, run, skipped, MarkSkipped(states, blocked), w.endMs, w.draw);
    }
  }

  lemma FinalizeWritesSettled(def: WorkflowDef, run: Run, tasks: Tasks, states: States, now: int, draw: nat)
    requires Settled(run) && run.status == Running
    ensures var w := Finalize(def, run, tasks, states, now, draw).write; w.Some? ==> Settled(w.value)
  {
  }

  lemma PutKeepsInv(s: State, id: string, run: Run)
    requires RecordsInv(s) && Settled(run)
    ensures RecordsInv(Put(s, id, run))
  {
    var next := Put(s, id, run);
    assert forall x :: Ever(next, x) == if x == id then Ever(s, id) + {run} else Ever(s, x);
  }

  lemma StepKeepsRecords(s: State, a: Action)
    requires RecordsInv(s) && Enabled(s, a)
    ensures RecordsInv(Do(s, a))
  {
    match a
    case Submit(id, deadline) => PutKeepsInv(s, id, Lifecycle.Submitted(deadline).run);
    case Mark(id, snapshot, now) =>
      assert Settled(snapshot);
      if Lifecycle.MarkRunning(snapshot, now).Some? { PutKeepsInv(s, id, Lifecycle.MarkRunning(snapshot, now).value); }
    case Attempted(id, snapshot, def, tasks, w) =>
      if Attempt(def, snapshot, tasks, w).write.Some? {
        AttemptWritesSettled(def, snapshot, tasks, w);
        PutKeepsInv(s, id, Attempt(def, snapshot, tasks, w).write.value);
      }
    case Cancel(id, now) => PutKeepsInv(s, id, CancelledRun(s.stored[id], now));
    case List => assert forall id :: Ever(Do(s, a), id) == Ever(s, id);
    case Delete(_, _) => assert forall id :: Ever(Do(s, a), id) == Ever(s, id);
  }

  ghost predicate Possible(s: State, actions: seq<Action>)
    decreases |actions|
  {
    actions == [] || (Enabled(s, actions[0]) && Possible(Do(s, actions[0]), actions[1..]))
  }

  function DoAll(s: State, actions: seq<Action>): State
    decreases |actions|
  {
    if actions == [] then s else DoAll(Do(s, actions[0]), actions[1..])
  }

  lemma {:induction false} RunKeepsRecords(s: State, actions: seq<Action>)
    requires RecordsInv(s) && Possible(s, actions)
    ensures RecordsInv(DoAll(s, actions))
    decreases |actions|
  {
    if actions != [] {
      StepKeepsRecords(s, actions[0]);
      RunKeepsRecords(Do(s, actions[0]), actions[1..]);
    }
  }

  /**
   Retention safety: under any interleaving of writers working from snapshots of
   any age, every record ever stored is stamped finished exactly when its status
   is terminal, and a run the sweep deletes was over when the sweep listed it.
   */
  lemma SweepSparesRunsInFlight(actions: seq<Action>, id: string)
    requires Possible(START, actions)
    ensures var s := DoAll(START, actions);
      && (forall r :: r in Ever(s, id) ==> Settled(r))
      && (forall before :: Enabled(s, Delete(id, before)) ==> s.listing[id].status.IsTerminal())
  {
    RunKeepsRecords(START, actions);
  }

  /** A finished run, once listed, can be swept. */
  lemma SweepTakesFinished(s: State, id: string, before: int)
    requires id in s.stored && s.stored[id].finishedAt.Some? && s.stored[id].finishedAt.value <= before
    ensures var listed := Do(s, List);
      Enabled(listed, Delete(id, before)) && Do(listed, Delete(id, before)).stored == s.stored - {id}
  {
  }

  /** Marking writes its snapshot back as running, and cancelling the stored record, if it is live. */
  lemma MarkAndCancelLand(s: State, id: string, snapshot: Run, now: int)
    ensures Do(s, Mark(id, snapshot, now)).stored ==
      match snapshot.status
      case Queued => s.stored[id := snapshot.(status := Running, startedAt := Some(now))]
      case Running => s.stored[id := snapshot]
      case _ => s.stored
    ensures Do(s, Cancel(id, now)).stored ==
      if id in s.stored && !s.stored[id].status.IsTerminal() then
        s.stored[id := s.stored[id].(status := Cancelled, finishedAt := Some(now), error := None)]
      else s.stored
  {
  }

  /** Every write of an attempt lands. */
  lemma AttemptLands(s: State, id: string, snapshot: Run, def: WorkflowDef, tasks: Tasks, w: World)
    requires Enabled(s, Attempted(id, snapshot, def, tasks, w))
    ensures var next := Do(s, Attempted(id, snapshot, def, tasks, w));
      match Attempt(def, snapshot, tasks, w).write
      case Some(run) => next.stored == s.stored[id := run] && run in Ever(next, id) && next.listing == s.listing
      case None => next == s
  {
  }

  // ----- the sweep

  predicate Stale(run: Run, before: int) {
    run.finishedAt.Some? && run.finishedAt.value <= before
  }

  predicate StaleIn(runs: map<string, Run>, id: string, before: int) {
    id in runs && Stale(runs[id], before)
  }

  /** Task-run ids with the run each belongs to. */
  type TaskRuns = map<string, string>

  class RunStore {
    var runs: map<string, Run>
    var taskRuns: TaskRuns

    /** Deletes the record and every task record of the run. */
    method DeleteRun(id: string)
      modifies this
      ensures runs == old(runs) - {id}
      ensures taskRuns == map k | k in old(taskRuns) && old(taskRuns)[k] != id :: old(taskRuns)[k]
    {
      runs := runs - {id};
      taskRuns := map k | k in taskRuns && taskRuns[k] != id :: taskRuns[k];
    }

    /**
     Undisturbed, the sweep removes exactly the runs finished at or before the cutoff,
     with their task records, counts them, and keeps every run in flight.
     */
    method ReapFinishedRuns(before: int) returns (reaped: nat)
      modifies this
      ensures runs.Keys <= old(runs).Keys && taskRuns.Keys <= old(taskRuns).Keys
      ensures forall id :: id in old(runs) ==>
                match old(runs)[id].finishedAt
                case Some(at) => if at <= before then id !in runs else id in runs && runs[id] == old(runs)[id]
                case None => id in runs && runs[id] == old(runs)[id]
      ensures forall k :: k in old(taskRuns) ==>
                && (k in taskRuns ==> taskRuns[k] == old(taskRuns)[k])
                && (k !in taskRuns <==> old(taskRuns)[k] in old(runs) && old(taskRuns)[k] !in runs)
      ensures reaped == |old(runs)| - |runs|
      ensures forall id ::
                id in old(runs) && Settled(old(runs)[id]) && !old(runs)[id].status.IsTerminal() ==> id in runs
    {
      var listing, left := runs, runs.Keys;
      reaped := 0;
      SweepStarts(listing, taskRuns, before);
      while left != {}
        invariant left <= listing.Keys
        invariant runs == Kept(listing, left, before) && taskRuns == KeptTasks(listing, old(taskRuns), left, before)
        invariant reaped == |listing| - |runs|
        decreases |left|
      {
        var id :| id in left;
        SweepsOne(listing, old(taskRuns), left, id, before);
        left := left - {id};
        if Stale(listing[id], before) {
          DeleteRun(id);
          reaped := reaped + 1;
        }
      }
      SweepEnds(listing, old(taskRuns), before);
    }
  }

  /** The records left while `left` is still to be looked at. */
  function Kept(listing: map<string, Run>, left: set<string>, before: int): map<string, Run> {
    map id | id in listing && (id in left || !Stale(listing[id], before)) :: listing[id]
  }

  function KeptTasks(listing: map<string, Run>, all: TaskRuns, left: set<string>, before: int): TaskRuns {
    map k | k in all && (all[k] in left || !StaleIn(listing, all[k], before)) :: all[k]
  }

  lemma SweepStarts(listing: map<string, Run>, all: TaskRuns, before: int)
    ensures Kept(listing, listing.Keys, before) == listing && KeptTasks(listing, all, listing.Keys, before) == all
  {
  }

  lemma SweepEnds(listing: map<string, Run>, all: TaskRuns, before: int)
    ensures Kept(listing, {}, before) == map id | id in listing && !Stale(listing[id], before) :: listing[id]
    ensures KeptTasks(listing, all, {}, before) == map k | k in all && !StaleIn(listing, all[k], before) :: all[k]
  {
  }

  lemma SweepsOne(listing: map<string, Run>, all: TaskRuns, left: set<string>, id: string, before: int)
    requires left <= listing.Keys && id in left
    ensures var kept, tasks := Kept(listing, left, before), KeptTasks(listing, all, left, before);
      && id in kept && |kept - {id}| == |kept| - 1
      && Kept(listing, left - {id}, before) == (if Stale(listing[id], before) then kept - {id} else kept)
      && KeptTasks(listing, all, left - {id}, before) ==
         (if Stale(listing[id], before) then map k | k in tasks && tasks[k] != id :: tasks[k] else tasks)
  {
    var kept := Kept(listing, left, before);
    assert (kept - {id}).Keys == kept.Keys - {id};
  }
}
