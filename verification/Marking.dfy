/**
 When the dispatcher's step from queued to running can fail, and why submitting
 the job all the same does no harm.
 */
module Marking {
  import opened Domain
  import opened Queue
  import opened Backends
  import opened Executor
  import opened Dispatch
  import opened Loss

  // ----- entries nobody will remove

  /** The entry of a finished, not cancelled, run that no worker is about to acknowledge. */
  ghost predicate Stranded(s: State, id: string) {
    && id in s.queue && Over(s.runs, id) && s.runs[id].status != Cancelled
    && forall t :: t in s.claims && s.claims[t].run == id ==>
         !s.claims[t].job.Working? && s.claims[t].job != Acting(RunAction.Ack)
  }

  lemma StepKeepsStranded(y: System, s: State, a: Action, id: string)
    requires Enabled(s, a) && Stranded(s, id)
    ensures Stranded(Do(y, s, a), id)
  {
    EntryStays(y, s, a, id);
    var next := Do(y, s, a);
    forall t | t in next.claims && next.claims[t].run == id
      ensures !next.claims[t].job.Working? && next.claims[t].job != Acting(RunAction.Ack)
    {
      JobLetsGo(y, s, a, id, t);
    }
  }

  lemma EntryStays(y: System, s: State, a: Action, id: string)
    requires Enabled(s, a) && Stranded(s, id)
    ensures var next := Do(y, s, a); id in next.queue && id in next.runs && next.runs[id] == s.runs[id]
  {
    RecordStays(y, s, a, id);
  }

  lemma RecordStays(y: System, s: State, a: Action, id: string)
    requires Enabled(s, a) && Stranded(s, id)
    ensures var next := Do(y, s, a); id in next.runs && next.runs[id] == s.runs[id]
  {
  }

  lemma JobLetsGo(y: System, s: State, a: Action, id: string, t: Token)
    requires Enabled(s, a) && Stranded(s, id) && t in Do(y, s, a).claims && Do(y, s, a).claims[t].run == id
    ensures var job := Do(y, s, a).claims[t].job; !job.Working? && job != Acting(RunAction.Ack)
  {
  }

  /**
   Such an entry never leaves the queue, whatever runs out or crashes: its jobs
   find the run over and let go of it.
   */
  lemma {:induction false} StrandedForever(y: System, s: State, actions: seq<Action>, id: string)
    requires Possible(y, s, actions) && Stranded(s, id)
    ensures Stranded(After(y, s, actions), id)
    decreases |actions|
  {
    if actions != [] {
      StepKeepsStranded(y, s, actions[0], id);
      StrandedForever(y, Do(y, s, actions[0]), actions[1..], id);
    }
  }

  // ----- the invariant, stranded entries apart

  /** The worker that holds token `t` has finished the run and is about to acknowledge it. */
  predicate Finishing(s: State, t: Token, id: string) {
    t in s.claims && s.claims[t].run == id && s.claims[t].job == Acting(RunAction.Ack) && s.claims[t].disp == Left
  }

  /**
   An active claim owns the entry and its marking has not failed, unless the run
   was cancelled; then the entry is gone.
   */
  ghost predicate TidyClaim(runs: map<string, Run>, q: Entries, t: Token, c: Hold, stuck: set<string>) {
    c.run in runs && c.run !in stuck && c.Active() ==>
      if c.run in q then Owns(q, t, c.run) && c.disp != HasMarked(false) && (c.disp == MustFail ==> c.job == Unsent)
      else runs[c.run].status == Cancelled
  }

  /** An entry of a run that is over is about to be acknowledged, unless it is stranded; a cancelled run has none. */
  ghost predicate TidyEntry(s: State, stuck: set<string>, id: string) {
    id in s.queue && id in s.runs ==>
      && s.runs[id].status != Cancelled
      && (Over(s.runs, id) && id !in stuck ==> Finishing(s, s.queue[id].token, id))
  }

  ghost predicate TidyInv(s: State, stuck: set<string>) {
    && (forall id :: TidyEntry(s, stuck, id))
    && (forall t :: t in s.claims ==> TidyClaim(s.runs, s.queue, t, s.claims[t], stuck))
  }

  ghost predicate Tidy(s: State, stuck: set<string>) {
    DispatchInv(s) && TidyInv(s, stuck) && NoLapse(s) && forall id :: id in stuck ==> Stranded(s, id)
  }

  /** When an active claim moves on, only itself and its run have to be looked at. */
  lemma MoveStaysTidy(s: State, stuck: set<string>, next: State, t: Token)
    requires Tidy(s, stuck) && MovesOn(s, next, t)
    requires next.claims[t].run == s.claims[t].run && TidyEntry(next, stuck, s.claims[t].run)
    requires TidyClaim(next.runs, next.queue, t, next.claims[t], stuck)
    requires s.claims[t].run in next.queue ==> s.claims[t].run in s.queue
    ensures TidyInv(next, stuck)
  {
    var id := s.claims[t].run;
    forall u | u in next.claims ensures TidyClaim(next.runs, next.queue, u, next.claims[u], stuck) {
      if u != t { OthersStayTidy(s, stuck, next, t, u); }
    }
    forall x ensures TidyEntry(next, stuck, x) {
      if x != id { EntryStaysTidy(s, stuck, next, t, x); }
    }
  }

  lemma OthersStayTidy(s: State, stuck: set<string>, next: State, t: Token, u: Token)
    requires Tidy(s, stuck) && MovesOn(s, next, t) && u in s.claims && u != t
    requires s.claims[t].run in next.queue ==> s.claims[t].run in s.queue
    ensures TidyClaim(next.runs, next.queue, u, s.claims[u], stuck)
  {
    assert TidyClaim(s.runs, s.queue, t, s.claims[t], stuck) && TidyClaim(s.runs, s.queue, u, s.claims[u], stuck);
  }

  lemma EntryStaysTidy(s: State, stuck: set<string>, next: State, t: Token, x: string)
    requires TidyInv(s, stuck) && MovesOn(s, next, t) && x != s.claims[t].run
    ensures TidyEntry(next, stuck, x)
  {
    assert TidyEntry(s, stuck, x);
  }

  lemma TidyMark(y: System, s: State, stuck: set<string>, t: Token)
    requires Tidy(s, stuck) && Enabled(s, Mark(t))
    ensures TidyInv(Do(y, s, Mark(t)), stuck)
  {
    MarkedIsTidy(y, s, stuck, t);
    MoveStaysTidy(s, stuck, Do(y, s, Mark(t)), t);
  }

  lemma MarkedIsTidy(y: System, s: State, stuck: set<string>, t: Token)
    requires Tidy(s, stuck) && Enabled(s, Mark(t))
    ensures var next := Do(y, s, Mark(t));
      TidyEntry(next, stuck, s.claims[t].run) && TidyClaim(next.runs, next.queue, t, next.claims[t], stuck)
  {
    assert TidyEntry(s, stuck, s.claims[t].run) && TidyClaim(s.runs, s.queue, t, s.claims[t], stuck);
    assert ClaimOk(s.runs, s.queue, t, s.claims[t]);
  }

  lemma TidySend(y: System, s: State, stuck: set<string>, t: Token)
    requires Tidy(s, stuck) && Enabled(s, TrySend(t))
    ensures TidyInv(Do(y, s, TrySend(t)), stuck)
  {
    assert TidyEntry(s, stuck, s.claims[t].run);
    MoveStaysTidy(s, stuck, Do(y, s, TrySend(t)), t);
  }

  lemma TidyDrop(y: System, s: State, stuck: set<string>, t: Token)
    requires Tidy(s, stuck) && Enabled(s, DropClaim(t))
    ensures TidyInv(Do(y, s, DropClaim(t)), stuck)
  {
    assert TidyEntry(s, stuck, s.claims[t].run);
    MoveStaysTidy(s, stuck, Do(y, s, DropClaim(t)), t);
  }

  /** A claim is granted only of a run that is not over, stranded entries apart. */
  lemma GrantedIsLive(y: System, s: State, stuck: set<string>, id: string, t: Token, at: int, lease: int)
    requires Tidy(s, stuck) && Enabled(s, TryClaim(id, t, at, lease))
    requires Perform(y.backend, s.queue, Op.Claim(id, t, at, lease)).Ok?
    ensures id in s.runs && (Over(s.runs, id) <==> id in stuck)
  {
    GrantedWasFree(y.backend, s, id, t, at, lease);
    assert TidyEntry(s, stuck, id);
  }

  lemma TidyClaiming(y: System, s: State, stuck: set<string>, id: string, t: Token, at: int, lease: int)
    requires Tidy(s, stuck) && Enabled(s, TryClaim(id, t, at, lease))
    ensures TidyInv(Do(y, s, TryClaim(id, t, at, lease)), stuck)
  {
    if Perform(y.backend, s.queue, Op.Claim(id, t, at, lease)).Ok? {
      GrantedIsLive(y, s, stuck, id, t, at, lease);
      GrantedWasFree(y.backend, s, id, t, at, lease);
      var next := Do(y, s, TryClaim(id, t, at, lease));
      forall u | u in next.claims ensures TidyClaim(next.runs, next.queue, u, next.claims[u], stuck) {
        if u != t { assert TidyClaim(s.runs, s.queue, u, s.claims[u], stuck); }
      }
      forall x ensures TidyEntry(next, stuck, x) { assert TidyEntry(s, stuck, x); }
    }
  }

  lemma TidyReceive(y: System, s: State, stuck: set<string>)
    requires Tidy(s, stuck) && Enabled(s, Receive)
    ensures TidyInv(Do(y, s, Receive), stuck)
  {
    assert TidyEntry(s, stuck, s.claims[s.channel[0]].run);
    MoveStaysTidy(s, stuck, Do(y, s, Receive), s.channel[0]);
  }

  lemma TidyTimeout(y: System, s: State, stuck: set<string>, t: Token)
    requires Tidy(s, stuck) && Enabled(s, Start(t)) && Late(s.runs[s.claims[t].run], s.now)
    ensures TidyInv(Do(y, s, Start(t)), stuck)
  {
    assert TidyEntry(s, stuck, s.claims[t].run);
    MoveStaysTidy(s, stuck, Do(y, s, Start(t)), t);
  }

  lemma TidyStart(y: System, s: State, stuck: set<string>, t: Token)
    requires Tidy(s, stuck) && Enabled(s, Start(t)) && !Late(s.runs[s.claims[t].run], s.now)
    ensures TidyInv(Do(y, s, Start(t)), stuck)
  {
    assert TidyEntry(s, stuck, s.claims[t].run);
    MoveStaysTidy(s, stuck, Do(y, s, Start(t)), t);
  }

  lemma TidyHeartbeat(y: System, s: State, stuck: set<string>, t: Token, at: int, extend: int)
    requires Tidy(s, stuck) && Enabled(s, Heartbeat(t, at, extend))
    ensures TidyInv(Do(y, s, Heartbeat(t, at, extend)), stuck)
  {
    assert TidyEntry(s, stuck, s.claims[t].run);
    MoveStaysTidy(s, stuck, Do(y, s, Heartbeat(t, at, extend)), t);
  }

  lemma TidySeeCancel(y: System, s: State, stuck: set<string>, t: Token)
    requires Tidy(s, stuck) && Enabled(s, SeeCancel(t))
    ensures TidyInv(Do(y, s, SeeCancel(t)), stuck)
  {
    assert TidyEntry(s, stuck, s.claims[t].run);
    MoveStaysTidy(s, stuck, Do(y, s, SeeCancel(t)), t);
  }

  lemma TidyPanic(y: System, s: State, stuck: set<string>, t: Token)
    requires Tidy(s, stuck) && Enabled(s, Panic(t))
    ensures TidyInv(Do(y, s, Panic(t)), stuck)
  {
    assert TidyEntry(s, stuck, s.claims[t].run);
    MoveStaysTidy(s, stuck, Do(y, s, Panic(t)), t);
  }

  lemma TidyFinish(y: System, s: State, stuck: set<string>, a: Action)
    requires Tidy(s, stuck) && Enabled(s, a) && a.Finish?
    ensures TidyInv(Do(y, s, a), stuck)
  {
    assert TidyEntry(s, stuck, s.claims[a.t].run);
    MoveStaysTidy(s, stuck, Do(y, s, a), a.t);
  }

  lemma TidyAck(y: System, s: State, stuck: set<string>, t: Token)
    requires Tidy(s, stuck) && Enabled(s, Apply(t)) && s.claims[t].job.action.Ack?
    ensures TidyInv(Do(y, s, Apply(t)), stuck)
  {
    assert TidyEntry(s, stuck, s.claims[t].run);
    MoveStaysTidy(s, stuck, Do(y, s, Apply(t)), t);
  }

  lemma TidyRelease(y: System, s: State, stuck: set<string>, t: Token)
    requires Tidy(s, stuck) && Enabled(s, Apply(t)) && s.claims[t].job.action.Release?
    ensures TidyInv(Do(y, s, Apply(t)), stuck)
  {
    assert TidyEntry(s, stuck, s.claims[t].run);
    MoveStaysTidy(s, stuck, Do(y, s, Apply(t)), t);
  }

  lemma TidySubmit(y: System, s: State, stuck: set<string>, id: string, deadline: Option<int>)
    requires Tidy(s, stuck) && Enabled(s, Submit(id, deadline))
    ensures TidyInv(Do(y, s, Submit(id, deadline)), stuck)
  {
    var next := Do(y, s, Submit(id, deadline));
    forall x ensures TidyEntry(next, stuck, x) { assert TidyEntry(s, stuck, x); }
  }

  lemma TidyCancel(y: System, s: State, stuck: set<string>, id: string)
    requires Tidy(s, stuck) && Enabled(s, CancelRun(id))
    ensures TidyInv(Do(y, s, CancelRun(id)), stuck)
  {
    var next := Do(y, s, CancelRun(id));
    forall u | u in next.claims ensures TidyClaim(next.runs, next.queue, u, next.claims[u], stuck) {
      assert TidyClaim(s.runs, s.queue, u, s.claims[u], stuck);
    }
    forall x ensures TidyEntry(next, stuck, x) { assert TidyEntry(s, stuck, x); }
  }

  lemma TidyReap(y: System, s: State, stuck: set<string>, at: int)
    requires Tidy(s, stuck) && Enabled(s, Reap(at))
    ensures TidyInv(Do(y, s, Reap(at)), stuck)
  {
    var next := Do(y, s, Reap(at));
    forall u | u in next.claims ensures TidyClaim(next.runs, next.queue, u, next.claims[u], stuck) {
      assert TidyClaim(s.runs, s.queue, u, s.claims[u], stuck);
    }
    forall x ensures TidyEntry(next, stuck, x) {
      assert TidyEntry(s, stuck, x);
    }
  }

  lemma TidyTick(y: System, s: State, stuck: set<string>, later: int)
    requires Tidy(s, stuck) && Enabled(s, Tick(later))
    ensures TidyInv(Do(y, s, Tick(later)), stuck)
  {
    forall x ensures TidyEntry(Do(y, s, Tick(later)), stuck, x) { assert TidyEntry(s, stuck, x); }
  }

  function OverEntries(s: State): set<string> {
    set id | id in s.queue && Over(s.runs, id)
  }

  /** A crash strands every entry of a run that is over. */
  lemma TidyCrash(y: System, s: State, stuck: set<string>)
    requires Tidy(s, stuck)
    ensures var more := stuck + OverEntries(s);
      TidyInv(Do(y, s, Crash), more) && forall id :: id in more ==> Stranded(Do(y, s, Crash), id)
  {
    forall x ensures TidyEntry(Do(y, s, Crash), stuck + OverEntries(s), x) { assert TidyEntry(s, stuck, x); }
    forall x | x in stuck + OverEntries(s) ensures Stranded(Do(y, s, Crash), x) { assert TidyEntry(s, stuck, x); }
  }

  lemma StepKeepsTidy(y: System, s: State, stuck: set<string>, a: Action)
    requires Tidy(s, stuck) && Enabled(s, a) && !a.Crash?
    ensures TidyInv(Do(y, s, a), stuck)
  {
    match a
    case Submit(id, deadline) => TidySubmit(y, s, stuck, id, deadline);
    case TryClaim(id, t, at, lease) => TidyClaiming(y, s, stuck, id, t, at, lease);
    case Mark(t) => TidyMark(y, s, stuck, t);
    case TrySend(t) => TidySend(y, s, stuck, t);
    case DropClaim(t) => TidyDrop(y, s, stuck, t);
    case Receive => TidyReceive(y, s, stuck);
    case Start(t) =>
      if Late(s.runs[s.claims[t].run], s.now) { TidyTimeout(y, s, stuck, t); } else { TidyStart(y, s, stuck, t); }
    case Heartbeat(t, at, extend) => TidyHeartbeat(y, s, stuck, t, at, extend);
    case SeeCancel(t) => TidySeeCancel(y, s, stuck, t);
    case Panic(t) => TidyPanic(y, s, stuck, t);
    case Finish(t, _) => TidyFinish(y, s, stuck, a);
    case Apply(t) =>
      if s.claims[t].job.action.Ack? { TidyAck(y, s, stuck, t); } else { TidyRelease(y, s, stuck, t); }
    case CancelRun(id) => TidyCancel(y, s, stuck, id);
    case Reap(at) => TidyReap(y, s, stuck, at);
    case Tick(later) => TidyTick(y, s, stuck, later);
  }

  /** One step; a crash may strand more entries. */
  lemma StepStaysTidy(y: System, s: State, stuck: set<string>, a: Action) returns (more: set<string>)
    requires Tidy(s, stuck) && Enabled(s, a) && NoLapse(Do(y, s, a))
    ensures Tidy(Do(y, s, a), more) && (!a.Crash? ==> more == stuck)
  {
    StepKeepsInv(y, s, a);
    if a.Crash? {
      more := stuck + OverEntries(s);
      TidyCrash(y, s, stuck);
    } else {
      more := stuck;
      StepKeepsTidy(y, s, stuck, a);
      forall id | id in stuck ensures Stranded(Do(y, s, a), id) { StepKeepsStranded(y, s, a, id); }
    }
  }

  ghost predicate NoCrash(actions: seq<Action>) {
    forall k :: 0 <= k < |actions| ==> !actions[k].Crash?
  }

  lemma {:induction false} RunStaysTidy(y: System, s: State, stuck: set<string>, actions: seq<Action>)
    returns (more: set<string>)
    requires Tidy(s, stuck) && Possible(y, s, actions) && Unlapsed(y, s, actions)
    ensures Tidy(After(y, s, actions), more) && (NoCrash(actions) ==> more == stuck)
    decreases |actions|
  {
    more := stuck;
    if actions != [] {
      var mid := StepStaysTidy(y, s, stuck, actions[0]);
      more := RunStaysTidy(y, Do(y, s, actions[0]), mid, actions[1..]);
    }
  }

  // ----- when marking fails

  /** In a tidy state the stranded entries are the ones set apart. */
  lemma StrandedIsStuck(s: State, stuck: set<string>, id: string)
    requires Tidy(s, stuck)
    ensures Stranded(s, id) <==> id in stuck
  {
    assert TidyEntry(s, stuck, id);
  }

  /** Without a crash nothing is ever stranded. */
  lemma OnlyCrashesStrand(y: System, actions: seq<Action>, id: string)
    requires Possible(y, START, actions) && Unlapsed(y, START, actions) && NoCrash(actions)
    ensures !Stranded(After(y, START, actions), id)
  {
    var stuck := RunStaysTidy(y, START, {}, actions);
    StrandedIsStuck(After(y, START, actions), stuck, id);
  }

  lemma MarksUnlessOver(y: System, s: State, t: Token)
    requires Enabled(s, Mark(t))
    ensures Do(y, s, Mark(t)).claims[t].disp == HasMarked(!Over(s.runs, s.claims[t].run))
  {
  }

  /**
   With claiming and marking as one step, marking a granted claim fails exactly
   when the entry was stranded by a crash; without crashes, never.
   */
  lemma GrantedRunCanBeMarked(y: System, actions: seq<Action>, id: string, t: Token, at: int, lease: int)
    requires Possible(y, START, actions) && Unlapsed(y, START, actions)
    requires Enabled(After(y, START, actions), TryClaim(id, t, at, lease))
    requires Perform(y.backend, After(y, START, actions).queue, Op.Claim(id, t, at, lease)).Ok?
    ensures var s := After(y, START, actions);
      var next := Do(y, s, TryClaim(id, t, at, lease));
      && Enabled(next, Mark(t)) && Do(y, next, Mark(t)).claims[t].disp == HasMarked(!Stranded(s, id))
      && (NoCrash(actions) ==> !Stranded(s, id))
  {
    var s := After(y, START, actions);
    var stuck := RunStaysTidy(y, START, {}, actions);
    StrandedIsStuck(s, stuck, id);
    GrantedIsLive(y, s, stuck, id, t, at, lease);
    MarksUnlessOver(y, Do(y, s, TryClaim(id, t, at, lease)), t);
  }

  lemma OverAtMark(s: State, stuck: set<string>, t: Token)
    requires Tidy(s, stuck) && Enabled(s, Mark(t))
    ensures var id := s.claims[t].run;
      && (Over(s.runs, id) <==> s.runs[id].status == Cancelled || id in stuck)
      && (s.runs[id].status == Cancelled ==> id !in s.queue)
  {
    assert TidyEntry(s, stuck, s.claims[t].run);
    assert ClaimOk(s.runs, s.queue, t, s.claims[t]) && TidyClaim(s.runs, s.queue, t, s.claims[t], stuck);
  }

  /**
   With other steps in between, marking fails exactly when the run was cancelled,
   and then the entry is gone, or when the entry is stranded, and then it stays.
   */
  lemma MarkFailsIff(y: System, actions: seq<Action>, t: Token)
    requires Possible(y, START, actions) && Unlapsed(y, START, actions)
    requires Enabled(After(y, START, actions), Mark(t))
    ensures var s := After(y, START, actions);
      var id := s.claims[t].run;
      && (Do(y, s, Mark(t)).claims[t].disp == HasMarked(false) <==>
           s.runs[id].status == Cancelled || Stranded(s, id))
      && (s.runs[id].status == Cancelled ==> id !in s.queue)
      && (NoCrash(actions) ==> !Stranded(s, id))
  {
    var s := After(y, START, actions);
    var stuck := RunStaysTidy(y, START, {}, actions);
    StrandedIsStuck(s, stuck, s.claims[t].run);
    OverAtMark(s, stuck, t);
    MarksUnlessOver(y, s, t);
  }

  /** Over and out of the queue is for ever, and no call of any worker brings the entry back. */
  lemma {:induction false} GoneForGood(y: System, s: State, actions: seq<Action>, id: string)
    requires DispatchInv(s) && Possible(y, s, actions) && Unlapsed(y, s, actions)
    requires Over(s.runs, id) && id !in s.queue
    ensures Over(After(y, s, actions).runs, id) && id !in After(y, s, actions).queue
    ensures After(y, s, actions).runs[id] == s.runs[id]
    decreases |actions|
  {
    if actions != [] {
      StepKeepsInv(y, s, actions[0]);
      StepKeepsGone(y, s, actions[0], id);
      GoneForGood(y, Do(y, s, actions[0]), actions[1..], id);
    }
  }

  lemma StepKeepsGone(y: System, s: State, a: Action, id: string)
    requires DispatchInv(s) && Enabled(s, a) && Over(s.runs, id) && id !in s.queue
    ensures var next := Do(y, s, a); id !in next.queue && id in next.runs && next.runs[id] == s.runs[id]
  {
    StaysOut(y, s, a, id);
    if a.Finish? {
      assert ClaimOk(s.runs, s.queue, a.t, s.claims[a.t]);
    }
  }
}
