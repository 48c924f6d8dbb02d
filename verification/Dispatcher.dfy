/**
 One scan-and-dispatch round of the dispatcher, refining the step system.
 */
module Dispatcher {
  import opened Domain
  import opened Names
  import opened Queue
  import Backends
  import opened Dispatch
  import opened Marking

  datatype Stats = Stats(scanned: nat, claimed: nat, submitFailed: nat, contended: nat)

  predicate ByDispatcher(a: Action) {
    a.TryClaim? || a.Mark? || a.TrySend? || a.DropClaim?
  }

  datatype Outcome = Claimed | SubmitFailed | Contended

  /** The memory store will grant a claim of this entry, and its run can be marked. */
  predicate CanTake(y: System, s: State, id: string) {
    y.backend.Memory? && id in s.queue && id in s.runs && !s.queue[id].IsLeased(s.now) && !Over(s.runs, id)
  }

  /** What trying an entry comes to. */
  function Expected(y: System, s: State, id: string, t: Token, lease: int): Outcome {
    if Backends.Perform(y.backend, s.queue, Backends.Claim(id, t, s.now, lease)).Err? then Contended
    else if !Over(s.runs, id) && |s.channel| < y.capacity then Claimed
    else SubmitFailed
  }

  /** What it leaves behind: nothing, a leased entry with its job submitted, or a free entry due when it was. */
  ghost predicate Tried(was: State, s: State, id: string, t: Token, lease: int, outcome: Outcome) {
    OnlyTouches(was, s, id, t) &&
    match outcome
    case Contended => s == was
    case Claimed =>
      && id in was.queue && id in s.queue && id in s.runs && t in s.claims
      && s.queue[id] == Entry(was.queue[id].runId, t, was.queue[id].dueAt, Some(was.now + lease), Some("dispatcher"))
      && s.channel == was.channel + [t] && s.claims[t] == Hold(id, Left, InChannel) && s.runs[id].status == Running
    case SubmitFailed =>
      && id in was.queue && id in s.queue && t in s.claims
      && s.queue[id] == Entry(was.queue[id].runId, "", was.queue[id].dueAt, None, None)
      && s.claims[t].disp == Left && (s.channel == was.channel || Over(was.runs, id))
  }

  function CountOf(outcomes: seq<Outcome>, o: Outcome): nat {
    if outcomes == [] then 0
    else CountOf(outcomes[..|outcomes| - 1], o) + if outcomes[|outcomes| - 1] == o then 1 else 0
  }

  lemma CountOneMore(outcomes: seq<Outcome>, last: Outcome, o: Outcome)
    ensures CountOf(outcomes + [last], o) == CountOf(outcomes, o) + if last == o then 1 else 0
  {
    assert (outcomes + [last])[..|outcomes|] == outcomes;
  }

  ghost predicate FreshTokens(s: State, tokens: seq<Token>) {
    NoDuplicates(tokens) && forall t :: t in tokens ==> t != "" && t !in s.claims
  }

  lemma ScannedCanBeTaken(y: System, s: State, batch: nat, ready: seq<string>)
    requires Tidy(s, {}) && IsScan(s.queue, s.now, batch, ready) && y.backend.Memory?
    ensures forall k :: 0 <= k < |ready| ==> CanTake(y, s, ready[k])
  {
    forall k | 0 <= k < |ready| ensures CanTake(y, s, ready[k]) {
      var id := ready[k];
      assert id in Elements(ready);
      assert TidyEntry(s, {}, id);
    }
  }

  /** The actions are the dispatcher's, possible one after the other, and lead from `was` to `s`. */
  ghost predicate Ran(y: System, was: State, trace: seq<Action>, s: State) {
    Possible(y, was, trace) && s == After(y, was, trace) && forall k :: 0 <= k < |trace| ==> ByDispatcher(trace[k])
  }

  predicate Concerns(s: State, a: Action, id: string, t: Token) {
    ByDispatcher(a) && a.t == t && if a.TryClaim? then a.id == id else t in s.claims && s.claims[t].run == id
  }

  /** What dispatching one entry leaves alone. */
  ghost predicate OnlyTouches(was: State, s: State, id: string, t: Token) {
    && s.now == was.now && s.runs.Keys == was.runs.Keys && s.queue.Keys == was.queue.Keys
    && s.claims.Keys <= was.claims.Keys + {t}
    && (forall x :: x != id && x in was.runs ==> s.runs[x] == was.runs[x])
    && (forall x :: x != id && x in was.queue ==> s.queue[x] == was.queue[x])
  }

  lemma ActionTouches(y: System, s: State, a: Action, id: string, t: Token)
    requires Enabled(s, a) && Concerns(s, a, id, t)
    ensures OnlyTouches(s, Do(y, s, a), id, t)
  {
  }

  lemma TouchesTrans(a: State, b: State, c: State, id: string, t: Token)
    requires OnlyTouches(a, b, id, t) && OnlyTouches(b, c, id, t)
    ensures OnlyTouches(a, c, id, t)
  {
  }

  class Dispatcher {
    const system: System
    const lease: int
    var s: State

    constructor (system: System, lease: int, s: State)
      ensures this.system == system && this.lease == lease && this.s == s
    {
      this.system, this.lease, this.s := system, lease, s;
    }

    /** Performs one of the dispatcher's actions on a claim of run `id`. */
    method Perform(a: Action, id: string, t: Token, ghost was: State, ghost before: seq<Action>)
      returns (ghost trace: seq<Action>)
      requires Enabled(s, a) && Concerns(s, a, id, t)
      requires Ran(system, was, before, s)
      modifies this`s
      ensures s == Do(system, old(s), a) && OnlyTouches(old(s), s, id, t)
      ensures Ran(system, was, trace, s)
    {
      Extend(system, was, before, a);
      ActionTouches(system, s, a, id, t);
      s := Do(system, s, a);
      trace := before + [a];
    }

    method ClaimOne(id: string, t: Token, ghost was: State, ghost before: seq<Action>)
      returns (granted: bool, ghost trace: seq<Action>)
      requires t != "" && t !in s.claims && Ran(system, was, before, s)
      modifies this`s
      ensures Ran(system, was, trace, s) && OnlyTouches(old(s), s, id, t) && s.channel == old(s).channel
      ensures granted <==> Backends.Perform(system.backend, old(s).queue, Backends.Claim(id, t, s.now, lease)).Ok?
      ensures if granted then
                && id in s.queue && s.queue[id] == old(s).queue[id].Held(t, s.now + lease) && s.runs == old(s).runs
                && t in s.claims && s.claims[t] == Hold(id, HasClaimed, Unsent)
              else s == old(s)
      ensures CanTake(system, old(s), id) ==> granted && s.runs[id] == old(s).runs[id]
    {
      trace := Perform(TryClaim(id, t, s.now, lease), id, t, was, before);
      granted := t in s.claims;
    }

    method MarkOne(id: string, t: Token, ghost was: State, ghost before: seq<Action>)
      returns (transitioned: bool, ghost trace: seq<Action>)
      requires t in s.claims && s.claims[t] == Hold(id, HasClaimed, Unsent) && id in s.runs
      requires Ran(system, was, before, s)
      modifies this`s
      ensures Ran(system, was, trace, s) && OnlyTouches(old(s), s, id, t) && s.channel == old(s).channel
      ensures t in s.claims && s.claims[t] == Hold(id, HasMarked(transitioned), Unsent)
      ensures transitioned == !Over(old(s).runs, id) && s.queue == old(s).queue
      ensures transitioned ==> s.runs[id].status == Running
    {
      trace := Perform(Mark(t), id, t, was, before);
      transitioned := s.claims[t].disp.ok;
    }

    method SendOne(id: string, t: Token, ghost was: State, ghost before: seq<Action>)
      returns (submitted: bool, ghost trace: seq<Action>)
      requires t in s.claims && s.claims[t].run == id && s.claims[t].disp.HasMarked? && s.claims[t].job == Unsent
      requires Ran(system, was, before, s)
      modifies this`s
      ensures Ran(system, was, trace, s) && OnlyTouches(old(s), s, id, t)
      ensures submitted == (|old(s).channel| < system.capacity)
      ensures s.channel == if submitted then old(s).channel + [t] else old(s).channel
      ensures t in s.claims && s.claims[t].run == id && s.queue == old(s).queue && s.runs == old(s).runs
      ensures submitted ==> s.claims[t].job == InChannel
      ensures s.claims[t].disp == if old(s).claims[t].disp.ok && submitted then Left else MustFail
    {
      trace := Perform(TrySend(t), id, t, was, before);
      submitted := s.claims[t].job == InChannel;
    }

    method DropOne(id: string, t: Token, ghost was: State, ghost before: seq<Action>)
      returns (ghost trace: seq<Action>)
      requires t in s.claims && s.claims[t].run == id && s.claims[t].disp == MustFail
      requires id in s.queue && s.queue[id].token == t && Ran(system, was, before, s)
      modifies this`s
      ensures Ran(system, was, trace, s) && OnlyTouches(old(s), s, id, t) && s.channel == old(s).channel
      ensures id in s.queue && s.queue[id] == old(s).queue[id].Freed() && t in s.claims && s.claims[t].disp == Left
    {
      trace := Perform(DropClaim(t), id, t, was, before);
    }

    /** Claims one entry and marks its run. */
    method TakeOne(id: string, t: Token, ghost was: State, ghost before: seq<Action>)
      returns (granted: bool, transitioned: bool, ghost trace: seq<Action>)
      requires t != "" && t !in s.claims && s.queue.Keys <= s.runs.Keys && Ran(system, was, before, s)
      modifies this`s
      ensures Ran(system, was, trace, s) && OnlyTouches(old(s), s, id, t) && s.channel == old(s).channel
      ensures granted <==> Backends.Perform(system.backend, old(s).queue, Backends.Claim(id, t, s.now, lease)).Ok?
      ensures if granted then
                && id in s.queue && s.queue[id] == old(s).queue[id].Held(t, s.now + lease)
                && t in s.claims && s.claims[t] == Hold(id, HasMarked(transitioned), Unsent)
                && transitioned == !Over(old(s).runs, id) && (transitioned ==> s.runs[id].status == Running)
              else s == old(s)
    {
      transitioned := false;
      granted, trace := ClaimOne(id, t, was, before);
      if granted {
        ghost var claimed := s;
        transitioned, trace := MarkOne(id, t, was, trace);
        TouchesTrans(old(s), claimed, s, id, t);
      }
    }

    /** Submits the job of a claim that was marked, or returns the claim. */
    method SubmitOne(id: string, t: Token, transitioned: bool, ghost was: State, ghost before: seq<Action>)
      returns (outcome: Outcome, ghost trace: seq<Action>)
      requires t in s.claims && s.claims[t] == Hold(id, HasMarked(transitioned), Unsent)
      requires id in s.queue && s.queue[id].token == t && Ran(system, was, before, s)
      modifies this`s
      ensures Ran(system, was, trace, s) && OnlyTouches(old(s), s, id, t) && id in s.queue && t in s.claims
      ensures if transitioned && |old(s).channel| < system.capacity then
                && outcome == Claimed && s.queue == old(s).queue && s.runs == old(s).runs
                && s.channel == old(s).channel + [t] && s.claims[t] == Hold(id, Left, InChannel)
              else
                && outcome == SubmitFailed && s.queue[id] == old(s).queue[id].Freed() && s.claims[t].disp == Left
                && s.channel == if |old(s).channel| < system.capacity then old(s).channel + [t] else old(s).channel
    {
      var submitted;
      submitted, trace := SendOne(id, t, was, before);
      if transitioned && submitted {
        return Claimed, trace;
      }
      ghost var sent := s;
      trace := DropOne(id, t, was, trace);
      TouchesTrans(old(s), sent, s, id, t);
      return SubmitFailed, trace;
    }

    /** Claims one entry, marks its run, and submits the job; or returns the claim. */
    method TryOne(id: string, t: Token, ghost was: State, ghost before: seq<Action>)
      returns (outcome: Outcome, ghost trace: seq<Action>)
      requires t != "" && t !in s.claims && s.queue.Keys <= s.runs.Keys && Ran(system, was, before, s)
      modifies this`s
      ensures Ran(system, was, trace, s)
      ensures outcome == Expected(system, old(s), id, t, lease) && Tried(old(s), s, id, t, lease, outcome)
    {
      var granted, transitioned;
      granted, transitioned, trace := TakeOne(id, t, was, before);
      if !granted {
        return Contended, trace;
      }
      ghost var taken := s;
      outcome, trace := SubmitOne(id, t, transitioned, was, trace);
      TouchesTrans(old(s), taken, s, id, t);
    }

    /** Each entry in turn comes to what its state makes of it. */
    ghost predicate Rounds(was: State, now: State, ready: seq<string>, tokens: seq<Token>, states: seq<State>,
                           outcomes: seq<Outcome>)
      requires |tokens| >= |ready|
    {
      && |states| == |ready| + 1 && |outcomes| == |ready| && states[0] == was && states[|ready|] == now
      && forall k: nat :: k < |ready| ==> Round(states[k], states[k + 1], ready[k], tokens[k], outcomes[k])
    }

    ghost predicate Round(was: State, now: State, id: string, t: Token, outcome: Outcome) {
      outcome == Expected(system, was, id, t, lease) && Tried(was, now, id, t, lease, outcome)
    }

    static function Counted(outcomes: seq<Outcome>): Stats {
      Stats(|outcomes|, CountOf(outcomes, Claimed), CountOf(outcomes, SubmitFailed), CountOf(outcomes, Contended))
    }

    lemma OneMoreRound(was: State, before: State, now: State, ready: seq<string>, i: nat, tokens: seq<Token>,
                       states: seq<State>, outcomes: seq<Outcome>, outcome: Outcome)
      requires i < |ready| <= |tokens| && Rounds(was, before, ready[..i], tokens, states, outcomes)
      requires Round(before, now, ready[i], tokens[i], outcome)
      ensures Rounds(was, now, ready[..i + 1], tokens, states + [now], outcomes + [outcome])
      ensures var more, less := Counted(outcomes + [outcome]), Counted(outcomes);
        more == match outcome
          case Claimed => less.(scanned := i + 1, claimed := less.claimed + 1)
          case SubmitFailed => less.(scanned := i + 1, submitFailed := less.submitFailed + 1)
          case Contended => less.(scanned := i + 1, contended := less.contended + 1)
    {
      var states', outcomes', ready' := states + [now], outcomes + [outcome], ready[..i + 1];
      forall k: nat | k < i + 1 ensures Round(states'[k], states'[k + 1], ready'[k], tokens[k], outcomes'[k]) {
        if k < i { assert Round(states[k], states[k + 1], ready[..i][k], tokens[k], outcomes[k]); }
      }
      CountOneMore(outcomes, outcome, Claimed);
      CountOneMore(outcomes, outcome, SubmitFailed);
      CountOneMore(outcomes, outcome, Contended);
    }

    /** What the counts come to when every entry can be taken: the channel fills up, nothing is contended. */
    static ghost predicate Exact(stats: Stats, tried: nat, room: nat) {
      stats.contended == 0 && stats.claimed == if tried <= room then tried else room
    }

    ghost predicate FreeFrom(s: State, ready: seq<string>, i: nat) {
      forall k :: i <= k < |ready| ==> CanTake(system, s, ready[k])
    }

    /** Entries that can all be taken stay so, until their turn comes. */
    lemma OneMoreFree(was: State, before: State, after: State, ready: seq<string>, tokens: seq<Token>, k: nat,
                      outcomes: seq<Outcome>, o: Outcome)
      requires k < |ready| <= |tokens| && NoDuplicates(ready) && FreeFrom(before, ready, k)
      requires Round(before, after, ready[k], tokens[k], o) && Filled(was, before, outcomes)
      ensures FreeFrom(after, ready, k + 1) && Filled(was, after, outcomes + [o])
    {
      FreeRound(before, after, ready, tokens, k, o);
      FilledMore(was, before, after, outcomes, o);
    }

    /** The channel holds a job more for each entry claimed, and the counts are exact so far. */
    ghost predicate Filled(was: State, s: State, outcomes: seq<Outcome>) {
      && |s.channel| == |was.channel| + CountOf(outcomes, Claimed) <= system.capacity
      && Exact(Counted(outcomes), |outcomes|, system.capacity - |was.channel|)
    }

    lemma FilledMore(was: State, before: State, after: State, outcomes: seq<Outcome>, o: Outcome)
      requires Filled(was, before, outcomes) && Takes(before, after, o)
      ensures Filled(was, after, outcomes + [o])
    {
      CountOneMore(outcomes, o, Claimed);
      CountOneMore(outcomes, o, Contended);
    }

    ghost predicate Takes(before: State, after: State, o: Outcome) {
      if |before.channel| < system.capacity then o == Claimed && |after.channel| == |before.channel| + 1
      else o == SubmitFailed && after.channel == before.channel
    }

    lemma FreeRound(before: State, after: State, ready: seq<string>, tokens: seq<Token>, i: nat, outcome: Outcome)
      requires i < |ready| <= |tokens| && NoDuplicates(ready) && FreeFrom(before, ready, i)
      requires Round(before, after, ready[i], tokens[i], outcome)
      ensures FreeFrom(after, ready, i + 1) && Takes(before, after, outcome)
    {
    }

    /** Tries the scanned entries one by one, through `states`, and counts what each comes to. */
    method TryAll(ready: seq<string>, tokens: seq<Token>)
      returns (stats: Stats, ghost trace: seq<Action>, ghost states: seq<State>, ghost outcomes: seq<Outcome>)
      requires NoDuplicates(ready) && s.queue.Keys <= s.runs.Keys
      requires |tokens| >= |ready| && FreshTokens(s, tokens) && |s.channel| <= system.capacity
      modifies this`s
      ensures Ran(system, old(s), trace, s)
      ensures Rounds(old(s), s, ready, tokens, states, outcomes)
      ensures stats == Counted(outcomes) && |outcomes| == |ready|
      ensures FreeFrom(old(s), ready, 0) ==> Filled(old(s), s, outcomes)
    {
      stats := Stats(|ready|, 0, 0, 0);
      trace, states, outcomes := [], [s], [];
      ghost var free := FreeFrom(s, ready, 0);
      for i := 0 to |ready|
        invariant Ran(system, old(s), trace, s) && Rounds(old(s), s, ready[..i], tokens, states, outcomes)
        invariant stats == Counted(outcomes).(scanned := |ready|)
        invariant s.queue.Keys <= s.runs.Keys
        invariant forall k :: i <= k < |tokens| ==> tokens[k] !in s.claims
        invariant free ==> FreeFrom(s, ready, i) && Filled(old(s), s, outcomes)
      {
        assert tokens[i] in tokens;
        ghost var before := s;
        var outcome;
        outcome, trace := TryOne(ready[i], tokens[i], old(s), trace);
        OneMoreRound(old(s), before, s, ready, i, tokens, states, outcomes, outcome);
        if free { OneMoreFree(old(s), before, s, ready, tokens, i, outcomes, outcome); }
        states, outcomes := states + [s], outcomes + [outcome];
        stats := match outcome
          case Claimed => stats.(claimed := stats.claimed + 1)
          case SubmitFailed => stats.(submitFailed := stats.submitFailed + 1)
          case Contended => stats.(contended := stats.contended + 1);
      }
      assert ready[..|ready|] == ready;
    }

    /**
     One round: scans, then tries every scanned entry once. In a crash-free run on
     the memory store none is contended, and exactly as many jobs are submitted as
     the channel has room for.
     */
    method Step(batch: nat, tokens: seq<Token>)
      returns (stats: Stats, ghost trace: seq<Action>, ghost ready: seq<string>, ghost states: seq<State>,
               ghost outcomes: seq<Outcome>)
      requires DispatchInv(s) && |tokens| >= batch && FreshTokens(s, tokens) && |s.channel| <= system.capacity
      modifies this`s
      ensures Ran(system, old(s), trace, s)
      ensures IsScan(old(s).queue, old(s).now, batch, ready) && |ready| <= |tokens|
      ensures Rounds(old(s), s, ready, tokens, states, outcomes) && stats == Counted(outcomes)
      ensures Tidy(old(s), {}) && system.backend.Memory? ==>
                Exact(stats, stats.scanned, system.capacity - |old(s).channel|)
    {
      var scanned := Scan(s.queue, s.now, batch);
      ready := scanned;
      if Tidy(s, {}) && system.backend.Memory? { ScannedCanBeTaken(system, s, batch, scanned); }
      stats, trace, states, outcomes := TryAll(scanned, tokens);
    }
  }
}
