/**
 Workers contending for leases, as a step system over either store: mutual
 exclusion and fencing over whole runs.
 */
module Leases {
  import opened Domain
  import opened Queue
  import opened Backends

  /** What a worker was told by its latest successful claim or renewal. */
  datatype Lease = Lease(run: string, until: int)

  /**
   A worker is named by the token it claims with. `leases` holds what each worker
   believes, `used` every token ever claimed with, `submitted` every run ever
   enqueued.
   */
  datatype State = State(
    queue: Entries, now: int, leases: map<Token, Lease>, used: set<Token>, submitted: set<string>)

  const START := State(map[], 0, map[], {}, {})

  datatype Action = Call(op: Op) | Tick(later: int)

  /** A call reads the clock before it takes effect, so the time it carries may be stale. */
  predicate Timely(op: Op, now: int) {
    match op
    case Claim(_, _, at, _) => at <= now
    case Renew(_, _, at, _) => at <= now
    case Recover(at) => at <= now
    case _ => true
  }

  /** Runs are enqueued once, unclaimed; tokens are claimed with once. Nothing else is asked of the callers. */
  predicate Enabled(s: State, a: Action) {
    match a
    case Tick(later) => s.now <= later
    case Call(op) =>
      && Timely(op, s.now)
      && (op.Enqueue? ==> op.entry.runId !in s.submitted && op.entry.token == "" && op.entry.leaseUntil == None)
      && (op.Claim? ==> op.token != "" && op.token !in s.used)
  }

  /** A worker whose call succeeds learns its new lease, or that it has none. */
  function Learn(leases: map<Token, Lease>, op: Op): map<Token, Lease> {
    match op
    case Claim(id, t, at, lease) => leases[t := Lease(id, at + lease)]
    case Renew(id, t, at, extend) => leases[t := Lease(id, at + extend)]
    case Ack(_, t) => leases - {t}
    case Release(_, t, _) => leases - {t}
    case FailClaim(_, t) => leases - {t}
    case _ => leases
  }

  function Do(b: Backend, s: State, a: Action): State {
    match a
    case Tick(later) => s.(now := later)
    case Call(op) =>
      var tried := s.(used := if op.Claim? then s.used + {op.token} else s.used,
                      submitted := if op.Enqueue? then s.submitted + {op.entry.runId} else s.submitted);
      match Perform(b, s.queue, op)
      case Err(_) => tried
      case Ok(q) => tried.(queue := q, leases := Learn(s.leases, op))
  }

  ghost predicate Possible(b: Backend, s: State, actions: seq<Action>)
    decreases |actions|
  {
    actions == [] || (Enabled(s, actions[0]) && Possible(b, Do(b, s, actions[0]), actions[1..]))
  }

  function DoAll(b: Backend, s: State, actions: seq<Action>): State
    decreases |actions|
  {
    if actions == [] then s else DoAll(b, Do(b, s, actions[0]), actions[1..])
  }

  /** Worker `t` is inside a lease of run `id`. */
  predicate Inside(s: State, t: Token, id: string) {
    t in s.leases && s.leases[t].run == id && s.now < s.leases[t].until
  }

  // ----- mutual exclusion

  ghost predicate Exclusive(s: State) {
    forall t, u, id :: Inside(s, t, id) && Inside(s, u, id) ==> t == u
  }

  /** A worker inside a lease owns the entry, with that expiry, unless the run was cancelled. */
  ghost predicate Owned(s: State) {
    forall t, id :: Inside(s, t, id) ==>
      && id in s.submitted
      && (id in s.queue ==> s.queue[id].token == t && s.queue[id].leaseUntil == Some(s.leases[t].until))
  }

  ghost predicate Known(s: State) {
    && s.queue.Keys <= s.submitted
    && (forall id :: id in s.queue ==>
         if s.queue[id].token == "" then s.queue[id].leaseUntil == None else s.queue[id].token in s.used)
    && s.leases.Keys <= s.used
    && (forall x, y :: x in s.queue && y in s.queue && s.queue[x].token == s.queue[y].token != "" ==> x == y)
  }

  ghost predicate LeaseInv(s: State) {
    Exclusive(s) && Owned(s) && Known(s)
  }

  lemma StepKeepsExclusion(b: Backend, s: State, a: Action)
    requires LeaseInv(s) && Enabled(s, a)
    ensures LeaseInv(Do(b, s, a))
  {
    var next := Do(b, s, a);
    if a.Tick? {
      assert forall t, id :: Inside(next, t, id) ==> Inside(s, t, id);
    } else if Perform(b, s.queue, a.op).Err? {
      assert forall t, id :: Inside(next, t, id) ==> Inside(s, t, id);
    } else {
      if b.Sqlite? { SqlStepIsMemoryStep(s.queue, a.op); }
      MemoryStepKeepsExclusion(s, a.op);
    }
    StepKeepsTokens(b, s, a);
  }

  /** An entry after an operation: its token as before, cleared, or the claimer's. */
  ghost predicate EntryFrom(q: Entries, op: Op, id: string, e: Entry) {
    || (id in q && e.token == q[id].token && (e.token == "" ==> e.leaseUntil == q[id].leaseUntil))
    || (e.token == "" && e.leaseUntil == None)
    || (op.Claim? && id == op.id && e.token == op.token)
  }

  lemma EntryAfter(b: Backend, s: State, op: Op, id: string)
    requires Known(s) && Enabled(s, Call(op)) && Perform(b, s.queue, op).Ok? && id in Perform(b, s.queue, op).value
    ensures EntryFrom(s.queue, op, id, Perform(b, s.queue, op).value[id])
    ensures id in s.queue || (op.Enqueue? && id == op.entry.runId)
  {
  }

  lemma StepKeepsTokens(b: Backend, s: State, a: Action)
    requires Known(s) && Enabled(s, a)
    ensures Known(Do(b, s, a))
  {
    if a.Call? && Perform(b, s.queue, a.op).Ok? {
      var r := Perform(b, s.queue, a.op).value;
      forall id | id in r
        ensures EntryFrom(s.queue, a.op, id, r[id]) && (id in s.queue || (a.op.Enqueue? && id == a.op.entry.runId))
      {
        EntryAfter(b, s, a.op, id);
      }
      TokensStayKnown(b, s, a.op, r);
    }
  }

  lemma TokensStayKnown(b: Backend, s: State, op: Op, r: Entries)
    requires Known(s) && Enabled(s, Call(op)) && Perform(b, s.queue, op) == Ok(r)
    requires forall id :: id in r ==>
      EntryFrom(s.queue, op, id, r[id]) && (id in s.queue || (op.Enqueue? && id == op.entry.runId))
    ensures Known(Do(b, s, Call(op)))
  {
    assert Learn(s.leases, op).Keys <= Do(b, s, Call(op)).used;
  }

  lemma MemoryStepKeepsExclusion(s: State, op: Op)
    requires LeaseInv(s) && Enabled(s, Call(op)) && Perform(Memory, s.queue, op).Ok?
    ensures Exclusive(Do(Memory, s, Call(op))) && Owned(Do(Memory, s, Call(op)))
  {
    if op.Claim? {
      ClaimKeepsExclusion(s, op);
    } else if op.Renew? {
      RenewKeepsExclusion(s, op);
    } else {
      var next := Do(Memory, s, Call(op));
      assert forall t, id :: Inside(next, t, id) ==> Inside(s, t, id);
    }
  }

  /** The worker that claims is then the only one inside: the entry was not leased to another. */
  lemma ClaimKeepsExclusion(s: State, op: Op)
    requires LeaseInv(s) && Enabled(s, Call(op)) && op.Claim? && Perform(Memory, s.queue, op).Ok?
    ensures Exclusive(Do(Memory, s, Call(op))) && Owned(Do(Memory, s, Call(op)))
  {
    OnlyOneInside(s, op);
  }

  lemma RenewKeepsExclusion(s: State, op: Op)
    requires LeaseInv(s) && Enabled(s, Call(op)) && op.Renew? && Perform(Memory, s.queue, op).Ok?
    ensures Exclusive(Do(Memory, s, Call(op))) && Owned(Do(Memory, s, Call(op)))
  {
    OnlyOneInside(s, op);
  }

  lemma OnlyOneInside(s: State, op: Op)
    requires LeaseInv(s) && Enabled(s, Call(op)) && (op.Claim? || op.Renew?) && Perform(Memory, s.queue, op).Ok?
    ensures forall t :: t != op.token ==> !Inside(s, t, op.id)
    ensures var next := Do(Memory, s, Call(op));
      forall t, id :: Inside(next, t, id) ==> (t == op.token && id == op.id) || (t != op.token && Inside(s, t, id))
  {
  }

  /**
   Lease mutual exclusion: on either store, however claims, renewals, acks,
   releases, recoveries and cancellations interleave and however stale the clock
   readings they carry, no two workers are ever inside leases of the same run, and
   the one inside owns the queue entry while it exists.
   */
  lemma {:induction false} MutualExclusion(b: Backend, s: State, actions: seq<Action>)
    requires LeaseInv(s) && Possible(b, s, actions)
    ensures LeaseInv(DoAll(b, s, actions))
    decreases |actions|
  {
    if actions != [] {
      StepKeepsExclusion(b, s, actions[0]);
      MutualExclusion(b, Do(b, s, actions[0]), actions[1..]);
    }
  }

  lemma AtMostOneInside(b: Backend, actions: seq<Action>, t: Token, u: Token, id: string)
    requires Possible(b, START, actions)
    requires var s := DoAll(b, START, actions);
      && t in s.leases && s.leases[t].run == id && s.now < s.leases[t].until
      && u in s.leases && s.leases[u].run == id && s.now < s.leases[u].until
    ensures t == u
  {
    MutualExclusion(b, START, actions);
    assert Inside(DoAll(b, START, actions), t, id) && Inside(DoAll(b, START, actions), u, id);
  }

  /** A granted claim puts its worker inside until the lease it asked for ends; giving it up takes it out. */
  lemma InsideWhileHeld(b: Backend, s: State, op: Op, t: Token, id: string)
    requires Enabled(s, Call(op)) && Perform(b, s.queue, op).Ok?
    ensures var next := Do(b, s, Call(op));
      && (op.Claim? && op.token == t && op.id == id ==>
            && (Inside(next, t, id) <==> s.now < op.at + op.lease)
            && id in next.queue && next.queue[id].token == t && next.queue[id].leaseUntil == Some(op.at + op.lease))
      && (op.Renew? && op.token == t && op.id == id ==> (Inside(next, t, id) <==> s.now < op.at + op.extend))
      && ((op.Ack? || op.Release? || op.FailClaim?) && op.token == t ==> !Inside(next, t, id))
  {
  }

  // ----- fencing

  /** Worker `t` has lost its entry: recovery or another claim replaced its token, or it gave it up. */
  ghost predicate Fenced(s: State, t: Token) {
    t in s.used && t != "" && forall id :: id in s.queue ==> s.queue[id].token != t
  }

  predicate ByWorker(op: Op, t: Token) {
    (op.Ack? || op.Release? || op.FailClaim? || op.Renew?) && op.token == t
  }

  lemma StepKeepsFence(b: Backend, s: State, a: Action, t: Token)
    requires Fenced(s, t) && Enabled(s, a)
    ensures Fenced(Do(b, s, a), t)
    ensures a.Call? && ByWorker(a.op, t) ==> Perform(b, s.queue, a.op).Err? && Do(b, s, a) == s
  {
  }

  /**
   Fencing: from the moment a worker's token is on no entry, it stays off for the
   rest of the run, and every ack, release, failed claim or renewal the worker
   still makes is refused and changes nothing.
   */
  lemma {:induction false} FencedForever(b: Backend, s: State, actions: seq<Action>, t: Token, k: nat)
    requires Fenced(s, t) && Possible(b, s, actions) && k < |actions|
    ensures var before := DoAll(b, s, actions[..k]);
      && Fenced(before, t)
      && (actions[k].Call? && ByWorker(actions[k].op, t) ==>
           Perform(b, before.queue, actions[k].op).Err? && DoAll(b, s, actions[..k + 1]) == before)
    decreases k
  {
    StepKeepsFence(b, s, actions[0], t);
    if k == 0 {
      assert actions[..1][1..] == [];
    } else {
      FencedForever(b, Do(b, s, actions[0]), actions[1..], t, k - 1);
      assert actions[..k][1..] == actions[1..][..k - 1];
      assert actions[..k + 1][1..] == actions[1..][..k];
    }
  }

  /** A worker is fenced by a recovery, by somebody else's claim, or by its own call. */
  lemma ReplacedIsFenced(b: Backend, s: State, op: Op, id: string)
    requires LeaseInv(s) && Enabled(s, Call(op))
    requires id in s.queue && s.queue[id].token != ""
    requires id !in Do(b, s, Call(op)).queue || Do(b, s, Call(op)).queue[id].token != s.queue[id].token
    ensures Fenced(Do(b, s, Call(op)), s.queue[id].token)
    ensures op.Recover? || op.Remove? || op.Claim? || ByWorker(op, s.queue[id].token)
  {
  }

  /** Once its token is replaced or removed, nothing a worker does reaches the queue again. */
  lemma ReplacedStaysOut(b: Backend, s: State, op: Op, id: string, later: seq<Action>, k: nat)
    requires LeaseInv(s) && Enabled(s, Call(op))
    requires id in s.queue && s.queue[id].token != ""
    requires id !in Do(b, s, Call(op)).queue || Do(b, s, Call(op)).queue[id].token != s.queue[id].token
    requires Possible(b, Do(b, s, Call(op)), later) && k < |later|
    requires later[k].Call? && ByWorker(later[k].op, s.queue[id].token)
    ensures var next := Do(b, s, Call(op));
      DoAll(b, next, later[..k + 1]) == DoAll(b, next, later[..k])
  {
    ReplacedIsFenced(b, s, op, id);
    FencedForever(b, Do(b, s, Call(op)), later, s.queue[id].token, k);
  }
}
