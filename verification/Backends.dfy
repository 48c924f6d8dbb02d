/**
 The two implementations of the queue contract: the in-memory store and the SQL
 one, whose operations are single guarded updates.
 */
module Backends {
  import opened Domain
  import opened Queue

  // ----- the SQL guards; a missing row and a failed guard look the same

  function SqlEnqueued(q: Entries, e: Entry): Reply {
    if e.runId in q then Err(Backend) else Ok(q[e.runId := e])
  }

  /** An expired lease is not up for grabs here: only a cleared one is. */
  function SqlClaimed(q: Entries, id: string, token: Token, now: int, lease: int): Reply {
    if id in q && (q[id].leaseUntil == None || q[id].token == token) then
      Ok(q[id := q[id].Held(token, now + lease)])
    else Err(ClaimLost)
  }

  function SqlAcked(q: Entries, id: string, token: Token): Reply {
    if id in q && q[id].token == token then Ok(q - {id}) else Err(ClaimLost)
  }

  function SqlReleased(q: Entries, id: string, token: Token, retryAt: int): Reply {
    if id in q && q[id].token == token then Ok(q[id := q[id].Freed().(dueAt := retryAt)]) else Err(ClaimLost)
  }

  function SqlClaimFailed(q: Entries, id: string, token: Token): Reply {
    if id in q && q[id].token == token then Ok(q[id := q[id].Freed()]) else Err(ClaimLost)
  }

  function SqlRenewed(q: Entries, id: string, token: Token, now: int, extend: int): Reply {
    if id in q && q[id].token == token && q[id].leaseUntil.Some? && q[id].leaseUntil.value > now then
      Ok(q[id := q[id].(leaseUntil := Some(now + extend))])
    else Err(ClaimLost)
  }

  function SqlReadyIds(q: Entries, now: int): set<string> {
    set id | id in q && q[id].dueAt <= now && (q[id].leaseUntil == None || q[id].leaseUntil.value <= now)
  }

  class SqliteStore {
    var queue: Entries

    constructor ()
      ensures queue == map[]
    {
      queue := map[];
    }

    method Enqueue(e: Entry) returns (error: Option<StoreError>)
      modifies this
      ensures Answered(old(queue), SqlEnqueued(old(queue), e), error, queue)
    {
      if e.runId in queue {
        return Some(StoreError.Backend);
      }
      queue := queue[e.runId := e];
      return None;
    }

    /** `UPDATE … WHERE run_id = ? AND guard`: the number of rows changed tells whether the guard held. */
    method Update(id: string, guard: Entry -> bool, change: Entry -> Entry) returns (updated: nat)
      modifies this
      ensures if id in old(queue) && guard(old(queue)[id]) then
                updated == 1 && queue == old(queue)[id := change(old(queue)[id])]
              else updated == 0 && queue == old(queue)
    {
      updated := 0;
      if id in queue && guard(queue[id]) {
        queue := queue[id := change(queue[id])];
        updated := 1;
      }
    }

    method Claim(id: string, token: Token, now: int, lease: int) returns (error: Option<StoreError>)
      modifies this
      ensures Answered(old(queue), SqlClaimed(old(queue), id, token, now, lease), error, queue)
    {
      var updated := Update(id, (e: Entry) => e.leaseUntil == None || e.token == token,
                            (e: Entry) => e.Held(token, now + lease));
      return if updated == 0 then Some(ClaimLost) else None;
    }

    method Ack(id: string, token: Token) returns (error: Option<StoreError>)
      modifies this
      ensures Answered(old(queue), SqlAcked(old(queue), id, token), error, queue)
    {
      if id in queue && queue[id].token == token {
        queue := queue - {id};
        return None;
      }
      return Some(ClaimLost);
    }

    method Release(id: string, token: Token, retryAt: int) returns (error: Option<StoreError>)
      modifies this
      ensures Answered(old(queue), SqlReleased(old(queue), id, token, retryAt), error, queue)
    {
      var updated := Update(id, (e: Entry) => e.token == token, (e: Entry) => e.Freed().(dueAt := retryAt));
      return if updated == 0 then Some(ClaimLost) else None;
    }

    method FailClaim(id: string, token: Token) returns (error: Option<StoreError>)
      modifies this
      ensures Answered(old(queue), SqlClaimFailed(old(queue), id, token), error, queue)
    {
      var updated := Update(id, (e: Entry) => e.token == token, (e: Entry) => e.Freed());
      return if updated == 0 then Some(ClaimLost) else None;
    }

    method RenewLease(id: string, token: Token, now: int, extend: int) returns (error: Option<StoreError>)
      modifies this
      ensures Answered(old(queue), SqlRenewed(old(queue), id, token, now, extend), error, queue)
    {
      var updated := Update(id, (e: Entry) => e.token == token && e.leaseUntil.Some? && e.leaseUntil.value > now,
                            (e: Entry) => e.(leaseUntil := Some(now + extend)));
      return if updated == 0 then Some(ClaimLost) else None;
    }
  }

  // ----- one interface

  datatype Backend = Memory | Sqlite

  datatype Op =
    | Enqueue(entry: Entry)
    | Claim(id: string, token: Token, at: int, lease: int)
    | Ack(id: string, token: Token)
    | Release(id: string, token: Token, retryAt: int)
    | FailClaim(id: string, token: Token)
    | Renew(id: string, token: Token, at: int, extend: int)
    | Recover(at: int)
    | Remove(id: string)

  /** `Remove` is what cancelling a live run does to the queue. */
  function Perform(b: Backend, q: Entries, op: Op): Reply {
    match op
    case Enqueue(e) => if b.Memory? then Enqueued(q, e) else SqlEnqueued(q, e)
    case Claim(id, t, at, lease) => if b.Memory? then Claimed(q, id, t, at, lease) else SqlClaimed(q, id, t, at, lease)
    case Ack(id, t) => if b.Memory? then Acked(q, id, t) else SqlAcked(q, id, t)
    case Release(id, t, at) => if b.Memory? then Released(q, id, t, at) else SqlReleased(q, id, t, at)
    case FailClaim(id, t) => if b.Memory? then ClaimFailed(q, id, t) else SqlClaimFailed(q, id, t)
    case Renew(id, t, at, e) => if b.Memory? then Renewed(q, id, t, at, e) else SqlRenewed(q, id, t, at, e)
    case Recover(at) => Ok(Recovered(q, at))
    case Remove(id) => Ok(q - {id})
  }

  predicate NamesToken(op: Op) {
    op.Claim? ==> op.token != ""
  }

  /** The queues an operation sequence leads through, when every operation is accepted. */
  ghost predicate Accepts(b: Backend, q: Entries, ops: seq<Op>, states: seq<Entries>)
    decreases |ops|
  {
    if ops == [] then states == []
    else
      && states != []
      && Perform(b, q, ops[0]) == Ok(states[0])
      && Accepts(b, states[0], ops[1..], states[1..])
  }

  /** Whatever the SQL store accepts, the memory store accepts with the same effect. */
  lemma SqlStepIsMemoryStep(q: Entries, op: Op)
    requires NamesToken(op) && Perform(Sqlite, q, op).Ok?
    ensures Perform(Memory, q, op) == Perform(Sqlite, q, op)
  {
  }

  /** Simulation: every accepted SQL trace is an accepted memory trace through the same queues. */
  lemma {:induction false} SqlTraceIsMemoryTrace(q: Entries, ops: seq<Op>, states: seq<Entries>)
    requires forall op :: op in ops ==> NamesToken(op)
    requires Accepts(Sqlite, q, ops, states)
    ensures Accepts(Memory, q, ops, states)
    decreases |ops|
  {
    if ops != [] {
      SqlStepIsMemoryStep(q, ops[0]);
      SqlTraceIsMemoryTrace(states[0], ops[1..], states[1..]);
    }
  }

  /** How the SQL store puts the memory store's answer: it cannot tell a missing row, or what an insert ran into. */
  function AsSql(reply: Reply): Reply {
    match reply
    case Ok(_) => reply
    case Err(NotFound) => Err(ClaimLost)
    case Err(Conflict) => Err(StoreError.Backend)
    case Err(_) => reply
  }

  /**
   But for the wording of refusals the two stores answer alike, effect included,
   except on exactly one operation: a claim, under a new token, of an entry whose
   lease has expired and not been cleared. There only the memory store accepts.
   */
  lemma AnswersDifferIff(q: Entries, op: Op)
    requires NamesToken(op)
    ensures var exception := op.Claim? && op.id in q && q[op.id].IsExpired(op.at) && q[op.id].token != op.token;
      && (Perform(Sqlite, q, op) != AsSql(Perform(Memory, q, op)) <==> exception)
      && (exception ==> Perform(Memory, q, op).Ok? && Perform(Sqlite, q, op) == Err(ClaimLost))
  {
  }

  predicate AsOf(op: Op, now: int) {
    match op
    case Claim(_, _, at, _) => at == now
    case Renew(_, _, at, _) => at == now
    case Recover(at) => at == now
    case _ => true
  }

  /**
   Right after expired leases are recovered the stores cannot be told apart but by
   the wording of refusals: the same operations are accepted, with the same effect,
   and a scan selects from the same entries.
   */
  lemma RecoveredStoresAgree(q: Entries, now: int, op: Op)
    requires NamesToken(op) && AsOf(op, now)
    ensures var r := Recovered(q, now);
      && Perform(Memory, r, op).Ok? == Perform(Sqlite, r, op).Ok?
      && Perform(Sqlite, r, op) == AsSql(Perform(Memory, r, op))
      && SqlReadyIds(r, now) == ReadyIds(r, now)
  {
    var r := Recovered(q, now);
    if op.Claim? && op.id in r { assert !r[op.id].IsExpired(now); }
    AnswersDifferIff(r, op);
    SameReady(r, now);
  }

  /** A scan sees the same ready entries on either store, recovered or not. */
  lemma SameReady(q: Entries, now: int)
    ensures SqlReadyIds(q, now) == ReadyIds(q, now)
  {
    assert forall id :: id in SqlReadyIds(q, now) <==> id in ReadyIds(q, now);
  }

  /** Renewing can shorten a lease: the new expiry counts from now, not from the old one. */
  lemma RenewSetsFromNow(b: Backend, q: Entries, id: string, token: Token, at: int, extend: int)
    requires Perform(b, q, Renew(id, token, at, extend)).Ok?
    ensures var r := Perform(b, q, Renew(id, token, at, extend)).value;
      && id in q && id in r && q[id].leaseUntil.Some? && r[id].leaseUntil.Some?
      && (r[id].leaseUntil.value < q[id].leaseUntil.value <==> extend < q[id].leaseUntil.value - at)
  {
  }
}
