/**
 The run queue: entries guarded by a token and an expiring lease, and the
 in-memory store's operations on them.
 */
module Queue {
  import opened Domain
  import opened Names

  /** A claim token; the empty one marks an unclaimed entry. */
  type Token = string

  datatype Entry = Entry(
    runId: string, token: Token, dueAt: int, leaseUntil: Option<int>, claimedBy: Option<string>)
  {
    predicate IsLeased(now: int) { leaseUntil.Some? && leaseUntil.value > now }

    predicate IsReady(now: int) { dueAt <= now && !IsLeased(now) }

    predicate IsExpired(now: int) { leaseUntil.Some? && leaseUntil.value <= now }

    function Freed(): Entry { this.(token := "", claimedBy := None, leaseUntil := None) }

    function Held(holder: Token, until: int): Entry {
      this.(token := holder, claimedBy := Some("dispatcher"), leaseUntil := Some(until))
    }
  }

  datatype StoreError = NotFound | Conflict | ClaimLost | Backend

  type Entries = map<string, Entry>

  /** What an operation makes of the queue, or why it refuses. */
  type Reply = Result<Entries, StoreError>

  function Enqueued(q: Entries, e: Entry): Reply {
    if e.runId in q then Err(Conflict) else Ok(q[e.runId := e])
  }

  function Claimed(q: Entries, id: string, token: Token, now: int, lease: int): Reply {
    if id !in q then Err(NotFound)
    else if q[id].IsLeased(now) && q[id].token != token then Err(ClaimLost)
    else if q[id].token == "" && token == "" && q[id].IsLeased(now) then Err(ClaimLost)
    else Ok(q[id := q[id].Held(token, now + lease)])
  }

  function Acked(q: Entries, id: string, token: Token): Reply {
    if id !in q then Err(NotFound)
    else if q[id].token != token then Err(ClaimLost)
    else Ok(q - {id})
  }

  function Released(q: Entries, id: string, token: Token, retryAt: int): Reply {
    if id !in q then Err(NotFound)
    else if q[id].token != token then Err(ClaimLost)
    else Ok(q[id := q[id].Freed().(dueAt := retryAt)])
  }

  function ClaimFailed(q: Entries, id: string, token: Token): Reply {
    if id !in q then Err(NotFound)
    else if q[id].token != token then Err(ClaimLost)
    else Ok(q[id := q[id].Freed()])
  }

  function Renewed(q: Entries, id: string, token: Token, now: int, extend: int): Reply {
    if id !in q then Err(NotFound)
    else if q[id].token != token || !q[id].IsLeased(now) then Err(ClaimLost)
    else Ok(q[id := q[id].(leaseUntil := Some(now + extend))])
  }

  /** Every expired lease is cleared; nothing else changes. */
  function Recovered(q: Entries, now: int): Entries {
    map id | id in q :: if q[id].IsExpired(now) then q[id].Freed() else q[id]
  }

  function ExpiredIds(q: Entries, now: int): set<string> {
    set id | id in q && q[id].IsExpired(now)
  }

  /** A cancelled run leaves the queue; a run already over is left alone. */
  function CancelledRun(run: Run, now: int): Run {
    run.(status := Cancelled, finishedAt := Some(now), error := None)
  }

  // ----- scanning

  function ReadyIds(q: Entries, now: int): set<string> {
    set id | id in q && q[id].IsReady(now)
  }

  predicate ByDue(q: Entries, ids: seq<string>)
    requires Elements(ids) <= q.Keys
  {
    forall i, j :: 0 <= i < j < |ids| ==> ids[i] in q && ids[j] in q && q[ids[i]].dueAt <= q[ids[j]].dueAt
  }

  /**
   A scan, by run id: distinct ready entries in due order, as many as the limit
   allows, with none left behind that is due before one taken.
   */
  ghost predicate IsScan(q: Entries, now: int, limit: nat, scan: seq<string>) {
    && NoDuplicates(scan) && Elements(scan) <= ReadyIds(q, now) && ByDue(q, scan)
    && |scan| == (if |ReadyIds(q, now)| <= limit then |ReadyIds(q, now)| else limit)
    && (forall a, b :: a in scan && b in ReadyIds(q, now) - Elements(scan) ==> q[a].dueAt <= q[b].dueAt)
  }

  /** Where an entry due at `due` goes: behind everything due no later, as in a stable sort. */
  function Place(q: Entries, sorted: seq<string>, due: int): (i: nat)
    requires Elements(sorted) <= q.Keys
    ensures i <= |sorted|
    ensures i < |sorted| ==> sorted[i] in q && due < q[sorted[i]].dueAt
    ensures i > 0 ==> sorted[i - 1] in q && q[sorted[i - 1]].dueAt <= due
  {
    if sorted == [] then 0
    else
      var last := sorted[|sorted| - 1];
      assert last in Elements(sorted);
      if q[last].dueAt <= due then |sorted|
      else
        assert Elements(sorted[..|sorted| - 1]) <= Elements(sorted);
        Place(q, sorted[..|sorted| - 1], due)
  }

  /** Position `i` keeps the order when something due at `due` goes there. */
  predicate Fits(q: Entries, sorted: seq<string>, due: int, i: nat)
    requires Elements(sorted) <= q.Keys
  {
    && i <= |sorted|
    && (i < |sorted| ==> sorted[i] in q && due < q[sorted[i]].dueAt)
    && (i > 0 ==> sorted[i - 1] in q && q[sorted[i - 1]].dueAt <= due)
  }

  lemma InsertAt(q: Entries, sorted: seq<string>, id: string, i: nat)
    requires id in q && Elements(sorted) <= q.Keys && ByDue(q, sorted)
    requires NoDuplicates(sorted) && id !in sorted && Fits(q, sorted, q[id].dueAt, i)
    ensures var r := sorted[..i] + [id] + sorted[i..];
      Elements(r) == Elements(sorted) + {id} && NoDuplicates(r) && ByDue(q, r)
  {
    var r := sorted[..i] + [id] + sorted[i..];
    InsertElements(sorted, id, i);
    forall k, m | 0 <= k < m < |r| ensures r[k] != r[m] && r[k] in q && r[m] in q && q[r[k]].dueAt <= q[r[m]].dueAt {
      InsertedAt(sorted, id, i, k);
      InsertedAt(sorted, id, i, m);
      InsertOrdered(q, sorted, id, i, k, m);
    }
  }

  lemma InsertElements(sorted: seq<string>, id: string, i: nat)
    requires i <= |sorted|
    ensures Elements(sorted[..i] + [id] + sorted[i..]) == Elements(sorted) + {id}
  {
    var r := sorted[..i] + [id] + sorted[i..];
    assert forall k :: 0 <= k < |sorted| ==> sorted[k] == r[if k < i then k else k + 1];
    assert r[i] == id;
  }

  /** What stands at place `k` after the insertion. */
  function Inserted(sorted: seq<string>, id: string, i: nat, k: nat): string
    requires i <= |sorted| && k <= |sorted|
  {
    if k < i then sorted[k] else if k == i then id else sorted[k - 1]
  }

  lemma InsertedAt(sorted: seq<string>, id: string, i: nat, k: nat)
    requires i <= |sorted| && k <= |sorted|
    ensures (sorted[..i] + [id] + sorted[i..])[k] == Inserted(sorted, id, i, k)
  {
  }

  lemma InsertOrdered(q: Entries, sorted: seq<string>, id: string, i: nat, k: nat, m: nat)
    requires id in q && Elements(sorted) <= q.Keys && ByDue(q, sorted)
    requires NoDuplicates(sorted) && id !in sorted && Fits(q, sorted, q[id].dueAt, i) && k < m <= |sorted|
    ensures var x, y := Inserted(sorted, id, i, k), Inserted(sorted, id, i, m);
      x != y && x in q && y in q && q[x].dueAt <= q[y].dueAt
  {
    assert forall x :: 0 <= x < |sorted| ==> sorted[x] in Elements(sorted);
    if k == i {
      assert m - 1 > i ==> q[sorted[i]].dueAt <= q[sorted[m - 1]].dueAt;
    } else if m == i {
      assert k < i - 1 ==> q[sorted[k]].dueAt <= q[sorted[i - 1]].dueAt;
    }
  }

  lemma TruncatedIsScan(q: Entries, now: int, limit: nat, all: seq<string>)
    requires NoDuplicates(all) && Elements(all) == ReadyIds(q, now) && ByDue(q, all)
    ensures IsScan(q, now, limit, if |all| <= limit then all else all[..limit])
  {
    var scan := if |all| <= limit then all else all[..limit];
    DistinctLength(all);
    assert Elements(scan) <= Elements(all);
    forall a, b | a in scan && b in ReadyIds(q, now) - Elements(scan) ensures q[a].dueAt <= q[b].dueAt {
      var i :| 0 <= i < |scan| && scan[i] == a;
      assert b in Elements(all);
      var j :| 0 <= j < |all| && all[j] == b;
      assert forall x :: 0 <= x < |scan| ==> all[x] == scan[x] && scan[x] in Elements(scan);
    }
  }

  /** Filters the ready entries, sorts them by due time and cuts the list off. */
  method Scan(q: Entries, now: int, limit: nat) returns (ready: seq<string>)
    ensures IsScan(q, now, limit, ready)
  {
    ready := [];
    var left := q.Keys;
    while left != {}
      invariant left <= q.Keys
      invariant Elements(ready) == ReadyIds(q, now) - left
      invariant NoDuplicates(ready) && ByDue(q, ready)
      decreases |left|
    {
      var id :| id in left;
      left := left - {id};
      if q[id].IsReady(now) {
        assert id !in Elements(ready);
        var i := Place(q, ready, q[id].dueAt);
        InsertAt(q, ready, id, i);
        ready := ready[..i] + [id] + ready[i..];
      }
    }
    TruncatedIsScan(q, now, limit, ready);
    ready := if |ready| <= limit then ready else ready[..limit];
  }

  // ----- the store

  /** An operation's answer and effect agree with its specification. */
  ghost predicate Answered(before: Entries, reply: Reply, error: Option<StoreError>, after: Entries) {
    match reply
    case Ok(q) => error == None && after == q
    case Err(e) => error == Some(e) && after == before
  }

  class MemoryStore {
    var runs: map<string, Run>
    var queue: Entries

    constructor ()
      ensures runs == map[] && queue == map[]
    {
      runs, queue := map[], map[];
    }

    method Enqueue(e: Entry) returns (error: Option<StoreError>)
      modifies this`queue
      ensures Answered(old(queue), Enqueued(old(queue), e), error, queue)
    {
      if e.runId in queue {
        return Some(Conflict);
      }
      queue := queue[e.runId := e];
      return None;
    }

    method ScanReady(now: int, limit: nat) returns (ready: seq<string>)
      ensures IsScan(queue, now, limit, ready)
    {
      ready := Scan(queue, now, limit);
    }

    method Claim(id: string, token: Token, now: int, lease: int) returns (error: Option<StoreError>)
      modifies this`queue
      ensures Answered(old(queue), Claimed(old(queue), id, token, now, lease), error, queue)
    {
      if id !in queue {
        return Some(NotFound);
      }
      var entry := queue[id];
      if entry.IsLeased(now) && entry.token != token {
        return Some(ClaimLost);
      }
      if entry.token == "" && token == "" {
        if entry.IsLeased(now) {
          return Some(ClaimLost);
        }
      }
      queue := queue[id := entry.Held(token, now + lease)];
      return None;
    }

    method Ack(id: string, token: Token) returns (error: Option<StoreError>)
      modifies this`queue
      ensures Answered(old(queue), Acked(old(queue), id, token), error, queue)
    {
      if id !in queue {
        return Some(NotFound);
      }
      if queue[id].token != token {
        return Some(ClaimLost);
      }
      queue := queue - {id};
      return None;
    }

    method Release(id: string, token: Token, retryAt: int) returns (error: Option<StoreError>)
      modifies this`queue
      ensures Answered(old(queue), Released(old(queue), id, token, retryAt), error, queue)
    {
      if id !in queue {
        return Some(NotFound);
      }
      if queue[id].token != token {
        return Some(ClaimLost);
      }
      queue := queue[id := queue[id].Freed().(dueAt := retryAt)];
      return None;
    }

    method FailClaim(id: string, token: Token) returns (error: Option<StoreError>)
      modifies this`queue
      ensures Answered(old(queue), ClaimFailed(old(queue), id, token), error, queue)
    {
      if id !in queue {
        return Some(NotFound);
      }
      if queue[id].token != token {
        return Some(ClaimLost);
      }
      queue := queue[id := queue[id].Freed()];
      return None;
    }

    method RenewLease(id: string, token: Token, now: int, extend: int) returns (error: Option<StoreError>)
      modifies this`queue
      ensures Answered(old(queue), Renewed(old(queue), id, token, now, extend), error, queue)
    {
      if id !in queue {
        return Some(NotFound);
      }
      if queue[id].token != token || !queue[id].IsLeased(now) {
        return Some(ClaimLost);
      }
      queue := queue[id := queue[id].(leaseUntil := Some(now + extend))];
      return None;
    }

    /** Answers whether it cancelled the run; the record and the entry change together. */
    method CancelRun(id: string, now: int) returns (r: Result<bool, StoreError>)
      modifies this
      ensures r == if id !in old(runs) then Err(NotFound) else Ok(!old(runs)[id].status.IsTerminal())
      ensures if r == Ok(true) then
                && runs == old(runs)[id := old(runs)[id].(status := Cancelled, finishedAt := Some(now), error := None)]
                && queue == old(queue) - {id}
              else runs == old(runs) && queue == old(queue)
    {
      if id !in runs {
        return Err(NotFound);
      }
      if runs[id].status.IsTerminal() {
        return Ok(false);
      }
      runs := runs[id := CancelledRun(runs[id], now)];
      queue := queue - {id};
      return Ok(true);
    }

    method RecoverExpiredLeases(now: int) returns (recovered: nat)
      modifies this`queue
      ensures queue == Recovered(old(queue), now)
      ensures recovered == |ExpiredIds(old(queue), now)|
    {
      var expired := ExpiredIds(queue, now);
      recovered := 0;
      var left := expired;
      while left != {}
        invariant left <= expired && recovered == |expired| - |left|
        invariant queue.Keys == old(queue).Keys
        invariant forall id :: id in queue ==>
          queue[id] == if id in expired - left then old(queue)[id].Freed() else old(queue)[id]
        decreases |left|
      {
        var id :| id in left;
        left := left - {id};
        queue := queue[id := queue[id].Freed()];
        recovered := recovered + 1;
      }
      assert queue == Recovered(old(queue), now);
    }
  }
}
