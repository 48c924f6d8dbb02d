/**
 The workflow read cache: an LRU cache in front of a store, refining it call by call.
 */
module LruStore {
  import opened Domain

  datatype Key = Key(tenant: string, name: string)

  /** A stored workflow; `body` stands for the rest of the definition. */
  datatype Record = Record(key: Key, version: nat, body: string)

  datatype WorkflowError = NotFound | ConcurrentModification | Conflict

  type Answer = Result<Record, WorkflowError>

  // ----- the store behind the cache

  type Inner = map<Key, Record>

  datatype Call =
    | Get(key: Key)
    | Put(def: Record)
    | Update(key: Key, def: Record, expected: nat)

  function InnerAnswer(inner: Inner, call: Call): Answer {
    match call
    case Get(key) => if key in inner then Ok(inner[key]) else Err(NotFound)
    case Put(def) => Ok(def)
    case Update(key, def, expected) =>
      if key !in inner then Err(NotFound)
      else if inner[key].version != expected then Err(ConcurrentModification)
      else if def.version != expected + 1 then Err(Conflict)
      else Ok(def)
  }

  function InnerNext(inner: Inner, call: Call): Inner {
    match call
    case Get(_) => inner
    case Put(def) => inner[def.key := def]
    case Update(key, def, _) => if InnerAnswer(inner, call).Ok? then inner[key := def] else inner
  }

  // ----- the cache, most recently used first

  datatype Slot = Slot(key: Key, rec: Record)

  function Find(cache: seq<Slot>, key: Key): Option<Record> {
    if cache == [] then None
    else if cache[0].key == key then Some(cache[0].rec)
    else Find(cache[1..], key)
  }

  function Drop(cache: seq<Slot>, key: Key): (r: seq<Slot>)
    ensures |r| <= |cache| && (Find(cache, key).Some? ==> |r| < |cache|)
    ensures forall s :: s in r ==> s in cache && s.key != key
    ensures forall s :: s in cache && s.key != key ==> s in r
  {
    if cache == [] then []
    else if cache[0].key == key then Drop(cache[1..], key)
    else [cache[0]] + Drop(cache[1..], key)
  }

  function Take<T>(s: seq<T>, n: nat): (r: seq<T>)
    ensures |r| <= n
    ensures forall x :: x in r ==> x in s
  {
    if n == 0 || s == [] then [] else [s[0]] + Take(s[1..], n - 1)
  }

  /** Moves or adds a slot to the front; when that overfills the cache the last slot goes. */
  function Use(cache: seq<Slot>, capacity: nat, slot: Slot): (r: seq<Slot>)
    requires capacity > 0 && |cache| <= capacity
    ensures |r| <= capacity && Find(r, slot.key) == Some(slot.rec)
    ensures forall s :: s in r ==> s == slot || (s in cache && s.key != slot.key)
  {
    [slot] + Take(Drop(cache, slot.key), capacity - 1)
  }

  datatype Cached = Cached(inner: Inner, capacity: nat, cache: seq<Slot>, hits: nat, misses: nat) {
    ghost predicate Valid() {
      && capacity > 0 && |cache| <= capacity
      && forall s :: s in cache ==> s.key in inner && inner[s.key] == s.rec
    }
  }

  lemma {:induction false} FoundIsCached(cache: seq<Slot>, key: Key)
    ensures match Find(cache, key)
      case Some(rec) => Slot(key, rec) in cache
      case None => forall s :: s in cache ==> s.key != key
  {
    if cache != [] && cache[0].key != key { FoundIsCached(cache[1..], key); }
  }

  class LruStore {
    var inner: Inner
    const capacity: nat
    var cache: seq<Slot>
    var hits: nat
    var misses: nat

    function Contents(): Cached
      reads this
    {
      Cached(inner, capacity, cache, hits, misses)
    }

    constructor (inner: Inner, capacity: nat)
      requires capacity > 0
      ensures Contents() == Cached(inner, capacity, [], 0, 0) && Contents().Valid()
    {
      this.inner, this.capacity := inner, capacity;
      cache, hits, misses := [], 0, 0;
    }

    method GetWorkflow(key: Key) returns (r: Answer)
      requires Contents().Valid()
      modifies this
      ensures Contents().Valid() && Contents() == Next(old(Contents()), Get(key))
      ensures r == InnerAnswer(old(inner), Get(key))
    {
      FoundIsCached(cache, key);
      var found := Find(cache, key);
      if found.Some? {
        cache := Use(cache, capacity, Slot(key, found.value));
        hits := hits + 1;
        return Ok(found.value);
      }
      misses := misses + 1;
      if key !in inner {
        return Err(NotFound);
      }
      cache := Use(cache, capacity, Slot(key, inner[key]));
      return Ok(inner[key]);
    }

    method Invalidate(key: Key)
      modifies this`cache
      ensures cache == Drop(old(cache), key)
    {
      cache := Drop(cache, key);
    }

    method PutWorkflow(def: Record) returns (r: Answer)
      requires Contents().Valid()
      modifies this
      ensures Contents().Valid() && Contents() == Next(old(Contents()), Put(def))
      ensures r == InnerAnswer(old(inner), Put(def))
    {
      inner := inner[def.key := def];
      Invalidate(def.key);
      return Ok(def);
    }

    method UpdateWorkflowVersion(key: Key, def: Record, expected: nat) returns (r: Answer)
      requires Contents().Valid()
      modifies this
      ensures Contents().Valid() && Contents() == Next(old(Contents()), Update(key, def, expected))
      ensures r == InnerAnswer(old(inner), Update(key, def, expected))
    {
      if key !in inner {
        return Err(NotFound);
      }
      if inner[key].version != expected {
        return Err(ConcurrentModification);
      }
      if def.version != expected + 1 {
        return Err(Conflict);
      }
      inner := inner[key := def];
      Invalidate(key);
      return Ok(def);
    }
  }

  // ----- refinement

  /** What the cached store answers: a hit from the cache, everything else from the inner store. */
  function Answers(c: Cached, call: Call): Answer {
    if call.Get? && Find(c.cache, call.key).Some? then Ok(Find(c.cache, call.key).value)
    else InnerAnswer(c.inner, call)
  }

  function Next(c: Cached, call: Call): Cached
    requires c.capacity > 0 && |c.cache| <= c.capacity
  {
    match call
    case Get(key) =>
      var found := Find(c.cache, key);
      if found.Some? then c.(cache := Use(c.cache, c.capacity, Slot(key, found.value)), hits := c.hits + 1)
      else if key !in c.inner then c.(misses := c.misses + 1)
      else c.(cache := Use(c.cache, c.capacity, Slot(key, c.inner[key])), misses := c.misses + 1)
    case Put(def) => c.(inner := InnerNext(c.inner, call), cache := Drop(c.cache, def.key))
    case Update(key, _, _) =>
      if InnerAnswer(c.inner, call).Ok? then c.(inner := InnerNext(c.inner, call), cache := Drop(c.cache, key)) else c
  }

  lemma StepRefines(c: Cached, call: Call)
    requires c.Valid()
    ensures Next(c, call).Valid() && Next(c, call).inner == InnerNext(c.inner, call)
    ensures Answers(c, call) == InnerAnswer(c.inner, call)
    ensures Next(c, call).hits + Next(c, call).misses == c.hits + c.misses + (if call.Get? then 1 else 0)
  {
    if call.Get? { FoundIsCached(c.cache, call.key); }
  }

  function Run(c: Cached, calls: seq<Call>): Cached
    requires c.Valid()
    ensures Run(c, calls).Valid()
    decreases |calls|
  {
    if calls == [] then c
    else
      StepRefines(c, calls[0]);
      Run(Next(c, calls[0]), calls[1..])
  }

  function Replies(c: Cached, calls: seq<Call>): seq<Answer>
    requires c.Valid()
    decreases |calls|
  {
    if calls == [] then []
    else
      StepRefines(c, calls[0]);
      [Answers(c, calls[0])] + Replies(Next(c, calls[0]), calls[1..])
  }

  function InnerReplies(inner: Inner, calls: seq<Call>): seq<Answer>
    decreases |calls|
  {
    if calls == [] then [] else [InnerAnswer(inner, calls[0])] + InnerReplies(InnerNext(inner, calls[0]), calls[1..])
  }

  function Gets(calls: seq<Call>): nat {
    if calls == [] then 0 else (if calls[0].Get? then 1 else 0) + Gets(calls[1..])
  }

  /**
   Cache refinement: over every sequential run, for every capacity, the cached
   store's answers, errors included, are the inner store's; the cache holds only
   current records and at most its capacity; and every lookup is counted once, as
   a hit or as a miss.
   */
  lemma {:induction false} CacheIsInvisible(c: Cached, calls: seq<Call>)
    requires c.Valid()
    ensures Replies(c, calls) == InnerReplies(c.inner, calls)
    ensures Run(c, calls).Valid()
    ensures Run(c, calls).hits + Run(c, calls).misses == c.hits + c.misses + Gets(calls)
    decreases |calls|
  {
    if calls != [] {
      StepRefines(c, calls[0]);
      CacheIsInvisible(Next(c, calls[0]), calls[1..]);
    }
  }

  // ----- least recently used

  function Keys(cache: seq<Slot>): seq<Key> {
    if cache == [] then [] else [cache[0].key] + Keys(cache[1..])
  }

  function Without(ks: seq<Key>, k: Key): (r: seq<Key>)
    ensures k !in r && forall x :: x in r ==> x in ks
  {
    if ks == [] then [] else if ks[0] == k then Without(ks[1..], k) else [ks[0]] + Without(ks[1..], k)
  }

  lemma {:induction false} WithoutAbsent(ks: seq<Key>, k: Key)
    requires k !in ks
    ensures Without(ks, k) == ks
  {
    if ks != [] { WithoutAbsent(ks[1..], k); }
  }

  /** Every key looked up, the latest first, each once. */
  function Recency(lookups: seq<Key>): seq<Key> {
    if lookups == [] then []
    else
      var last := lookups[|lookups| - 1];
      [last] + Without(Recency(lookups[..|lookups| - 1]), last)
  }

  ghost predicate Once(ks: seq<Key>) {
    ks == [] || (ks[0] !in ks[1..] && Once(ks[1..]))
  }

  lemma {:induction false} WithoutKeepsOnce(ks: seq<Key>, k: Key)
    requires Once(ks)
    ensures Once(Without(ks, k))
  {
    if ks != [] {
      WithoutKeepsOnce(ks[1..], k);
      if ks[0] != k { assert Without(ks, k)[1..] == Without(ks[1..], k); }
    }
  }

  lemma {:induction false} RecencyOnce(lookups: seq<Key>)
    ensures Once(Recency(lookups))
  {
    if lookups != [] {
      var init, last := lookups[..|lookups| - 1], lookups[|lookups| - 1];
      RecencyOnce(init);
      WithoutKeepsOnce(Recency(init), last);
      assert Recency(lookups)[1..] == Without(Recency(init), last);
    }
  }

  lemma {:induction false} TakeTwice(ks: seq<Key>, n: nat)
    ensures Take(Take(ks, n), n) == Take(ks, n)
    decreases n
  {
    if n > 0 && ks != [] {
      assert Take(ks, n)[1..] == Take(ks[1..], n - 1);
      TakeTwice(ks[1..], n - 1);
    }
  }

  lemma TakeCons(x: Key, ks: seq<Key>, n: nat)
    requires n >= 1
    ensures Take([x] + ks, n) == [x] + Take(ks, n - 1)
  {
    assert ([x] + ks)[1..] == ks;
  }

  /** Taking the first `n` before or after removing a key leaves the same first `n - 1`. */
  lemma {:induction false} TakeWithout(ks: seq<Key>, k: Key, n: nat)
    requires Once(ks) && n >= 1
    ensures Take(Without(Take(ks, n), k), n - 1) == Take(Without(ks, k), n - 1)
    decreases |ks|
  {
    if ks != [] && n > 1 {
      assert Take(ks, n)[1..] == Take(ks[1..], n - 1);
      var rest := ks[1..];
      if ks[0] == k {
        WithoutAbsent(rest, k);
        WithoutAbsent(Take(rest, n - 1), k);
        TakeTwice(rest, n - 1);
      } else {
        TakeWithout(rest, k, n - 1);
        TakeCons(ks[0], Without(rest, k), n - 1);
        TakeCons(ks[0], Without(Take(rest, n - 1), k), n - 1);
      }
    }
  }

  lemma {:induction false} DropKeys(cache: seq<Slot>, k: Key)
    ensures Keys(Drop(cache, k)) == Without(Keys(cache), k)
  {
    if cache != [] {
      DropKeys(cache[1..], k);
      assert Keys(cache)[1..] == Keys(cache[1..]);
      if cache[0].key != k { assert Drop(cache, k)[1..] == Drop(cache[1..], k); }
    }
  }

  lemma {:induction false} TakeKeys(cache: seq<Slot>, n: nat)
    ensures Keys(Take(cache, n)) == Take(Keys(cache), n)
    decreases n
  {
    if cache != [] && n > 0 {
      TakeKeys(cache[1..], n - 1);
      assert Take(cache, n)[1..] == Take(cache[1..], n - 1);
      assert Keys(cache)[1..] == Keys(cache[1..]);
    }
  }

  lemma UseKeys(cache: seq<Slot>, capacity: nat, slot: Slot)
    requires capacity > 0 && |cache| <= capacity
    ensures Keys(Use(cache, capacity, slot)) == [slot.key] + Take(Without(Keys(cache), slot.key), capacity - 1)
  {
    DropKeys(cache, slot.key);
    TakeKeys(Drop(cache, slot.key), capacity - 1);
    assert Use(cache, capacity, slot)[1..] == Take(Drop(cache, slot.key), capacity - 1);
  }

  /** The cache holds the most recently looked-up keys, latest first, as many as fit. */
  predicate HoldsRecent(c: Cached, lookups: seq<Key>) {
    Keys(c.cache) == Take(Recency(lookups), c.capacity)
  }

  lemma LookupKeepsRecent(c: Cached, lookups: seq<Key>, k: Key)
    requires c.Valid() && HoldsRecent(c, lookups) && k in c.inner
    ensures HoldsRecent(Next(c, Get(k)), lookups + [k])
  {
    var found := Find(c.cache, k);
    var recent := Recency(lookups);
    UseKeys(c.cache, c.capacity, Slot(k, if found.Some? then found.value else c.inner[k]));
    RecencyOnce(lookups);
    TakeWithout(recent, k, c.capacity);
    assert (lookups + [k])[..|lookups|] == lookups;
    TakeCons(k, Without(recent, k), c.capacity);
  }

  /** A new cache after lookups. */
  function LookedUp(inner: Inner, capacity: nat, keys: seq<Key>): (c: Cached)
    requires capacity > 0
    ensures c.Valid() && c.inner == inner && c.capacity == capacity
  {
    if keys == [] then Cached(inner, capacity, [], 0, 0)
    else
      var before := LookedUp(inner, capacity, keys[..|keys| - 1]);
      StepRefines(before, Get(keys[|keys| - 1]));
      Next(before, Get(keys[|keys| - 1]))
  }

  /** The lookups that find something in the store. */
  function Stored(inner: Inner, keys: seq<Key>): seq<Key> {
    if keys == [] then []
    else
      var before, last := Stored(inner, keys[..|keys| - 1]), keys[|keys| - 1];
      if last in inner then before + [last] else before
  }

  lemma MissKeepsCache(c: Cached, k: Key)
    requires c.Valid() && k !in c.inner
    ensures Next(c, Get(k)).cache == c.cache
  {
    FoundIsCached(c.cache, k);
  }

  /**
   Eviction is by recency: after any lookups the cache holds the latest distinct
   keys that were found, as many as fit.
   */
  lemma {:induction false} HoldsTheLatest(inner: Inner, capacity: nat, keys: seq<Key>)
    requires capacity > 0
    ensures HoldsRecent(LookedUp(inner, capacity, keys), Stored(inner, keys))
  {
    if keys != [] {
      var init, last := keys[..|keys| - 1], keys[|keys| - 1];
      var before := LookedUp(inner, capacity, init);
      HoldsTheLatest(inner, capacity, init);
      if last in inner {
        LookupKeepsRecent(before, Stored(inner, init), last);
      } else {
        MissKeepsCache(before, last);
      }
    }
  }

  // ----- why only sequential runs

  /** The two halves of a lookup that misses: reading the inner store, and caching what was read. */
  function CacheRead(c: Cached, rec: Record, key: Key): Cached
    requires c.capacity > 0 && |c.cache| <= c.capacity
  {
    c.(cache := Use(c.cache, c.capacity, Slot(key, rec)), misses := c.misses + 1)
  }

  /**
   If another thread puts a different definition between the halves, the stale
   record is cached and the next lookup answers it, not the inner store's.
   */
  lemma InterleavedMissServesStale(c: Cached, key: Key, def: Record)
    requires c.Valid() && key in c.inner && def.key == key && def != c.inner[key]
    ensures var later := CacheRead(Next(c, Put(def)), c.inner[key], key);
      Answers(later, Get(key)) == Ok(c.inner[key]) && InnerAnswer(later.inner, Get(key)) == Ok(def)
  {
  }
}
