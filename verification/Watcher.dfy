/**
 The differential event watcher: two watermarks, and exactly one start and one
 terminal event per run over any sequence of polls.
 */
module Watcher {
  import opened Domain
  import opened Names

  type Listing = map<string, Run>

  datatype Stamp = Stamp(at: int, id: string)

  /** Delivery order: by time, then by run id. */
  predicate Before(a: Stamp, b: Stamp) {
    a.at < b.at || (a.at == b.at && Less(a.id, b.id))
  }

  lemma BeforeTransitive(a: Stamp, b: Stamp, c: Stamp)
    requires Before(a, b) && Before(b, c)
    ensures Before(a, c)
  {
    if a.at == b.at == c.at { LessTransitive(a.id, b.id, c.id); }
  }

  lemma BeforeTotal(a: Stamp, b: Stamp)
    ensures a == b || Before(a, b) || Before(b, a)
  {
    LessTotal(a.id, b.id);
  }

  ghost predicate Increasing(s: seq<Stamp>) {
    forall i, j :: 0 <= i < j < |s| ==> Before(s[i], s[j])
  }

  datatype EventKind = RunStarted | RunSucceeded | RunFailed | RunTimedOut | RunCancelled

  function TerminalKindFor(status: RunStatus): Option<EventKind> {
    match status
    case Succeeded => Some(RunSucceeded)
    case Failed => Some(RunFailed)
    case TimedOut => Some(RunTimedOut)
    case Cancelled => Some(RunCancelled)
    case _ => None
  }

  /** The watcher follows two things, each behind its own watermark. */
  datatype Feed = Starts | Ends

  /** Runs shown as running with a start time, or as over with a finish time. */
  function Shown(feed: Feed, runs: Listing): set<Stamp> {
    match feed
    case Starts =>
      (set id | id in runs && runs[id].status == Running && runs[id].startedAt.Some?
         :: Stamp(runs[id].startedAt.value, id))
    case Ends =>
      (set id | id in runs && TerminalKindFor(runs[id].status).Some? && runs[id].finishedAt.Some?
         :: Stamp(runs[id].finishedAt.value, id))
  }

  function Since(feed: Feed, runs: Listing, mark: int): set<Stamp> {
    set s | s in Shown(feed, runs) && s.at > mark
  }

  /** On the record: the run is running since `at`, or over, in whichever way, since `at`. */
  predicate Reported(feed: Feed, run: Run, at: int) {
    match feed
    case Starts => run.status == Running && run.startedAt == Some(at)
    case Ends =>
      && (run.status == Succeeded || run.status == Failed || run.status == TimedOut || run.status == Cancelled)
      && run.finishedAt == Some(at)
  }

  lemma ShownIsReported(feed: Feed, runs: Listing, id: string, at: int)
    ensures Stamp(at, id) in Shown(feed, runs) <==> id in runs && Reported(feed, runs[id], at)
  {
    if id in runs && Reported(feed, runs[id], at) {
      assert TerminalKindFor(runs[id].status).Some? || feed.Starts?;
    }
  }

  /** The candidates, in delivery order. */
  ghost predicate IsBatch(candidates: set<Stamp>, batch: seq<Stamp>) {
    Increasing(batch) && Elements(batch) == candidates
  }

  function Advance(mark: int, batch: seq<Stamp>): int {
    if batch == [] then mark else batch[|batch| - 1].at
  }

  // ----- one poll

  function InsertStamp(x: Stamp, s: seq<Stamp>): (r: seq<Stamp>)
    ensures Elements(r) == Elements(s) + {x}
  {
    if s == [] then [x]
    else if Before(x, s[0]) then
      assert Elements([x] + s) == Elements(s) + {x};
      [x] + s
    else
      var rest := InsertStamp(x, s[1..]);
      assert s == [s[0]] + s[1..];
      assert Elements([s[0]] + rest) == {s[0]} + Elements(rest);
      [s[0]] + rest
  }

  lemma {:induction false} InsertIncreasing(x: Stamp, s: seq<Stamp>)
    requires Increasing(s) && x !in s
    ensures Increasing(InsertStamp(x, s))
  {
    if s != [] {
      if Before(x, s[0]) {
        forall i | 0 <= i < |s| ensures Before(x, s[i]) {
          if i > 0 { BeforeTransitive(x, s[0], s[i]); }
        }
      } else {
        BeforeTotal(x, s[0]);
        InsertIncreasing(x, s[1..]);
        var rest := InsertStamp(x, s[1..]);
        forall i | 0 <= i < |rest| ensures Before(s[0], rest[i]) {
          assert rest[i] in Elements(rest);
        }
      }
    }
  }

  method InOrder(candidates: set<Stamp>) returns (batch: seq<Stamp>)
    ensures IsBatch(candidates, batch)
  {
    var left := candidates;
    batch := [];
    while left != {}
      invariant left <= candidates && IsBatch(candidates - left, batch)
      decreases |left|
    {
      var x :| x in left;
      assert x !in Elements(batch);
      InsertIncreasing(x, batch);
      batch, left := InsertStamp(x, batch), left - {x};
      assert Elements(batch) == candidates - left;
    }
  }

  datatype Stats = Stats(started: nat, finished: nat, dispatched: nat)

  datatype Event = Event(kind: EventKind, stamp: Stamp)

  function AsStarts(batch: seq<Stamp>): seq<Event> {
    seq(|batch|, i requires 0 <= i < |batch| => Event(RunStarted, batch[i]))
  }

  predicate Over(runs: Listing, batch: seq<Stamp>) {
    forall i :: 0 <= i < |batch| ==> batch[i].id in runs && TerminalKindFor(runs[batch[i].id].status).Some?
  }

  function AsEnds(runs: Listing, batch: seq<Stamp>): seq<Event>
    requires Over(runs, batch)
  {
    seq(|batch|, i requires 0 <= i < |batch| => Event(TerminalKindFor(runs[batch[i].id].status).value, batch[i]))
  }

  /** What a record calls for, and when. */
  predicate CallsFor(run: Run, kind: EventKind, at: int) {
    match kind
    case RunStarted => run.status == Running && run.startedAt == Some(at)
    case RunSucceeded => run.status == Succeeded && run.finishedAt == Some(at)
    case RunFailed => run.status == Failed && run.finishedAt == Some(at)
    case RunTimedOut => run.status == TimedOut && run.finishedAt == Some(at)
    case RunCancelled => run.status == Cancelled && run.finishedAt == Some(at)
  }

  class Watcher {
    var startedMark: int
    var finishedMark: int
    /** Everything handed to the dispatcher, in order. */
    var sent: seq<Event>

    constructor (boot: int)
      ensures startedMark == boot && finishedMark == boot && sent == []
    {
      startedMark, finishedMark, sent := boot, boot, [];
    }

    /**
     A failed listing changes nothing; otherwise the starts go out in order, then
     the ends, and both watermarks advance.  What goes out is what the records call
     for beyond the watermarks.
     */
    method Poll(runs: Option<Listing>) returns (stats: Stats, ghost starts: seq<Stamp>, ghost ends: seq<Stamp>)
      modifies this
      ensures stats == Stats(|starts|, |ends|, |starts| + |ends|)
      ensures IsPoll(Starts, runs, old(startedMark), starts, startedMark)
      ensures IsPoll(Ends, runs, old(finishedMark), ends, finishedMark)
      ensures match runs
        case None => sent == old(sent)
        case Some(l) => Over(l, ends) && sent == old(sent) + AsStarts(starts) + AsEnds(l, ends)
      ensures runs.Some? ==> forall kind, at, id :: Event(kind, Stamp(at, id)) in sent[|old(sent)|..] <==>
        && id in runs.value && CallsFor(runs.value[id], kind, at)
        && at > if kind == RunStarted then old(startedMark) else old(finishedMark)
    {
      starts, ends := [], [];
      if runs.None? {
        return Stats(0, 0, 0), [], [];
      }
      var l := runs.value;
      var started := InOrder(Since(Starts, l, startedMark));
      var finished := InOrder(Since(Ends, l, finishedMark));
      EndedAreOver(l, finishedMark, finished);
      Send(l, started, finished);
      assert sent[|old(sent)|..] == AsStarts(started) + AsEnds(l, finished);
      forall kind, at, id
        ensures Event(kind, Stamp(at, id)) in AsStarts(started) + AsEnds(l, finished) <==>
          id in l && CallsFor(l[id], kind, at) && at > if kind == RunStarted then startedMark else finishedMark
      {
        SentIff(l, startedMark, finishedMark, started, finished, kind, Stamp(at, id));
      }
      if |started| > 0 {
        startedMark := started[|started| - 1].at;
      }
      if |finished| > 0 {
        finishedMark := finished[|finished| - 1].at;
      }
      return Stats(|started|, |finished|, |started| + |finished|), started, finished;
    }

    method Send(l: Listing, started: seq<Stamp>, finished: seq<Stamp>)
      requires Over(l, finished)
      modifies this`sent
      ensures sent == old(sent) + AsStarts(started) + AsEnds(l, finished)
    {
      for i := 0 to |started|
        invariant sent == old(sent) + AsStarts(started[..i])
      {
        assert AsStarts(started[..i + 1]) == AsStarts(started[..i]) + [Event(RunStarted, started[i])];
        sent := sent + [Event(RunStarted, started[i])];
      }
      assert started[..|started|] == started;
      ghost var mid := sent;
      for i := 0 to |finished|
        invariant sent == mid + AsEnds(l, finished[..i])
      {
        var kind := TerminalKindFor(l[finished[i].id].status).value;
        assert AsEnds(l, finished[..i + 1]) == AsEnds(l, finished[..i]) + [Event(kind, finished[i])];
        sent := sent + [Event(kind, finished[i])];
      }
      assert finished[..|finished|] == finished;
    }
  }

  lemma EndedAreOver(l: Listing, mark: int, ends: seq<Stamp>)
    requires IsBatch(Since(Ends, l, mark), ends)
    ensures Over(l, ends)
  {
    forall i | 0 <= i < |ends| ensures ends[i].id in l && TerminalKindFor(l[ends[i].id].status).Some? {
      assert ends[i] in Elements(ends);
    }
  }

  /** The events of a poll are those its listing's records call for. */
  lemma SentIff(
    l: Listing, startedMark: int, finishedMark: int, starts: seq<Stamp>, ends: seq<Stamp>, kind: EventKind, s: Stamp)
    requires IsBatch(Since(Starts, l, startedMark), starts) && IsBatch(Since(Ends, l, finishedMark), ends)
    requires Over(l, ends)
    ensures Event(kind, s) in AsStarts(starts) + AsEnds(l, ends) <==>
      && s.id in l && CallsFor(l[s.id], kind, s.at)
      && s.at > if kind == RunStarted then startedMark else finishedMark
  {
    ShownIsReported(Starts, l, s.id, s.at);
    ShownIsReported(Ends, l, s.id, s.at);
    assert s in starts <==> s in Elements(starts);
    assert s in ends <==> s in Elements(ends);
    StartEvents(starts, kind, s);
    EndEvents(l, ends, kind, s);
  }

  lemma StartEvents(starts: seq<Stamp>, kind: EventKind, s: Stamp)
    ensures Event(kind, s) in AsStarts(starts) <==> kind == RunStarted && s in starts
  {
    if s in starts {
      var i :| 0 <= i < |starts| && starts[i] == s;
      assert AsStarts(starts)[i] == Event(RunStarted, s);
    }
  }

  lemma EndEvents(l: Listing, ends: seq<Stamp>, kind: EventKind, s: Stamp)
    requires Over(l, ends)
    ensures Event(kind, s) in AsEnds(l, ends) <==> s in ends && Some(kind) == TerminalKindFor(l[s.id].status)
  {
    if s in ends && Some(kind) == TerminalKindFor(l[s.id].status) {
      var i :| 0 <= i < |ends| && ends[i] == s;
      assert AsEnds(l, ends)[i] == Event(kind, s);
    }
  }

  /** What one poll dispatches of a feed, and where it leaves the watermark. */
  ghost predicate IsPoll(feed: Feed, runs: Option<Listing>, mark: int, batch: seq<Stamp>, next: int) {
    match runs
    case None => batch == [] && next == mark
    case Some(l) => IsBatch(Since(feed, l, mark), batch) && next == Advance(mark, batch)
  }

  /** After a poll the watermark covers everything it was shown, and has not gone back. */
  lemma PollCovers(feed: Feed, runs: Option<Listing>, mark: int, batch: seq<Stamp>, next: int)
    requires IsPoll(feed, runs, mark, batch, next)
    ensures mark <= next
    ensures forall s :: s in batch ==> mark < s.at <= next
    ensures runs.Some? ==> forall s :: s in Shown(feed, runs.value) ==> s.at <= next
  {
    if batch != [] {
      var last := batch[|batch| - 1];
      forall s | s in batch ensures mark < s.at <= next {
        assert s in Elements(batch) && last in Elements(batch);
        var i :| 0 <= i < |batch| && batch[i] == s;
        assert i < |batch| - 1 ==> Before(batch[i], last);
      }
      assert last in Elements(batch);
    }
    if runs.Some? {
      forall s | s in Shown(feed, runs.value) ensures s.at <= next {
        if s.at > mark { assert s in Elements(batch); }
      }
    }
  }

  // ----- sequences of polls

  datatype Poll = Poll(runs: Option<Listing>, mark: int, batch: seq<Stamp>, next: int)

  /** Polls one after the other, each starting from the watermark the last one left. */
  ghost predicate History(feed: Feed, boot: int, polls: seq<Poll>) {
    forall k: nat :: Follows(feed, boot, polls, k)
  }

  ghost predicate Follows(feed: Feed, boot: int, polls: seq<Poll>, k: nat) {
    k < |polls| ==>
      && polls[k].mark == MarkBefore(boot, polls, k)
      && IsPoll(feed, polls[k].runs, polls[k].mark, polls[k].batch, polls[k].next)
  }

  function MarkBefore(boot: int, polls: seq<Poll>, k: nat): int
    requires k <= |polls|
  {
    if k == 0 then boot else polls[k - 1].next
  }

  /** Poll `k` is shown a record of the run that reports this time. */
  ghost predicate Shows(feed: Feed, polls: seq<Poll>, k: nat, s: Stamp) {
    && k < |polls| && polls[k].runs.Some?
    && s.id in polls[k].runs.value && Reported(feed, polls[k].runs.value[s.id], s.at)
  }

  ghost predicate NotShownBefore(feed: Feed, polls: seq<Poll>, k: nat, s: Stamp) {
    forall i: nat :: i < k ==> !Shows(feed, polls, i, s)
  }

  /** A time, once shown, is never shown differently. */
  ghost predicate Stable(feed: Feed, polls: seq<Poll>) {
    forall i, j, s, t :: Shows(feed, polls, i, s) && Shows(feed, polls, j, t) && s.id == t.id ==> s == t
  }

  ghost predicate Dispatches(polls: seq<Poll>, k: nat, s: Stamp) {
    k < |polls| && s in polls[k].batch
  }

  lemma MarkGrows(feed: Feed, boot: int, polls: seq<Poll>, k: nat)
    requires History(feed, boot, polls) && k < |polls|
    ensures MarkBefore(boot, polls, k) <= MarkBefore(boot, polls, k + 1)
  {
    assert Follows(feed, boot, polls, k);
    PollCovers(feed, polls[k].runs, polls[k].mark, polls[k].batch, polls[k].next);
  }

  lemma {:induction false} MarksGrow(feed: Feed, boot: int, polls: seq<Poll>, i: nat, j: nat)
    requires History(feed, boot, polls) && i <= j <= |polls|
    ensures MarkBefore(boot, polls, i) <= MarkBefore(boot, polls, j)
    decreases j - i
  {
    if i < j {
      MarksGrow(feed, boot, polls, i, j - 1);
      MarkGrows(feed, boot, polls, j - 1);
    }
  }

  /** A poll dispatches a stamp exactly when it shows it beyond its watermark. */
  lemma DispatchedIffShown(feed: Feed, boot: int, polls: seq<Poll>, k: nat, s: Stamp)
    requires History(feed, boot, polls) && k < |polls|
    ensures Dispatches(polls, k, s) <==> Shows(feed, polls, k, s) && s.at > MarkBefore(boot, polls, k)
  {
    assert Follows(feed, boot, polls, k);
    assert s in polls[k].batch <==> s in Elements(polls[k].batch);
    if polls[k].runs.Some? { ShownIsReported(feed, polls[k].runs.value, s.id, s.at); }
  }

  /** Once shown, a stamp is behind every later watermark. */
  lemma ShownIsCovered(feed: Feed, boot: int, polls: seq<Poll>, i: nat, j: nat, s: Stamp)
    requires History(feed, boot, polls) && Shows(feed, polls, i, s) && i < j <= |polls|
    ensures s.at <= MarkBefore(boot, polls, j)
  {
    assert Follows(feed, boot, polls, i);
    ShownIsReported(feed, polls[i].runs.value, s.id, s.at);
    PollCovers(feed, polls[i].runs, polls[i].mark, polls[i].batch, polls[i].next);
    MarksGrow(feed, boot, polls, i + 1, j);
  }

  /**
   A run first shown as started, or as finished, by poll `k` is dispatched as such by
   that poll or by none, and it is dispatched exactly when its time is beyond the
   watermark the poll started from.
   */
  lemma FirstShownDecides(feed: Feed, boot: int, polls: seq<Poll>, k: nat, s: Stamp, j: nat)
    requires History(feed, boot, polls) && Shows(feed, polls, k, s)
    requires NotShownBefore(feed, polls, k, s)
    ensures Dispatches(polls, j, s) <==> j == k && s.at > MarkBefore(boot, polls, k)
  {
    if j < |polls| {
      DispatchedIffShown(feed, boot, polls, j, s);
      if k < j { ShownIsCovered(feed, boot, polls, k, j, s); }
    }
  }

  lemma {:induction false} FirstShown(feed: Feed, polls: seq<Poll>, shown: nat, s: Stamp) returns (k: nat)
    requires Shows(feed, polls, shown, s)
    ensures k <= shown && Shows(feed, polls, k, s) && NotShownBefore(feed, polls, k, s)
    decreases shown
  {
    k := shown;
    if i: nat :| i < shown && Shows(feed, polls, i, s) { k := FirstShown(feed, polls, i, s); }
  }

  /** Every run starting, or finishing, after a poll gets a timestamp above that poll's watermark. */
  ghost predicate Punctual(feed: Feed, boot: int, polls: seq<Poll>) {
    forall m: nat, k: nat, s :: 0 < m <= k && Shows(feed, polls, k, s) && NotShownBefore(feed, polls, m, s) ==>
      s.at > MarkBefore(boot, polls, m)
  }

  /**
   Exactly once: over any polls, failed listings included, a run whose record, shown
   by a successful poll, has it succeeded, failed, timed out or cancelled after boot,
   is dispatched as finished by exactly one poll; and likewise for starts.
   */
  lemma ExactlyOnce(feed: Feed, boot: int, polls: seq<Poll>, shown: nat, s: Stamp) returns (k: nat)
    requires History(feed, boot, polls) && Punctual(feed, boot, polls)
    requires Shows(feed, polls, shown, s) && s.at > boot
    ensures forall j: nat :: Dispatches(polls, j, s) <==> j == k
  {
    k := FirstShown(feed, polls, shown, s);
    assert s.at > MarkBefore(boot, polls, k);
    forall j: nat ensures Dispatches(polls, j, s) <==> j == k {
      FirstShownDecides(feed, boot, polls, k, s, j);
    }
  }

  /** One run, one stamp: with stable times, no run is dispatched under two. */
  lemma OneStampPerRun(feed: Feed, boot: int, polls: seq<Poll>, i: nat, s: Stamp, j: nat, t: Stamp)
    requires History(feed, boot, polls) && Stable(feed, polls)
    requires Dispatches(polls, i, s) && Dispatches(polls, j, t) && s.id == t.id
    ensures i == j && s == t
  {
    DispatchedIffShown(feed, boot, polls, i, s);
    DispatchedIffShown(feed, boot, polls, j, t);
    if i < j { ShownIsCovered(feed, boot, polls, i, j, s); }
    if j < i { ShownIsCovered(feed, boot, polls, j, i, s); }
  }

  function AllDispatched(polls: seq<Poll>): seq<Stamp> {
    if polls == [] then [] else AllDispatched(polls[..|polls| - 1]) + polls[|polls| - 1].batch
  }

  /** The whole delivery, across all polls, is strictly increasing in time and run id. */
  lemma {:induction false} DeliveryIncreases(feed: Feed, boot: int, polls: seq<Poll>)
    requires History(feed, boot, polls)
    ensures Increasing(AllDispatched(polls))
    ensures forall s :: s in AllDispatched(polls) ==> s.at <= MarkBefore(boot, polls, |polls|)
    decreases |polls|
  {
    if polls != [] {
      var init, last := polls[..|polls| - 1], polls[|polls| - 1];
      forall k: nat ensures Follows(feed, boot, init, k) { assert Follows(feed, boot, polls, k); }
      assert Follows(feed, boot, polls, |init|);
      DeliveryIncreases(feed, boot, init);
      assert last.mark == MarkBefore(boot, init, |init|);
      PollCovers(feed, last.runs, last.mark, last.batch, last.next);
      var a, b := AllDispatched(init), last.batch;
      forall i, j | 0 <= i < j < |a + b| ensures Before((a + b)[i], (a + b)[j]) {
        if i < |a| <= j { assert a[i] in a && b[j - |a|] in b; }
      }
    }
  }
}
