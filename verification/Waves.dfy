/**
 Dependency waves, and what they mean in terms of chains.

 `Wave(g, k)` is what becomes ready after `k` rounds in which everything ready
 is completed.  The simulator and the executor both arrive at it.
 */
module Waves {
  import opened Graph

  function Emitted(g: Graph, k: nat): set<string> {
    if k == 0 then {} else Emitted(g, k - 1) + Frontier(g, Emitted(g, k - 1))
  }

  function Wave(g: Graph, k: nat): set<string> {
    Frontier(g, Emitted(g, k))
  }

  lemma EmittedNext(g: Graph, k: nat)
    ensures Emitted(g, k + 1) == Emitted(g, k) + Wave(g, k)
  {
  }

  lemma {:induction false} EmittedStep(g: Graph, k: nat, n: string)
    ensures n in Emitted(g, k + 1) <==> n in g && g[n] <= Emitted(g, k)
    ensures Emitted(g, k) <= Emitted(g, k + 1)
  {
    if k > 0 { EmittedStep(g, k - 1, n); }
  }

  lemma {:induction false} EmittedMonotone(g: Graph, j: nat, k: nat)
    requires j <= k
    ensures Emitted(g, j) <= Emitted(g, k)
    decreases k
  {
    if j < k {
      EmittedMonotone(g, j, k - 1);
    }
  }

  /** The same notion, followed through the dependencies of one task. */
  ghost predicate Within(g: Graph, k: nat, n: string)
    decreases k
  {
    k > 0 && n in g && forall d :: d in g[n] ==> Within(g, k - 1, d)
  }

  lemma {:induction false} EmittedIsWithin(g: Graph, k: nat, n: string)
    ensures n in Emitted(g, k) <==> Within(g, k, n)
    decreases k
  {
    if k > 0 {
      EmittedStep(g, k - 1, n);
      if n in g {
        forall d | d in g[n] ensures d in Emitted(g, k - 1) <==> Within(g, k - 1, d) {
          EmittedIsWithin(g, k - 1, d);
        }
      }
    }
  }

  lemma {:induction false} WithinBoundsChains(g: Graph, k: nat, p: seq<string>, n: string)
    requires ChainTo(g, p, n) && Within(g, k, n)
    ensures |p| <= k
    decreases k
  {
    if |p| >= 2 {
      ChainSlice(g, p, 0, |p| - 1);
      WithinBoundsChains(g, k - 1, p[0..|p| - 1], p[|p| - 2]);
    }
  }

  /** A task not emitted within `k` rounds is the end of a longer chain. */
  lemma {:induction false} LateTaskHasLongChain(g: Graph, k: nat, n: string) returns (p: seq<string>)
    requires Resolved(g) && n in g && !Within(g, k, n)
    ensures ChainTo(g, p, n) && |p| > k
    decreases k
  {
    if k == 0 {
      p := [n];
    } else {
      var d :| d in g[n] && !Within(g, k - 1, d);
      var q := LateTaskHasLongChain(g, k - 1, d);
      ChainExtend(g, q, n);
      p := q + [n];
    }
  }

  /** A task is emitted within `k` rounds exactly when no chain to it is longer than `k`. */
  lemma EmittedIffShortChains(g: Graph, k: nat, n: string)
    requires Resolved(g) && n in g
    ensures n in Emitted(g, k) <==> forall p :: ChainTo(g, p, n) ==> |p| <= k
  {
    EmittedIsWithin(g, k, n);
    if Within(g, k, n) {
      forall p | ChainTo(g, p, n) ensures |p| <= k { WithinBoundsChains(g, k, p, n); }
    } else {
      var p := LateTaskHasLongChain(g, k, n);
    }
  }

  /** The longest chain ending in `n` has `len` tasks. */
  ghost predicate LongestChain(g: Graph, n: string, len: nat) {
    && (exists p :: ChainTo(g, p, n) && |p| == len)
    && (forall p :: ChainTo(g, p, n) ==> |p| <= len)
  }

  /** The wave index of a task is the length of its longest chain, counted from zero. */
  lemma WaveIffLongestChain(g: Graph, k: nat, n: string)
    requires Resolved(g) && n in g
    ensures n in Wave(g, k) <==> LongestChain(g, n, k + 1)
  {
    EmittedStep(g, k, n);
    EmittedIffShortChains(g, k, n);
    EmittedIffShortChains(g, k + 1, n);
  }

  lemma {:induction false} WavesDisjoint(g: Graph, j: nat, k: nat, n: string)
    requires n in Wave(g, j) && n in Wave(g, k)
    ensures j == k
  {
    if j < k {
      EmittedMonotone(g, j + 1, k);
    } else if k < j {
      EmittedMonotone(g, k + 1, j);
    }
  }

  /** Whatever has been emitted was in one of the waves so far. */
  lemma {:induction false} FindWave(g: Graph, n: string, k: nat) returns (j: nat)
    requires n in Emitted(g, k)
    ensures j < k && n in Wave(g, j)
    decreases k
  {
    if n in Wave(g, k - 1) {
      j := k - 1;
    } else {
      j := FindWave(g, n, k - 1);
    }
  }

  /** Once a wave is empty, an acyclic resolved graph is exhausted. */
  lemma EmptyWaveIsDone(g: Graph, k: nat)
    requires Resolved(g) && Acyclic(g) && Wave(g, k) == {}
    ensures Emitted(g, k) == g.Keys
  {
    EmptyFrontierIsDone(g, Emitted(g, k));
    EmittedInGraph(g, k);
  }

  lemma {:induction false} EmittedInGraph(g: Graph, k: nat)
    ensures Emitted(g, k) <= g.Keys
  {
    if k > 0 { EmittedInGraph(g, k - 1); }
  }

  /** Non-empty waves form an initial segment, so their number is well defined. */
  ghost predicate WaveCount(g: Graph, count: nat) {
    && (forall k :: 0 <= k < count ==> Wave(g, k) != {})
    && Wave(g, count) == {}
  }

  /** The last task of a longest chain sits in the last wave. */
  lemma CountIsLongestChain(g: Graph, count: nat)
    requires Resolved(g) && Acyclic(g) && WaveCount(g, count)
    ensures forall p :: Chain(g, p) ==> |p| <= count
    ensures count > 0 ==> exists p :: Chain(g, p) && |p| == count
  {
    EmptyWaveIsDone(g, count);
    forall p | Chain(g, p) ensures |p| <= count {
      var n := p[|p| - 1];
      assert n in Emitted(g, count) && ChainTo(g, p, n);
      EmittedIffShortChains(g, count, n);
    }
    if count > 0 {
      var n :| n in Wave(g, count - 1);
      WaveIffLongestChain(g, count - 1, n);
      var p :| ChainTo(g, p, n) && |p| == count;
    }
  }

  // ----- lower bound for every other grouping

  /** Two tasks are independent when neither is reached from the other. */
  ghost predicate Independent(g: Graph, a: string, b: string) {
    !Ancestor(g, a, b) && !Ancestor(g, b, a)
  }

  /** `group` splits the tasks into `m` groups of mutually independent tasks. */
  ghost predicate Grouping(g: Graph, group: map<string, nat>, m: nat) {
    && group.Keys == g.Keys
    && (forall n :: n in g ==> group[n] < m)
    && (forall a, b :: a in g && b in g && a != b && group[a] == group[b] ==> Independent(g, a, b))
  }

  function Below(m: nat): (r: set<nat>)
    ensures forall c: nat :: c in r <==> c < m
    ensures |r| == m
  {
    if m == 0 then {} else Below(m - 1) + {m - 1}
  }

  /** No grouping uses fewer groups than a chain has tasks. */
  lemma GroupingNeedsChainLength(g: Graph, group: map<string, nat>, m: nat, p: seq<string>)
    requires Acyclic(g) && Grouping(g, group, m) && Chain(g, p)
    ensures m >= |p|
  {
    ChainHasNoRepeats(g, p);
    var colours := seq(|p|, i requires 0 <= i < |p| => group[p[i]]);
    if m < |p| {
      var i, j := Pigeonhole(colours, Below(m));
      ChainSlice(g, p, i, j + 1);
      var q := p[i..j + 1];
      assert ChainTo(g, q, p[j]) && q[0] == p[i];
      assert Ancestor(g, p[i], p[j]);
    }
  }

  /** The waves themselves are a grouping, so their number is the least possible. */
  lemma WavesAreMinimalGrouping(g: Graph, count: nat, group: map<string, nat>, m: nat)
    requires Resolved(g) && Acyclic(g) && WaveCount(g, count)
    requires Grouping(g, group, m)
    ensures count <= m
  {
    CountIsLongestChain(g, count);
    if count > 0 {
      var p :| Chain(g, p) && |p| == count;
      GroupingNeedsChainLength(g, group, m, p);
    }
  }

  lemma WaveBelowCount(g: Graph, count: nat, k: nat, n: string)
    requires n in Emitted(g, count) && n in Wave(g, k)
    ensures k < count
  {
    var j := FindWave(g, n, count);
    WavesDisjoint(g, j, k, n);
  }

  /** The grouping by wave index has exactly `count` groups. */
  lemma WavesAreAGrouping(g: Graph, count: nat, group: map<string, nat>)
    requires Resolved(g) && Acyclic(g) && WaveCount(g, count)
    requires group.Keys == g.Keys && forall n :: n in g ==> n in Wave(g, group[n])
    ensures Grouping(g, group, count)
  {
    forall n | n in g ensures group[n] < count { BelowCount(g, count, group[n], n); }
    forall a, b | a in g && b in g && a != b && group[a] == group[b] ensures Independent(g, a, b) {
      SameWaveIndependent(g, a, b, group[a]);
    }
  }

  lemma BelowCount(g: Graph, count: nat, k: nat, n: string)
    requires Resolved(g) && Acyclic(g) && WaveCount(g, count) && n in g && n in Wave(g, k)
    ensures k < count
  {
    EmptyWaveIsDone(g, count);
    WaveBelowCount(g, count, k, n);
  }

  lemma SameWaveIndependent(g: Graph, a: string, b: string, k: nat)
    requires Resolved(g) && a in Wave(g, k) && b in Wave(g, k)
    ensures Independent(g, a, b)
  {
    if Ancestor(g, a, b) { AncestorInEarlierWave(g, a, b, k, k); }
    if Ancestor(g, b, a) { AncestorInEarlierWave(g, b, a, k, k); }
  }

  lemma AncestorInEarlierWave(g: Graph, a: string, b: string, j: nat, k: nat)
    requires Resolved(g) && Ancestor(g, a, b) && a in Wave(g, j) && b in Wave(g, k)
    ensures j < k
  {
    var p :| ChainTo(g, p, b) && |p| >= 2 && p[0] == a;
    WaveIffLongestChain(g, j, a);
    WaveIffLongestChain(g, k, b);
    var q :| ChainTo(g, q, a) && |q| == j + 1;
    var r := q + p[1..];
    assert ChainTo(g, r, b) by {
      forall i, j | 0 <= i && j == i + 1 < |r| ensures r[i] in g[r[j]] {
        if j == |q| {
          assert r[j] == p[1] && r[i] == p[0];
        } else if j > |q| {
          assert r[j] == p[j - |q| + 1] && r[i] == p[i - |q| + 1];
        }
      }
    }
  }
}
