/**
 Dependency graphs: chains, cycles, and the frontier that every scheduling
 algorithm of the repository computes in its own way.
 */
module Graph {
  import opened Domain
  import opened Names

  /** Each task name with the names it depends on. */
  type Graph = map<string, set<string>>

  function Edges(tasks: seq<TaskSpec>, n: string): set<string> {
    set i, d | 0 <= i < |tasks| && tasks[i].name == n && d in tasks[i].dependsOn :: d
  }

  /** The graph a task list denotes; tasks of equal name share their edges. */
  function DepsOf(tasks: seq<TaskSpec>): Graph {
    map n | n in TaskNames(tasks) :: Edges(tasks, n)
  }

  /** Every dependency names a task. */
  predicate Resolved(g: Graph) {
    forall n, d :: n in g && d in g[n] ==> d in g
  }

  /** A dependency chain, dependencies first. */
  predicate Chain(g: Graph, p: seq<string>) {
    && p != []
    && (forall i :: 0 <= i < |p| ==> p[i] in g)
    && (forall i, j :: 0 <= i && j == i + 1 < |p| ==> p[i] in g[p[j]])
  }

  predicate ChainTo(g: Graph, p: seq<string>, n: string) {
    Chain(g, p) && p[|p| - 1] == n
  }

  /** `anc` is reached from `n` by following one or more dependency edges. */
  ghost predicate Ancestor(g: Graph, anc: string, n: string) {
    exists p :: ChainTo(g, p, n) && |p| >= 2 && p[0] == anc
  }

  ghost predicate Acyclic(g: Graph) {
    forall p :: Chain(g, p) && |p| >= 2 ==> p[0] != p[|p| - 1]
  }

  /** Tasks outside `done` all of whose dependencies are in `done`. */
  function Frontier(g: Graph, done: set<string>): (r: set<string>) {
    set n | n in g && n !in done && g[n] <= done
  }

  // ----- chains and cycles

  lemma ChainSlice(g: Graph, p: seq<string>, i: nat, j: nat)
    requires Chain(g, p) && i < j <= |p|
    ensures Chain(g, p[i..j])
  {
    var q := p[i..j];
    forall a, b | 0 <= a && b == a + 1 < |q| ensures q[a] in g[q[b]] {
      assert q[a] == p[i + a] && q[b] == p[i + b];
    }
  }

  lemma ChainExtend(g: Graph, p: seq<string>, n: string)
    requires Chain(g, p) && n in g && p[|p| - 1] in g[n]
    ensures ChainTo(g, p + [n], n)
  {
  }

  /** More entries than distinct values: two entries are equal. */
  lemma {:induction false} Pigeonhole<T>(p: seq<T>, s: set<T>) returns (i: nat, j: nat)
    requires forall k :: 0 <= k < |p| ==> p[k] in s
    requires |p| > |s|
    ensures i < j < |p| && p[i] == p[j]
    decreases |p|
  {
    var last := p[|p| - 1];
    var init := p[..|p| - 1];
    if last in init {
      i :| 0 <= i < |init| && init[i] == last;
      j := |p| - 1;
    } else {
      i, j := Pigeonhole(init, s - {last});
    }
  }

  /** In an acyclic graph no chain visits a task twice. */
  lemma ChainHasNoRepeats(g: Graph, p: seq<string>)
    requires Acyclic(g) && Chain(g, p)
    ensures NoDuplicates(p)
    ensures |p| <= |g|
  {
    forall i, j | 0 <= i < j < |p| ensures p[i] != p[j] {
      ChainSlice(g, p, i, j + 1);
      var q := p[i..j + 1];
      assert q[0] == p[i] && q[|q| - 1] == p[j];
    }
    if |p| > |g| {
      var i, j := Pigeonhole(p, g.Keys);
    }
  }

  /** Walking dependencies backwards inside `s` yields chains of every length. */
  lemma {:induction false} WalkInside(g: Graph, s: set<string>, k: nat) returns (p: seq<string>)
    requires s != {} && s <= g.Keys
    requires forall n :: n in s ==> g[n] * s != {}
    requires k >= 1
    ensures Chain(g, p) && |p| == k && forall i :: 0 <= i < k ==> p[i] in s
    decreases k
  {
    if k == 1 {
      var n :| n in s;
      p := [n];
    } else {
      var q := WalkInside(g, s, k - 1);
      var d :| d in g[q[0]] * s;
      p := [d] + q;
      forall i, j | 0 <= i && j == i + 1 < |p| ensures p[i] in g[p[j]] {
        if i >= 1 { assert p[i] == q[i - 1] && p[j] == q[j - 1]; }
      }
    }
  }

  /** A non-empty set of tasks each waiting for a member of the set contains a cycle. */
  lemma StuckHasCycle(g: Graph, s: set<string>)
    requires s != {} && s <= g.Keys
    requires forall n :: n in s ==> g[n] * s != {}
    ensures !Acyclic(g)
  {
    var p := WalkInside(g, s, |s| + 1);
    var i, j := Pigeonhole(p, s);
    ChainSlice(g, p, i, j + 1);
    var q := p[i..j + 1];
    assert Chain(g, q) && |q| >= 2 && q[0] == q[|q| - 1];
  }

  /** When nothing is ready in an acyclic resolved graph, everything is done. */
  lemma EmptyFrontierIsDone(g: Graph, done: set<string>)
    requires Resolved(g) && Acyclic(g)
    requires Frontier(g, done) == {}
    ensures g.Keys <= done
  {
    var stuck := g.Keys - done;
    assert forall n :: n in g.Keys && n !in done ==> n in stuck;
    if stuck != {} {
      forall n | n in stuck ensures g[n] * stuck != {} {
        assert n !in Frontier(g, done);
        var d :| d in g[n] && d !in done;
        assert d in g[n] * stuck;
      }
      StuckHasCycle(g, stuck);
    }
  }
}
