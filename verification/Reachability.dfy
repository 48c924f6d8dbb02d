/**
 The dry run's upstream check: a worklist search over the dependency lists.
 */
module Reachability {
  import opened Names
  import opened Graph

  /** Each task's dependency list, by name. */
  type TaskMap = map<string, seq<string>>

  function GraphOf(tasks: TaskMap): Graph {
    map n | n in tasks :: Elements(tasks[n])
  }

  /** `n` is the task asked about, or upstream of it. */
  ghost predicate Upstream(g: Graph, n: string, from: string) {
    n in g && (n == from || Ancestor(g, n, from))
  }

  /** `target` is a dependency, direct or indirect, of `from`. */
  ghost predicate Reaches(g: Graph, target: string, from: string) {
    exists n :: Upstream(g, n, from) && target in g[n]
  }

  /** When every dependency names a task, that is being an ancestor. */
  lemma ReachesIsAncestor(g: Graph, target: string, from: string)
    requires Resolved(g)
    ensures Reaches(g, target, from) <==> Ancestor(g, target, from)
  {
    if Reaches(g, target, from) {
      var n :| Upstream(g, n, from) && target in g[n];
      UpstreamStep(g, n, from, target);
    }
    if Ancestor(g, target, from) {
      var p :| ChainTo(g, p, from) && |p| >= 2 && p[0] == target;
      assert target in g[p[1]];
      if |p| > 2 {
        ChainSlice(g, p, 1, |p|);
        assert ChainTo(g, p[1..|p|], from);
      }
      assert Upstream(g, p[1], from);
    }
  }

  lemma UpstreamStep(g: Graph, n: string, from: string, d: string)
    requires Upstream(g, n, from) && d in g[n] && d in g
    ensures Ancestor(g, d, from)
  {
    if n == from {
      assert ChainTo(g, [d, n], from);
    } else {
      var p :| ChainTo(g, p, from) && |p| >= 2 && p[0] == n;
      var q := [d] + p;
      assert forall i, j :: 0 <= i && j == i + 1 < |q| ==> q[i] in g[q[j]] by {
        forall i, j | 0 <= i && j == i + 1 < |q| ensures q[i] in g[q[j]] {
          if i > 0 { assert q[i] == p[i - 1] && q[j] == p[j - 1]; }
        }
      }
      assert ChainTo(g, q, from);
    }
  }

  /** Everything in `done` has been looked at: no dependency is the target, all of them are known. */
  ghost predicate Closed(g: Graph, target: string, done: set<string>, known: set<string>) {
    forall n :: n in done && n in g ==> target !in g[n] && g[n] <= known
  }

  /** A closed set holds everything upstream. */
  lemma {:induction false} ClosedHoldsUpstream(
    g: Graph, target: string, done: set<string>, from: string, p: seq<string>)
    requires Closed(g, target, done, done) && from in done && ChainTo(g, p, from)
    ensures p[0] in done
    decreases |p|
  {
    if |p| > 1 {
      ChainSlice(g, p, 1, |p|);
      assert ChainTo(g, p[1..|p|], from);
      ClosedHoldsUpstream(g, target, done, from, p[1..|p|]);
    }
  }

  lemma NotReached(g: Graph, target: string, done: set<string>, from: string)
    requires Closed(g, target, done, done) && from in done
    ensures !Reaches(g, target, from)
  {
    forall n | Upstream(g, n, from) ensures target !in g[n] {
      if n != from {
        var p :| ChainTo(g, p, from) && |p| >= 2 && p[0] == n;
        ClosedHoldsUpstream(g, target, done, from, p);
      }
    }
  }

  /** Looks through one dependency list; new names are queued. */
  method ScanDeps(target: string, deps: seq<string>, visited: set<string>, queue: seq<string>)
    returns (found: bool, visited': set<string>, queue': seq<string>)
    ensures found <==> target in deps
    ensures !found ==> visited' == visited + Elements(deps)
    ensures !found ==> Elements(queue') == Elements(queue) + (Elements(deps) - visited)
    ensures !found ==> visited' == visited ==> queue' == queue
  {
    visited', queue' := visited, queue;
    for i := 0 to |deps|
      invariant target !in deps[..i]
      invariant visited' == visited + Elements(deps[..i])
      invariant Elements(queue') == Elements(queue) + (Elements(deps[..i]) - visited)
      invariant visited' == visited ==> queue' == queue
    {
      var dep := deps[i];
      assert Elements(deps[..i + 1]) == Elements(deps[..i]) + {dep};
      assert target in deps[..i + 1] <==> target in deps[..i] || dep == target;
      if dep == target {
        found := true;
        return;
      }
      if dep !in visited' {
        assert Elements(queue' + [dep]) == Elements(queue') + {dep};
        visited' := visited' + {dep};
        queue' := queue' + [dep];
      }
    }
    assert deps[..|deps|] == deps;
    found := false;
  }

  /** The search so far: what is known but not queued has been looked at, and what is queued is upstream. */
  ghost predicate Searching(g: Graph, target: string, from: string, known: set<string>, queued: set<string>) {
    && queued <= known && from in known
    && (forall x :: x in queued && x in g ==> Upstream(g, x, from))
    && Closed(g, target, known - queued, known)
  }

  lemma SearchStep(g: Graph, target: string, from: string, known: set<string>, queued: set<string>,
                   x: string, rest: set<string>, deps: set<string>, added: set<string>)
    requires Searching(g, target, from, known, queued) && x in queued && queued - {x} <= rest <= queued
    requires if x in g then g[x] == deps && target !in deps else deps == {}
    requires deps - known <= added <= deps
    ensures Searching(g, target, from, known + deps, rest + added)
  {
    forall y | y in rest + added && y in g ensures Upstream(g, y, from) {
      if y !in rest { UpstreamStep(g, x, from, y); }
    }
  }

  ghost function AllDeps(tasks: TaskMap): set<string> {
    set n, d | n in tasks && d in tasks[n] :: d
  }

  /** One round of the search: `current` is taken off the queue, its new dependencies are put on. */
  ghost predicate Round(tasks: TaskMap, target: string, visited: set<string>, queue: seq<string>,
                        visited': set<string>, queue': seq<string>) {
    && queue != []
    && var x, rest := queue[|queue| - 1], queue[..|queue| - 1];
      if x in tasks then
        && target !in tasks[x]
        && visited' == visited + Elements(tasks[x])
        && Elements(queue') == Elements(rest) + (Elements(tasks[x]) - visited)
        && (visited' == visited ==> queue' == rest)
      else visited' == visited && queue' == rest
  }

  lemma RoundKeepsSearching(tasks: TaskMap, target: string, from: string, visited: set<string>, queue: seq<string>,
                            visited': set<string>, queue': seq<string>)
    requires Searching(GraphOf(tasks), target, from, visited + {from}, Elements(queue)) && visited <= AllDeps(tasks)
    requires Round(tasks, target, visited, queue, visited', queue')
    ensures Searching(GraphOf(tasks), target, from, visited' + {from}, Elements(queue')) && visited' <= AllDeps(tasks)
  {
    var g := GraphOf(tasks);
    var x, rest := queue[|queue| - 1], queue[..|queue| - 1];
    assert queue == rest + [x];
    var deps := if x in tasks then Elements(tasks[x]) else {};
    SearchStep(g, target, from, visited + {from}, Elements(queue), x, Elements(rest), deps, deps - visited);
    assert visited' + {from} == visited + {from} + deps;
    assert Elements(queue') == Elements(rest) + (deps - visited);
  }

  lemma RoundShrinks(tasks: TaskMap, target: string, visited: set<string>, queue: seq<string>,
                     visited': set<string>, queue': seq<string>)
    requires visited <= AllDeps(tasks) && Round(tasks, target, visited, queue, visited', queue')
    ensures var left, left' := |AllDeps(tasks) - visited|, |AllDeps(tasks) - visited'|;
      left' < left || (left' == left && |queue'| < |queue|)
  {
    var x := queue[|queue| - 1];
    if visited' != visited {
      var d :| d in tasks[x] && d !in visited;
      assert d in AllDeps(tasks) - visited;
    }
    SubsetSize(AllDeps(tasks) - visited', AllDeps(tasks) - visited);
  }

  method IsTransitiveDependency(target: string, from: string, tasks: TaskMap) returns (r: bool)
    ensures r <==> Reaches(GraphOf(tasks), target, from)
  {
    var visited: set<string> := {};
    var queue := [from];
    while queue != []
      invariant visited <= AllDeps(tasks)
      invariant Searching(GraphOf(tasks), target, from, visited + {from}, Elements(queue))
      decreases |AllDeps(tasks) - visited|, |queue|
    {
      ghost var visited0, queue0 := visited, queue;
      var current := queue[|queue| - 1];
      queue := queue[..|queue| - 1];
      if current in tasks {
        var found;
        found, visited, queue := ScanDeps(target, tasks[current], visited, queue);
        if found {
          assert current in Elements(queue0);
          assert Upstream(GraphOf(tasks), current, from) && target in GraphOf(tasks)[current];
          return true;
        }
      }
      RoundKeepsSearching(tasks, target, from, visited0, queue0, visited, queue);
      RoundShrinks(tasks, target, visited0, queue0, visited, queue);
    }
    NotReached(GraphOf(tasks), target, visited + {from}, from);
    return false;
  }
}
