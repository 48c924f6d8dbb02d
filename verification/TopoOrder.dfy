/**
 `topo_order`: Kahn's algorithm with a lexicographic frontier.
 */
module TopoOrder {
  import opened Domain
  import opened Names
  import opened Graph

  datatype DomainError = UnknownDependency(dep: string, task: string) | CycleDetected

  // ----- what an order is

  /** Every task once, each after all its dependencies. */
  ghost predicate IsOrder(g: Graph, order: seq<string>) {
    && NoDuplicates(order)
    && Elements(order) == g.Keys
    && (forall i :: 0 <= i < |order| ==> g[order[i]] <= Elements(order[..i]))
  }

  /** Each entry is the least task that could come next. */
  ghost predicate Greedy(g: Graph, order: seq<string>) {
    forall i :: 0 <= i < |order| ==> IsLeast(order[i], Frontier(g, Elements(order[..i])))
  }

  /** Comparison of two orders at their first difference. */
  ghost predicate LexBefore(a: seq<string>, b: seq<string>) {
    exists i :: 0 <= i < |a| && i < |b| && a[..i] == b[..i] && Less(a[i], b[i])
  }

  lemma ElementsSnoc(s: seq<string>, x: string)
    ensures Elements(s + [x]) == Elements(s) + {x}
  {
  }

  lemma GreedyNoDuplicates(g: Graph, order: seq<string>)
    requires Greedy(g, order)
    ensures NoDuplicates(order)
    ensures Elements(order) <= g.Keys
    ensures forall i :: 0 <= i < |order| ==> g[order[i]] <= Elements(order[..i])
  {
    forall i, j | 0 <= i < j < |order| ensures order[i] != order[j] {
      assert order[j] in Frontier(g, Elements(order[..j]));
      assert order[..j][i] == order[i];
      assert order[i] in Elements(order[..j]);
    }
    forall i | 0 <= i < |order|
      ensures order[i] in g && g[order[i]] <= Elements(order[..i])
    {
      assert order[i] in Frontier(g, Elements(order[..i]));
    }
  }

  /** A greedy order comes before every other order of the same graph. */
  lemma GreedyIsLeast(g: Graph, order: seq<string>, other: seq<string>)
    requires Greedy(g, order) && IsOrder(g, order) && IsOrder(g, other)
    ensures order == other || LexBefore(order, other)
  {
    DistinctLength(order);
    DistinctLength(other);
    if order != other {
      var i := FirstDifference(order, other);
      var before := Elements(other[..i]);
      assert other[i] in Frontier(g, before) by {
        assert other[i] in Elements(other);
        assert forall x :: x in before ==> x != other[i];
      }
      assert IsLeast(order[i], Frontier(g, Elements(order[..i])));
      assert Less(order[i], other[i]);
    }
  }

  lemma FirstDifference(a: seq<string>, b: seq<string>) returns (i: nat)
    requires |a| == |b| && a != b
    ensures i < |a| && a[..i] == b[..i] && a[i] != b[i]
  {
    if a[0] != b[0] {
      i := 0;
    } else {
      assert a == [a[0]] + a[1..] && b == [b[0]] + b[1..];
      var k := FirstDifference(a[1..], b[1..]);
      i := k + 1;
      assert a[..i] == [a[0]] + a[1..][..k] && b[..i] == [b[0]] + b[1..][..k];
    }
  }

  // ----- when an order exists

  lemma PositionsIncrease(g: Graph, order: seq<string>, p: seq<string>, k: nat) returns (i: nat, j: nat)
    requires IsOrder(g, order) && Chain(g, p) && k < |p|
    ensures i < |order| && order[i] == p[0]
    ensures j < |order| && order[j] == p[k]
    ensures if k == 0 then i == j else i < j
    decreases k
  {
    assert p[k] in Elements(order);
    if k == 0 {
      i :| 0 <= i < |order| && order[i] == p[0];
      j := i;
    } else {
      var m;
      i, m := PositionsIncrease(g, order, p, k - 1);
      j :| 0 <= j < |order| && order[j] == p[k];
      assert p[k - 1] in Elements(order[..j]);
      var h :| 0 <= h < j && order[..j][h] == p[k - 1];
      assert order[h] == order[m];
    }
  }

  lemma OrderedIsAcyclic(g: Graph, order: seq<string>)
    requires IsOrder(g, order)
    ensures Acyclic(g) && Resolved(g)
  {
    forall p | Chain(g, p) && |p| >= 2 ensures p[0] != p[|p| - 1] {
      var i, j := PositionsIncrease(g, order, p, |p| - 1);
    }
    forall n | n in g ensures g[n] <= g.Keys {
      assert n in Elements(order);
      var i :| 0 <= i < |order| && order[i] == n;
      assert g[n] <= Elements(order[..i]) <= Elements(order);
    }
  }

  // ----- the algorithm

  /** The first dangling edge in key order: least task, then least dependency. */
  ghost predicate FirstDangling(g: Graph, dep: string, task: string) {
    && task in g && IsLeast(dep, g[task] - g.Keys)
    && forall n :: n in g && !(g[n] <= g.Keys) ==> Leq(task, n)
  }

  method BuildDeps(tasks: seq<TaskSpec>) returns (deps: Graph)
    ensures deps == DepsOf(tasks)
  {
    deps := map[];
    for i := 0 to |tasks|
      invariant deps == DepsOf(tasks[..i])
    {
      var task := tasks[i];
      if task.name !in deps {
        deps := deps[task.name := {}];
      }
      for k := 0 to |task.dependsOn|
        invariant task.name in deps
        invariant deps == DepsOf(tasks[..i])[task.name := deps[task.name]]
        invariant deps[task.name] ==
          (if task.name in DepsOf(tasks[..i]) then DepsOf(tasks[..i])[task.name] else {})
          + Elements(task.dependsOn[..k])
      {
        ElementsSnoc(task.dependsOn[..k], task.dependsOn[k]);
        assert task.dependsOn[..k + 1] == task.dependsOn[..k] + [task.dependsOn[k]];
        deps := deps[task.name := deps[task.name] + {task.dependsOn[k]}];
      }
      assert task.dependsOn[..|task.dependsOn|] == task.dependsOn;
      DepsOfSnoc(tasks, i);
    }
    assert tasks[..|tasks|] == tasks;
  }

  /** Appending a task adds its edges to whatever its name already had. */
  lemma DepsOfSnoc(tasks: seq<TaskSpec>, i: nat)
    requires i < |tasks|
    ensures var before, t := DepsOf(tasks[..i]), tasks[i];
      DepsOf(tasks[..i + 1]) == before[t.name :=
        (if t.name in before then before[t.name] else {}) + Elements(t.dependsOn)]
  {
    var before, after, t := DepsOf(tasks[..i]), DepsOf(tasks[..i + 1]), tasks[i];
    assert tasks[..i + 1] == tasks[..i] + [t];
    assert TaskNames(tasks[..i + 1]) == TaskNames(tasks[..i]) + {t.name} by {
      forall n | n in TaskNames(tasks[..i]) ensures n in TaskNames(tasks[..i + 1]) {
        var k :| 0 <= k < i && tasks[..i][k].name == n;
        assert tasks[..i + 1][k].name == n;
      }
      assert tasks[..i + 1][i].name == t.name;
    }
    forall n ensures Edges(tasks[..i + 1], n)
                     == Edges(tasks[..i], n) + (if n == t.name then Elements(t.dependsOn) else {})
      ensures n !in before ==> Edges(tasks[..i], n) == {}
    {
      EdgesSnoc(tasks, i, n);
    }
    var expected := before[t.name := (if t.name in before then before[t.name] else {}) + Elements(t.dependsOn)];
    assert after.Keys == expected.Keys;
    assert forall n :: n in after ==> after[n] == expected[n];
  }

  lemma EdgesSnoc(tasks: seq<TaskSpec>, i: nat, n: string)
    requires i < |tasks|
    ensures Edges(tasks[..i + 1], n) == Edges(tasks[..i], n)
                                        + (if n == tasks[i].name then Elements(tasks[i].dependsOn) else {})
    ensures n !in TaskNames(tasks[..i]) ==> Edges(tasks[..i], n) == {}
  {
    var a, b := tasks[..i], tasks[..i + 1];
    forall d | d in Edges(a, n) ensures d in Edges(b, n) {
      var k :| 0 <= k < |a| && a[k].name == n && d in a[k].dependsOn;
      assert b[k] == a[k];
    }
    forall d | d in Edges(b, n)
      ensures d in Edges(a, n) || (n == tasks[i].name && d in tasks[i].dependsOn)
    {
      var k :| 0 <= k < |b| && b[k].name == n && d in b[k].dependsOn;
      if k < i { assert a[k] == b[k]; }
    }
    if n == tasks[i].name {
      assert b[i] == tasks[i];
    }
  }

  /** The edge check: the first dangling edge, if there is one. */
  method CheckEdges(g: Graph) returns (r: Option<DomainError>)
    ensures r.None? <==> Resolved(g)
    ensures r.Some? ==> r.value.UnknownDependency? && FirstDangling(g, r.value.dep, r.value.task)
  {
    var names := SortedSeq(g.Keys);
    NamesOfGraph(g, names);
    for i := 0 to |names|
      invariant forall k :: 0 <= k < i ==> g[names[k]] <= g.Keys
    {
      var dangling := g[names[i]] - g.Keys;
      if dangling != {} {
        DanglingIsFirst(g, names, i);
        return Some(UnknownDependency(Least(dangling), names[i]));
      }
      assert forall d :: d in g[names[i]] ==> d in g.Keys || d in dangling;
    }
    NoneDangling(g, names);
    return None;
  }

  lemma NamesOfGraph(g: Graph, names: seq<string>)
    requires names == SortedSeq(g.Keys)
    ensures forall k :: 0 <= k < |names| ==> names[k] in g
  {
    assert forall k :: 0 <= k < |names| ==> names[k] in Elements(names);
  }

  lemma NoneDangling(g: Graph, names: seq<string>)
    requires names == SortedSeq(g.Keys)
    requires forall k :: 0 <= k < |names| ==> names[k] in g && g[names[k]] <= g.Keys
    ensures Resolved(g)
  {
    forall n | n in g ensures g[n] <= g.Keys {
      assert n in Elements(names);
    }
  }

  lemma DanglingIsFirst(g: Graph, names: seq<string>, i: nat)
    requires names == SortedSeq(g.Keys) && i < |names| && forall k :: 0 <= k < |names| ==> names[k] in g
    requires forall k :: 0 <= k < i ==> g[names[k]] <= g.Keys
    requires g[names[i]] - g.Keys != {}
    ensures FirstDangling(g, Least(g[names[i]] - g.Keys), names[i]) && !Resolved(g)
  {
    SortedSeqAscending(g.Keys);
    var dep := Least(g[names[i]] - g.Keys);
    assert dep in g[names[i]] && dep !in g.Keys;
    forall n | n in g && !(g[n] <= g.Keys) ensures Leq(names[i], n) {
      assert n in Elements(names);
      var k :| 0 <= k < |names| && names[k] == n;
      LaterIsGreater(names, i, k);
    }
  }

  /** One round: the tasks that `next` was the last dependency of. */
  lemma DrainedFrontier(g: Graph, emitted: set<string>, ready: set<string>, next: string)
    requires ready == Frontier(g, emitted) && next in ready
    ensures Frontier(g, emitted + {next})
            == (ready - {next})
               + (set n | n in g && next in g[n] - emitted && g[n] - emitted - {next} == {} && n !in emitted + {next})
  {
    var after := emitted + {next};
    var drained := set n | n in g && next in g[n] - emitted && g[n] - emitted - {next} == {} && n !in after;
    forall n | n in Frontier(g, after) ensures n in (ready - {next}) + drained {
      if next in g[n] {
        assert g[n] - emitted - {next} == {};
      } else {
        assert g[n] <= emitted;
      }
    }
    forall n | n in drained ensures n in Frontier(g, after) {
      var left := g[n] - emitted - {next};
      assert forall d :: d in g[n] ==> d in after || d in left;
    }
  }

  /** The frontier loop: a greedy sequence that cannot be continued. */
  method Kahn(g: Graph) returns (order: seq<string>)
    ensures Greedy(g, order)
    ensures Frontier(g, Elements(order)) == {}
  {
    var ready := set n | n in g && g[n] == {};
    var remaining := g;
    var emitted: set<string> := {};
    order := [];
    while ready != {}
      invariant emitted == Elements(order) <= g.Keys
      invariant Greedy(g, order)
      invariant remaining.Keys == g.Keys && forall n :: n in g ==> remaining[n] == g[n] - emitted
      invariant ready == Frontier(g, emitted)
      decreases g.Keys - emitted
    {
      var next := Least(ready);
      DrainedFrontier(g, emitted, ready, next);
      ExtendGreedy(g, order, next);
      var draining := set n | n in remaining && next in remaining[n] && remaining[n] - {next} == {};
      remaining := map n | n in remaining :: remaining[n] - {next};
      emitted := emitted + {next};
      order := order + [next];
      ready := (ready - {next}) + (set n | n in draining && n !in emitted);
    }
  }

  /** The order exists exactly for resolved acyclic graphs and is the least one. */
  ghost predicate TopoSpec(g: Graph, r: Result<seq<string>, DomainError>) {
    match r
    case Ok(order) =>
      && IsOrder(g, order)
      && (forall other :: IsOrder(g, other) ==> order == other || LexBefore(order, other))
    case Err(UnknownDependency(dep, task)) => FirstDangling(g, dep, task)
    case Err(CycleDetected) => Resolved(g) && !Acyclic(g)
  }

  method TopoOrder(tasks: seq<TaskSpec>) returns (r: Result<seq<string>, DomainError>)
    ensures TopoSpec(DepsOf(tasks), r)
    ensures r.Ok? <==> Resolved(DepsOf(tasks)) && Acyclic(DepsOf(tasks))
    ensures r.Err? && r.error.UnknownDependency? <==> !Resolved(DepsOf(tasks))
  {
    var g := BuildDeps(tasks);
    var dangling := CheckEdges(g);
    if dangling.Some? {
      return Err(dangling.value);
    }
    var order := Kahn(g);
    KahnOutcome(g, order);
    if |order| != |g| {
      return Err(CycleDetected);
    }
    return Ok(order);
  }

  /** A greedy sequence that cannot be continued is complete exactly in the acyclic case. */
  lemma KahnOutcome(g: Graph, order: seq<string>)
    requires Resolved(g) && Greedy(g, order) && Frontier(g, Elements(order)) == {}
    ensures |order| == |g| <==> Acyclic(g)
    ensures |order| == |g| ==> TopoSpec(g, Ok(order))
  {
    GreedyNoDuplicates(g, order);
    DistinctLength(order);
    if Acyclic(g) {
      EmptyFrontierIsDone(g, Elements(order));
      assert Elements(order) == g.Keys;
    }
    if |order| == |g.Keys| {
      SubsetOfEqualSize(Elements(order), g.Keys);
      OrderedIsAcyclic(g, order);
      forall other | IsOrder(g, other) ensures order == other || LexBefore(order, other) {
        GreedyIsLeast(g, order, other);
      }
    }
  }

  lemma ExtendGreedy(g: Graph, order: seq<string>, next: string)
    requires Greedy(g, order) && IsLeast(next, Frontier(g, Elements(order)))
    ensures Greedy(g, order + [next])
    ensures Elements(order + [next]) == Elements(order) + {next}
  {
    var longer := order + [next];
    forall i | 0 <= i < |longer| ensures IsLeast(longer[i], Frontier(g, Elements(longer[..i]))) {
      if i < |order| {
        assert longer[..i] == order[..i];
      } else {
        assert longer[..i] == order;
      }
    }
  }

  lemma SubsetOfEqualSize<T>(a: set<T>, b: set<T>)
    requires a <= b && |a| == |b|
    ensures a == b
  {
    assert b == a + (b - a) && |b| == |a| + |b - a|;
  }
}
