/**
 The critical path: distances relaxed along the stages, then followed backwards.
 */
module CriticalPath {
  import opened Domain
  import opened Names
  import opened Graph
  import opened Waves
  import opened DryRun

  type Dist = map<string, int>
  type Prev = map<string, Option<string>>

  // ----- what relaxation establishes

  /** `done` contains the dependencies of its members. */
  ghost predicate Closed(g: Graph, done: set<string>) {
    done <= g.Keys && forall n, d :: n in done && d in g[n] ==> d in done
  }

  /** A distance is 1, or one more than that of the dependency it came from. */
  ghost predicate Justified(g: Graph, done: set<string>, dist: Dist, prev: Prev, n: string)
    requires n in dist && n in prev && n in g
  {
    match prev[n]
    case None => dist[n] == 1
    case Some(d) => d in done && d in g[n] && d in dist && dist[n] == dist[d] + 1
  }

  /** Distances after the tasks in `done` have been relaxed. */
  ghost predicate Relaxed(g: Graph, done: set<string>, dist: Dist, prev: Prev) {
    && dist.Keys == prev.Keys == g.Keys
    && (forall n :: n in g ==> dist[n] >= 1)
    && (forall n, d :: n in g && d in g[n] && d in done && d in g ==> dist[n] >= dist[d] + 1)
    && (forall n {:trigger Justified(g, done, dist, prev, n)} :: n in g ==> Justified(g, done, dist, prev, n))
  }

  /** Relaxing the edges out of `t`: children closer than `t` permits move out by one. */
  ghost predicate RelaxedFrom(t: string, children: set<string>, dist: Dist, prev: Prev, dist': Dist, prev': Prev)
    requires t in dist
  {
    && dist'.Keys == dist.Keys && prev'.Keys == prev.Keys && dist.Keys <= prev.Keys
    && (forall c :: c in dist ==>
          if c in children && dist[t] + 1 > dist[c] then dist'[c] == dist[t] + 1 && prev'[c] == Some(t)
          else dist'[c] == dist[c] && prev'[c] == prev[c])
  }

  /** One task `t` is relaxed after `done`: its dependents are all still ahead. */
  ghost predicate RelaxStep(g: Graph, done: set<string>, t: string, children: set<string>,
                            dist: Dist, prev: Prev, dist': Dist, prev': Prev)
  {
    && Relaxed(g, done, dist, prev) && t in g
    && (forall c :: c in children <==> c in g && t in g[c])
    && (forall c :: c in children ==> c !in done && c != t)
    && RelaxedFrom(t, children, dist, prev, dist', prev')
  }

  lemma RelaxTask(g: Graph, done: set<string>, t: string, children: set<string>,
                  dist: Dist, prev: Prev, dist': Dist, prev': Prev)
    requires RelaxStep(g, done, t, children, dist, prev, dist', prev')
    ensures Relaxed(g, done + {t}, dist', prev')
  {
    forall n, d | n in g && d in g[n] && d in done + {t} && d in g ensures dist'[n] >= dist'[d] + 1 {
      RelaxEdge(g, done, t, children, dist, prev, dist', prev', n, d);
    }
    forall n | n in g ensures Justified(g, done + {t}, dist', prev', n) {
      RelaxJustified(g, done, t, children, dist, prev, dist', prev', n);
    }
    assert forall n :: n in g ==> dist'[n] >= dist[n];
  }

  lemma RelaxEdge(g: Graph, done: set<string>, t: string, children: set<string>,
                  dist: Dist, prev: Prev, dist': Dist, prev': Prev, n: string, d: string)
    requires RelaxStep(g, done, t, children, dist, prev, dist', prev')
    requires n in g && d in g[n] && d in g && d in done + {t}
    ensures dist'[n] >= dist'[d] + 1
  {
    assert d !in children;
    assert d == t ==> n in children;
  }

  lemma RelaxJustified(g: Graph, done: set<string>, t: string, children: set<string>,
                       dist: Dist, prev: Prev, dist': Dist, prev': Prev, n: string)
    requires RelaxStep(g, done, t, children, dist, prev, dist', prev') && n in g
    ensures Justified(g, done + {t}, dist', prev', n)
  {
    assert Justified(g, done, dist, prev, n);
    assert prev'[n].Some? ==> prev'[n].value !in children;
  }

  /** In a closed set, the dependents of an outside task are outside too. */
  lemma DependentsAhead(g: Graph, done: set<string>, t: string)
    requires Closed(g, done) && t in g && t !in done && g[t] <= done
    ensures forall c :: c in g && t in g[c] ==> c !in done && c != t
    ensures Closed(g, done + {t})
  {
  }

  /** Distances bound every chain ... */
  lemma {:induction false} DistBoundsChains(g: Graph, dist: Dist, prev: Prev, p: seq<string>, n: string)
    requires Relaxed(g, g.Keys, dist, prev) && ChainTo(g, p, n)
    ensures |p| <= dist[n]
    decreases |p|
  {
    if |p| >= 2 {
      ChainSlice(g, p, 0, |p| - 1);
      DistBoundsChains(g, dist, prev, p[0..|p| - 1], p[|p| - 2]);
    }
  }

  /** The path the walk collects, from a task back to a task without predecessor. */
  function WalkBack(g: Graph, dist: Dist, prev: Prev, n: string): (p: seq<string>)
    requires Relaxed(g, g.Keys, dist, prev) && n in g
    ensures ChainTo(g, p, n) && |p| == dist[n]
    decreases dist[n]
  {
    assert Justified(g, g.Keys, dist, prev, n);
    match prev[n]
    case None => [n]
    case Some(d) =>
      var q := WalkBack(g, dist, prev, d);
      ChainExtend(g, q, n);
      q + [n]
  }

  /** ... and are attained: the distance of a task is the length of its longest chain. */
  lemma DistIsLongestChain(g: Graph, dist: Dist, prev: Prev, n: string)
    requires Relaxed(g, g.Keys, dist, prev) && n in g
    ensures LongestChain(g, n, dist[n])
  {
    var p := WalkBack(g, dist, prev, n);
    forall q | ChainTo(g, q, n) ensures |q| <= dist[n] { DistBoundsChains(g, dist, prev, q, n); }
  }

  // ----- the loops

  method RelaxChildren(t: string, children: seq<string>, dist: Dist, prev: Prev)
    returns (dist': Dist, prev': Prev)
    requires t in dist && dist.Keys <= prev.Keys
    requires forall c :: c in children ==> c in dist && c != t
    ensures RelaxedFrom(t, Elements(children), dist, prev, dist', prev')
  {
    dist', prev' := dist, prev;
    var current := dist[t];
    for k := 0 to |children|
      invariant RelaxedFrom(t, Elements(children[..k]), dist, prev, dist', prev')
    {
      var child := children[k];
      assert children[..k + 1] == children[..k] + [child];
      assert Elements(children[..k + 1]) == Elements(children[..k]) + {child};
      if current + 1 > dist'[child] {
        dist' := dist'[child := current + 1];
        prev' := prev'[child := Some(t)];
      }
    }
    assert children[..|children|] == children;
  }

  /** The children listed for `t` are the tasks that depend on it. */
  lemma ListedAreDependents(tasks: seq<TaskSpec>, dependents: Dependents, t: string, c: string)
    requires UniqueNames(tasks) && Indexes(tasks, dependents) && t in dependents
    ensures c in Elements(dependents[t]) <==> c in DepsOf(tasks) && t in DepsOf(tasks)[c]
  {
    assert Listed(dependents, t, c) == multiset(DependsOn(tasks, c))[t];
    assert c in dependents[t] <==> multiset(dependents[t])[c] > 0;
    assert t in DependsOn(tasks, c) <==> multiset(DependsOn(tasks, c))[t] > 0;
    if c in TaskNames(tasks) { DependsOnIsDeps(tasks, c); }
  }

  ghost predicate RelaxedTo(g: Graph, done: set<string>, dist: Dist, prev: Prev) {
    Closed(g, done) && Relaxed(g, done, dist, prev)
  }

  method RelaxOne(tasks: seq<TaskSpec>, t: string, dependents: Dependents,
                  dist0: Dist, prev0: Prev, ghost g: Graph, ghost done: set<string>)
    returns (dist: Dist, prev: Prev)
    requires UniqueNames(tasks) && Indexes(tasks, dependents) && g == DepsOf(tasks)
    requires t in dependents && t in g && t !in done && g[t] <= done
    requires Closed(g, done) && Relaxed(g, done, dist0, prev0)
    ensures Closed(g, done + {t}) && Relaxed(g, done + {t}, dist, prev)
  {
    DependentsAhead(g, done, t);
    ChildrenAreDependents(tasks, dependents, g, t);
    dist, prev := RelaxChildren(t, dependents[t], dist0, prev0);
    RelaxTask(g, done, t, Elements(dependents[t]), dist0, prev0, dist, prev);
  }

  method RelaxStage(tasks: seq<TaskSpec>, stage: seq<string>, dependents: Dependents,
                    dist0: Dist, prev0: Prev, ghost g: Graph, ghost done: set<string>)
    returns (dist: Dist, prev: Prev)
    requires UniqueNames(tasks) && TaskNames(tasks) <= dependents.Keys && Indexes(tasks, dependents)
    requires g == DepsOf(tasks) && stage == SortedSeq(Frontier(g, done))
    requires RelaxedTo(g, done, dist0, prev0)
    ensures RelaxedTo(g, done + Elements(stage), dist, prev)
  {
    dist, prev := dist0, prev0;
    WholeStage(done, stage);
    for j := 0 to |stage|
      invariant RelaxedTo(g, done + Elements(stage[..j]), dist, prev)
    {
      dist, prev := RelaxNth(tasks, stage, j, dependents, dist, prev, g, done);
    }
  }

  lemma WholeStage(done: set<string>, stage: seq<string>)
    ensures done + Elements(stage[..0]) == done && stage[..|stage|] == stage
  {
  }

  /** Relaxes from the `j`-th task of the stage. */
  method RelaxNth(tasks: seq<TaskSpec>, stage: seq<string>, j: nat, dependents: Dependents,
                  dist0: Dist, prev0: Prev, ghost g: Graph, ghost done: set<string>)
    returns (dist: Dist, prev: Prev)
    requires UniqueNames(tasks) && TaskNames(tasks) <= dependents.Keys && Indexes(tasks, dependents)
    requires g == DepsOf(tasks) && stage == SortedSeq(Frontier(g, done)) && j < |stage|
    requires RelaxedTo(g, done + Elements(stage[..j]), dist0, prev0)
    ensures RelaxedTo(g, done + Elements(stage[..j + 1]), dist, prev)
  {
    FrontierMember(g, done, stage, j);
    OneMore(done, stage, j);
    dist, prev := RelaxOne(tasks, stage[j], dependents, dist0, prev0, g, done + Elements(stage[..j]));
  }

  lemma ChildrenAreDependents(tasks: seq<TaskSpec>, dependents: Dependents, g: Graph, t: string)
    requires UniqueNames(tasks) && Indexes(tasks, dependents) && t in dependents
    requires g == DepsOf(tasks) && t in g && t !in g[t]
    ensures forall c :: c in Elements(dependents[t]) <==> c in g && t in g[c]
    ensures forall c :: c in dependents[t] ==> c in g && c != t
  {
    forall c ensures c in Elements(dependents[t]) <==> c in g && t in g[c] {
      ListedAreDependents(tasks, dependents, t, c);
    }
    forall c | c in dependents[t] ensures c in g && c != t { assert c in Elements(dependents[t]); }
  }

  lemma FrontierMember(g: Graph, done: set<string>, stage: seq<string>, j: nat)
    requires stage == SortedSeq(Frontier(g, done)) && j < |stage|
    ensures stage[j] in g && stage[j] !in done && stage[j] !in g[stage[j]] && g[stage[j]] <= done
    ensures stage[j] !in Elements(stage[..j])
  {
    assert stage[j] in Elements(stage);
    assert forall x :: x in Elements(stage[..j]) ==> x != stage[j];
  }

  lemma OneMore(done: set<string>, stage: seq<string>, j: nat)
    requires j < |stage|
    ensures done + Elements(stage[..j + 1]) == done + Elements(stage[..j]) + {stage[j]}
  {
    assert stage[..j + 1] == stage[..j] + [stage[j]];
  }

  /** The end of the path: the first name, in key order, at the greatest distance. */
  method EndTask(dist: Dist, first: string) returns (end: string)
    requires forall n :: n in dist ==> dist[n] > 0
    ensures dist != map[] ==>
              end in dist && forall n :: n in dist ==> dist[n] < dist[end] || (dist[n] == dist[end] && Leq(end, n))
    ensures dist == map[] ==> end == first
  {
    var names := SortedSeq(dist.Keys);
    ListedOnly(dist.Keys, names);
    ghost var at;
    end, at := FirstGreatest(dist, names, first);
    if names != [] {
      FirstAmongEqual(dist, names, at);
    } else {
      assert dist == map[];
    }
  }

  method FirstGreatest(dist: Dist, names: seq<string>, first: string) returns (end: string, ghost at: nat)
    requires forall k :: 0 <= k < |names| ==> names[k] in dist && dist[names[k]] > 0
    ensures names == [] ==> end == first
    ensures names != [] ==> at < |names| && end == names[at] && forall k :: 0 <= k < |names| ==>
              dist[names[k]] < dist[names[at]] || (dist[names[k]] == dist[names[at]] && at <= k)
  {
    end, at := first, 0;
    var max := 0;
    for i := 0 to |names|
      invariant if i == 0 then max == 0 && end == first else at < i && end == names[at] && dist[end] == max
      invariant forall k :: 0 <= k < i ==> dist[names[k]] < max || (dist[names[k]] == max && at <= k)
    {
      if dist[names[i]] > max {
        max := dist[names[i]];
        end := names[i];
        at := i;
      }
    }
  }

  /** First by index is first by name. */
  lemma FirstAmongEqual(dist: Dist, names: seq<string>, at: nat)
    requires names == SortedSeq(dist.Keys) && at < |names| && forall k :: 0 <= k < |names| ==> names[k] in dist
    requires forall k :: 0 <= k < |names| ==>
      dist[names[k]] < dist[names[at]] || (dist[names[k]] == dist[names[at]] && at <= k)
    ensures forall n :: n in dist ==>
      dist[n] < dist[names[at]] || (dist[n] == dist[names[at]] && Leq(names[at], n))
  {
    SortedSeqAscending(dist.Keys);
    AllListed(dist.Keys, names);
    forall n | n in dist ensures dist[n] < dist[names[at]] || (dist[n] == dist[names[at]] && Leq(names[at], n)) {
      var k :| 0 <= k < |names| && names[k] == n;
      if at <= k { LaterIsGreater(names, at, k); }
    }
  }

  lemma ListedOnly(s: set<string>, names: seq<string>)
    requires names == SortedSeq(s)
    ensures forall k :: 0 <= k < |names| ==> names[k] in s
  {
    assert forall k :: 0 <= k < |names| ==> names[k] in Elements(names);
  }

  lemma AllListed(s: set<string>, names: seq<string>)
    requires names == SortedSeq(s)
    ensures forall n :: n in s ==> exists k :: 0 <= k < |names| && names[k] == n
  {
    assert forall n :: n in s ==> n in Elements(names);
  }

  function Reverse(s: seq<string>): (r: seq<string>)
    ensures |r| == |s|
  {
    if s == [] then [] else Reverse(s[1..]) + [s[0]]
  }

  lemma {:induction false} ReverseSnoc(s: seq<string>, x: string)
    ensures Reverse(s + [x]) == [x] + Reverse(s)
  {
    if s != [] {
      ReverseSnoc(s[1..], x);
      assert (s + [x])[1..] == s[1..] + [x];
    }
  }

  lemma WalkStep(g: Graph, dist: Dist, prev: Prev, n: string, collected: seq<string>)
    requires Relaxed(g, g.Keys, dist, prev) && n in g
    ensures n in prev && n in dist
    ensures match prev[n]
      case None => WalkBack(g, dist, prev, n) == [n]
      case Some(d) => && d in g && d in dist && dist[d] < dist[n]
                      && WalkBack(g, dist, prev, n) + Reverse(collected)
                         == WalkBack(g, dist, prev, d) + ([n] + Reverse(collected))
  {
    assert Justified(g, g.Keys, dist, prev, n);
  }

  /** Follows predecessors from the end task and reverses what it collected. */
  method FollowBack(end: string, dist: Dist, prev: Prev, ghost g: Graph) returns (path: seq<string>)
    requires Relaxed(g, g.Keys, dist, prev)
    ensures end in g ==> path == WalkBack(g, dist, prev, end)
    ensures end !in g ==> path == [end]
  {
    var collected: seq<string> := [];
    var curr: Option<string> := Some(end);
    ghost var whole := if end in g then WalkBack(g, dist, prev, end) else [end];
    while curr.Some?
      invariant curr.Some? && curr.value in g ==> whole == WalkBack(g, dist, prev, curr.value) + Reverse(collected)
      invariant curr.Some? && curr.value !in g ==> whole == [curr.value] + Reverse(collected)
      invariant curr.None? ==> whole == Reverse(collected)
      decreases match curr case Some(n) => (if n in g then dist[n] else 0) + 1 case None => 0
    {
      var node := curr.value;
      if node in g { WalkStep(g, dist, prev, node, collected); }
      ReverseSnoc(collected, node);
      collected := collected + [node];
      curr := if node in prev then prev[node] else None;
    }
    path := Reverse(collected);
  }

  /** What the report's critical path is for a non-empty definition. */
  ghost predicate IsCriticalPath(g: Graph, path: seq<string>) {
    Chain(g, path) && forall p :: Chain(g, p) ==> |p| <= |path|
  }

  method RelaxAll(tasks: seq<TaskSpec>, stages: seq<seq<string>>, dependents: Dependents, ghost g: Graph)
    returns (dist: Dist, prev: Prev)
    requires UniqueNames(tasks) && TaskNames(tasks) <= dependents.Keys && Indexes(tasks, dependents)
    requires g == DepsOf(tasks) && Resolved(g) && Acyclic(g) && StagesAreWaves(g, stages)
    ensures Relaxed(g, g.Keys, dist, prev)
  {
    dist := map n | n in TaskNames(tasks) :: 1;
    prev := map n | n in TaskNames(tasks) :: None;
    NothingRelaxed(g, dist, prev);
    for k := 0 to |stages|
      invariant RelaxedTo(g, Emitted(g, k), dist, prev)
    {
      dist, prev := RelaxWave(tasks, stages, k, dependents, dist, prev, g);
    }
    EmptyWaveIsDone(g, |stages|);
  }

  lemma NothingRelaxed(g: Graph, dist: Dist, prev: Prev)
    requires dist.Keys == prev.Keys == g.Keys && forall n :: n in g ==> dist[n] == 1 && prev[n] == None
    ensures RelaxedTo(g, Emitted(g, 0), dist, prev)
  {
  }

  method RelaxWave(tasks: seq<TaskSpec>, stages: seq<seq<string>>, k: nat, dependents: Dependents,
                   dist0: Dist, prev0: Prev, ghost g: Graph)
    returns (dist: Dist, prev: Prev)
    requires UniqueNames(tasks) && TaskNames(tasks) <= dependents.Keys && Indexes(tasks, dependents)
    requires g == DepsOf(tasks) && StagesAreWaves(g, stages) && k < |stages|
    requires RelaxedTo(g, Emitted(g, k), dist0, prev0)
    ensures RelaxedTo(g, Emitted(g, k + 1), dist, prev)
  {
    StageStep(g, stages, k);
    dist, prev := RelaxStage(tasks, stages[k], dependents, dist0, prev0, g, Emitted(g, k));
  }

  lemma StageStep(g: Graph, stages: seq<seq<string>>, k: nat)
    requires StagesSoFar(g, stages) && k < |stages|
    ensures stages[k] == SortedSeq(Frontier(g, Emitted(g, k)))
    ensures Emitted(g, k + 1) == Emitted(g, k) + Elements(stages[k])
  {
    EmittedNext(g, k);
  }

  method LongestPath(tasks: seq<TaskSpec>, stages: seq<seq<string>>, dependents: Dependents)
    returns (path: seq<string>)
    requires UniqueNames(tasks) && TaskNames(tasks) <= dependents.Keys && Indexes(tasks, dependents)
    requires Resolved(DepsOf(tasks)) && Acyclic(DepsOf(tasks)) && StagesAreWaves(DepsOf(tasks), stages)
    ensures tasks != [] ==> IsCriticalPath(DepsOf(tasks), path) && |path| == |stages|
    ensures tasks == [] ==> path == [""]
  {
    ghost var g := DepsOf(tasks);
    var dist, prev := RelaxAll(tasks, stages, dependents, g);
    var first := if tasks != [] then tasks[0].name else "";
    var end := EndTask(dist, first);
    path := FollowBack(end, dist, prev, g);
    if tasks != [] {
      assert tasks[0].name in g;
      LongestOverall(g, dist, prev, end, |stages|);
    } else {
      assert dist.Keys == {};
    }
  }

  lemma LongestOverall(g: Graph, dist: Dist, prev: Prev, end: string, count: nat)
    requires Resolved(g) && Acyclic(g) && WaveCount(g, count) && Relaxed(g, g.Keys, dist, prev)
    requires end in g && forall n :: n in dist ==> dist[n] <= dist[end]
    ensures IsCriticalPath(g, WalkBack(g, dist, prev, end))
    ensures dist[end] == count
  {
    var path := WalkBack(g, dist, prev, end);
    forall p | Chain(g, p) ensures |p| <= |path| {
      DistBoundsChains(g, dist, prev, p, p[|p| - 1]);
    }
    CountIsLongestChain(g, count);
    if count > 0 {
      var p :| Chain(g, p) && |p| == count;
    }
  }

  // ----- the report

  method WidestStage(stages: seq<seq<string>>) returns (width: nat)
    ensures forall k :: 0 <= k < |stages| ==> |stages[k]| <= width
    ensures if stages == [] then width == 0 else exists k :: 0 <= k < |stages| && |stages[k]| == width
  {
    width := 0;
    for k := 0 to |stages|
      invariant forall i :: 0 <= i < k ==> |stages[i]| <= width
      invariant if k == 0 then width == 0 else exists i :: 0 <= i < k && |stages[i]| == width
    {
      if |stages[k]| > width || k == 0 {
        width := |stages[k]|;
      }
    }
  }

  method SimulateWorkflow(tasks: seq<TaskSpec>) returns (r: Result<Report, TopoOrder.DomainError>)
    requires UniqueNames(tasks)
    ensures r.Ok? <==> Resolved(DepsOf(tasks)) && Acyclic(DepsOf(tasks))
    ensures r.Err? && r.error.CycleDetected? <==> Resolved(DepsOf(tasks)) && !Acyclic(DepsOf(tasks))
    ensures r.Ok? ==> StagesAreWaves(DepsOf(tasks), r.value.stages)
    ensures r.Ok? ==> r.value.totalTasks == |tasks|
    ensures r.Ok? && tasks != [] ==>
              && IsCriticalPath(DepsOf(tasks), r.value.criticalPath)
              && |r.value.criticalPath| == |r.value.stages|
    ensures r.Ok? && tasks == [] ==> r.value == Report(0, 0, [], [""])
    ensures r.Ok? ==> (forall k :: 0 <= k < |r.value.stages| ==> |r.value.stages[k]| <= r.value.maxParallelism)
    ensures r.Ok? && tasks != [] ==>
              exists k :: 0 <= k < |r.value.stages| && |r.value.stages[k]| == r.value.maxParallelism
  {
    var order := TopoOrder.TopoOrder(tasks);
    if order.Err? {
      return Err(order.error);
    }
    var inDegree, dependents := BuildIndexes(tasks);
    var stages := Stages(tasks, inDegree, dependents);
    var width := WidestStage(stages);
    var path := LongestPath(tasks, stages, dependents);
    if tasks == [] {
      NoTasksNoStages(stages);
    }
    return Ok(Report(|tasks|, width, stages, path));
  }

  lemma NoTasksNoStages(stages: seq<seq<string>>)
    requires StagesAreWaves(DepsOf([]), stages)
    ensures stages == []
  {
    assert DepsOf([]) == map[];
    assert Wave(DepsOf([]), 0) == {};
  }

  /** Every task lies in exactly one stage, and the stage index is its longest chain. */
  lemma StageIsLongestChain(tasks: seq<TaskSpec>, stages: seq<seq<string>>, n: string) returns (k: nat)
    requires Resolved(DepsOf(tasks)) && Acyclic(DepsOf(tasks)) && StagesAreWaves(DepsOf(tasks), stages)
    requires n in TaskNames(tasks)
    ensures k < |stages| && n in stages[k] && LongestChain(DepsOf(tasks), n, k + 1)
    ensures forall j :: 0 <= j < |stages| && n in stages[j] ==> j == k
    ensures multiset(stages[k])[n] == 1
  {
    var g := DepsOf(tasks);
    EmptyWaveIsDone(g, |stages|);
    k := FindWave(g, n, |stages|);
    assert n in Elements(stages[k]);
    WaveIffLongestChain(g, k, n);
    forall j | 0 <= j < |stages| && n in stages[j] ensures j == k {
      assert n in Elements(stages[j]);
      WavesDisjoint(g, j, k, n);
    }
    NoDuplicatesMultiset(stages[k]);
    assert n in multiset(stages[k]);
  }

  /** No division of the tasks into mutually independent groups needs fewer groups than there are stages. */
  lemma StagesAreFewest(tasks: seq<TaskSpec>, stages: seq<seq<string>>, group: map<string, nat>, m: nat)
    requires Resolved(DepsOf(tasks)) && Acyclic(DepsOf(tasks)) && StagesAreWaves(DepsOf(tasks), stages)
    requires Grouping(DepsOf(tasks), group, m)
    ensures |stages| <= m
  {
    WavesAreMinimalGrouping(DepsOf(tasks), |stages|, group, m);
  }

  // ----- what the reported parallelism is not

  /** One task with two dependents, and two tasks on their own. */
  function Fork(a: string, b: string, c: string, d: string, e: string): seq<TaskSpec> {
    [TaskSpec(a, [], None), TaskSpec(b, [a], None), TaskSpec(c, [a], None),
     TaskSpec(d, [], None), TaskSpec(e, [], None)]
  }

  lemma ForkGraph(a: string, b: string, c: string, d: string, e: string)
    requires NoDuplicates([a, b, c, d, e])
    ensures var g := DepsOf(Fork(a, b, c, d, e));
      && g.Keys == {a, b, c, d, e} && g[a] == {} && g[b] == {a} && g[c] == {a} && g[d] == {} && g[e] == {}
  {
    var tasks := Fork(a, b, c, d, e);
    var names := [a, b, c, d, e];
    assert forall i, j :: 0 <= i < j < 5 ==> names[i] != names[j];
    assert forall i :: 0 <= i < 5 ==> tasks[i].name == names[i];
    assert tasks[0].name == a && tasks[1].name == b && tasks[2].name == c && tasks[3].name == d && tasks[4].name == e;
    assert TaskNames(tasks) == {a, b, c, d, e};
    assert forall i :: 0 <= i < 5 ==> forall x :: x in tasks[i].dependsOn <==> (i == 1 || i == 2) && x == a;
    forall i | 0 <= i < 5 ensures Edges(tasks, names[i]) == if i == 1 || i == 2 then {a} else {} {
      assert i == 1 || i == 2 ==> a in tasks[i].dependsOn;
    }
    assert Edges(tasks, names[0]) == {} && Edges(tasks, names[1]) == {a} && Edges(tasks, names[2]) == {a};
    assert Edges(tasks, names[3]) == {} && Edges(tasks, names[4]) == {};
  }

  lemma ForkWaves(g: Graph, a: string, b: string, c: string, d: string, e: string, k: nat)
    requires NoDuplicates([a, b, c, d, e])
    requires g.Keys == {a, b, c, d, e} && g[a] == {} && g[b] == {a} && g[c] == {a} && g[d] == {} && g[e] == {}
    ensures |Wave(g, k)| <= 3
  {
    var names := [a, b, c, d, e];
    assert forall i, j :: 0 <= i < j < 5 ==> names[i] != names[j];
    assert names[0] == a && names[1] == b && names[2] == c && names[3] == d && names[4] == e;
    assert Wave(g, 0) == {a, d, e};
    if k > 0 {
      forall n | n in Wave(g, k) ensures n in {b, c} {
        if n in Wave(g, 0) { WavesDisjoint(g, 0, k, n); }
      }
      SubsetSize(Wave(g, k), {b, c});
    }
  }

  /**
   `max_parallelism` is the widest wave, not the largest set of independent tasks:
   here no stage is wider than three, and four tasks are mutually independent.
   */
  lemma WidestStageIsNotLargestIndependentSet(
    a: string, b: string, c: string, d: string, e: string, stages: seq<seq<string>>)
    requires NoDuplicates([a, b, c, d, e]) && StagesAreWaves(DepsOf(Fork(a, b, c, d, e)), stages)
    ensures forall k :: 0 <= k < |stages| ==> |stages[k]| <= 3
    ensures |{b, c, d, e}| == 4
    ensures forall x, y :: x in {b, c, d, e} && y in {b, c, d, e} && x != y ==>
      Independent(DepsOf(Fork(a, b, c, d, e)), x, y)
  {
    var g := DepsOf(Fork(a, b, c, d, e));
    var names := [a, b, c, d, e];
    assert forall i, j :: 0 <= i < j < 5 ==> names[i] != names[j];
    assert names[0] == a && names[1] == b && names[2] == c && names[3] == d && names[4] == e;
    ForkGraph(a, b, c, d, e);
    forall k | 0 <= k < |stages| ensures |stages[k]| <= 3 {
      assert stages[k] == SortedSeq(Wave(g, k));
      ForkWaves(g, a, b, c, d, e, k);
    }
    forall x, y | x in {b, c, d, e} && y in {b, c, d, e} ensures Independent(g, x, y) {
      NoAncestor(g, a, x, y);
      NoAncestor(g, a, y, x);
    }
  }

  lemma NoAncestor(g: Graph, a: string, x: string, y: string)
    requires x != a && forall n :: n in g ==> g[n] <= {a}
    ensures !Ancestor(g, x, y)
  {
    forall p | ChainTo(g, p, y) && |p| >= 2 ensures p[0] != x { assert p[0] in g[p[1]]; }
  }
}
