/**
 The first half of `simulate_workflow`: wave decomposition by in-degree counting.
 */
module DryRun {
  import opened Domain
  import opened Names
  import opened Graph
  import opened Waves
  import TopoOrder

  datatype Report = Report(
    totalTasks: nat,
    maxParallelism: nat,
    stages: seq<seq<string>>,
    criticalPath: seq<string>)

  // ----- tasks by name

  /** `iter().find(|t| t.name == n)`. */
  function Find(tasks: seq<TaskSpec>, n: string): (r: Option<TaskSpec>)
    ensures r.Some? <==> n in TaskNames(tasks)
    ensures r.Some? ==> r.value.name == n && r.value in tasks
  {
    if tasks == [] then None
    else if tasks[0].name == n then
      assert n in TaskNames(tasks);
      Some(tasks[0])
    else
      assert TaskNames(tasks) == {tasks[0].name} + TaskNames(tasks[1..]) by { TaskNamesTail(tasks); }
      Find(tasks[1..], n)
  }

  lemma TaskNamesTail(tasks: seq<TaskSpec>)
    requires tasks != []
    ensures TaskNames(tasks) == {tasks[0].name} + TaskNames(tasks[1..])
  {
    assert tasks == [tasks[0]] + tasks[1..];
    forall n | n in TaskNames(tasks[1..]) ensures n in TaskNames(tasks) {
      var i :| 0 <= i < |tasks[1..]| && tasks[1..][i].name == n;
      assert tasks[i + 1].name == n;
    }
    forall n | n in TaskNames(tasks) ensures n == tasks[0].name || n in TaskNames(tasks[1..]) {
      var i :| 0 <= i < |tasks| && tasks[i].name == n;
      if i > 0 { assert tasks[1..][i - 1].name == n; }
    }
  }

  /** With unique names, the found task carries exactly the edges of the graph. */
  lemma FindUnique(tasks: seq<TaskSpec>, i: nat)
    requires UniqueNames(tasks) && i < |tasks|
    ensures Find(tasks, tasks[i].name) == Some(tasks[i])
    ensures tasks[i].name in DepsOf(tasks)
    ensures DepsOf(tasks)[tasks[i].name] == Elements(tasks[i].dependsOn)
  {
    var n := tasks[i].name;
    assert n in TaskNames(tasks);
    assert Find(tasks, n).Some?;
    var t := Find(tasks, n).value;
    var k :| 0 <= k < |tasks| && tasks[k] == t;
    assert k == i;
  }

  function DependsOn(tasks: seq<TaskSpec>, n: string): seq<string> {
    match Find(tasks, n)
    case Some(t) => t.dependsOn
    case None => []
  }

  lemma DependsOnIsDeps(tasks: seq<TaskSpec>, n: string)
    requires UniqueNames(tasks) && n in TaskNames(tasks)
    ensures DepsOf(tasks)[n] == Elements(DependsOn(tasks, n))
  {
    var i :| 0 <= i < |tasks| && tasks[i].name == n;
    FindUnique(tasks, i);
  }

  // ----- counting unmet dependencies

  /** How many entries of `ds` are outside `done`, repeats included. */
  function Unmet(ds: seq<string>, done: set<string>): nat {
    if ds == [] then 0 else (if ds[0] in done then 0 else 1) + Unmet(ds[1..], done)
  }

  lemma {:induction false} UnmetZero(ds: seq<string>, done: set<string>)
    ensures Unmet(ds, done) == 0 <==> Elements(ds) <= done
  {
    if ds != [] {
      UnmetZero(ds[1..], done);
      assert ds == [ds[0]] + ds[1..];
    }
  }

  /** Completing one more task settles each of its occurrences. */
  lemma {:induction false} UnmetSettle(ds: seq<string>, done: set<string>, t: string)
    requires t !in done
    ensures Unmet(ds, done + {t}) + multiset(ds)[t] == Unmet(ds, done)
  {
    if ds != [] {
      UnmetSettle(ds[1..], done, t);
      assert ds == [ds[0]] + ds[1..];
    }
  }

  lemma {:induction false} UnmetNothing(ds: seq<string>)
    ensures Unmet(ds, {}) == |ds|
  {
    if ds != [] { UnmetNothing(ds[1..]); }
  }

  // ----- the two indexes

  type Dependents = map<string, seq<string>>

  function Listed(dependents: Dependents, t: string, c: string): nat {
    if t in dependents then multiset(dependents[t])[c] else 0
  }

  /** `dependents[t]` lists each task once per occurrence of `t` among its dependencies. */
  ghost predicate Indexes(tasks: seq<TaskSpec>, dependents: Dependents) {
    forall t, c :: Listed(dependents, t, c) == multiset(DependsOn(tasks, c))[t]
  }

  /** The same while the dependencies of task `i` are being entered. */
  function PartCount(tasks: seq<TaskSpec>, i: nat, k: nat, t: string, c: string): nat
    requires i < |tasks| && k <= |tasks[i].dependsOn|
  {
    multiset(DependsOn(tasks[..i], c))[t]
    + (if c == tasks[i].name then multiset(tasks[i].dependsOn[..k])[t] else 0)
  }

  ghost predicate IndexesPart(tasks: seq<TaskSpec>, i: nat, k: nat, dependents: Dependents)
    requires i < |tasks| && k <= |tasks[i].dependsOn|
  {
    forall t, c :: Listed(dependents, t, c) == PartCount(tasks, i, k, t, c)
  }

  lemma DependsOnSnoc(tasks: seq<TaskSpec>, i: nat, c: string)
    requires UniqueNames(tasks) && i < |tasks|
    ensures DependsOn(tasks[..i + 1], c)
            == if c == tasks[i].name then tasks[i].dependsOn else DependsOn(tasks[..i], c)
    ensures DependsOn(tasks[..i], tasks[i].name) == []
  {
    var a, b := tasks[..i], tasks[..i + 1];
    assert UniqueNames(a) && UniqueNames(b);
    if c in TaskNames(b) {
      var k :| 0 <= k < |b| && b[k].name == c;
      FindUnique(b, k);
      if k < i {
        assert a[k] == b[k];
        FindUnique(a, k);
      }
    }
    NamesSnoc(tasks, i);
    assert b[i].name == tasks[i].name;
    assert tasks[i].name !in TaskNames(a);
  }

  lemma EnterOne(tasks: seq<TaskSpec>, i: nat, k: nat, dependents: Dependents)
    requires i < |tasks| && k < |tasks[i].dependsOn| && IndexesPart(tasks, i, k, dependents)
    ensures var dep := tasks[i].dependsOn[k];
      IndexesPart(tasks, i, k + 1,
        dependents[dep := (if dep in dependents then dependents[dep] else []) + [tasks[i].name]])
  {
    var deps := tasks[i].dependsOn;
    var after := dependents[deps[k] := (if deps[k] in dependents then dependents[deps[k]] else []) + [tasks[i].name]];
    assert deps[..k + 1] == deps[..k] + [deps[k]];
    forall t, c ensures Listed(after, t, c) == PartCount(tasks, i, k + 1, t, c) {
      assert Listed(dependents, t, c) == PartCount(tasks, i, k, t, c);
    }
  }

  /** Enters one task under each of its dependencies. */
  method EnterDeps(tasks: seq<TaskSpec>, i: nat, before: Dependents) returns (dependents: Dependents)
    requires UniqueNames(tasks) && i < |tasks| && Indexes(tasks[..i], before)
    ensures before.Keys <= dependents.Keys && Indexes(tasks[..i + 1], dependents)
  {
    var task := tasks[i];
    dependents := before;
    StartEntering(tasks, i, before);
    for k := 0 to |task.dependsOn|
      invariant before.Keys <= dependents.Keys
      invariant IndexesPart(tasks, i, k, dependents)
    {
      var dep := task.dependsOn[k];
      EnterOne(tasks, i, k, dependents);
      dependents := dependents[dep := (if dep in dependents then dependents[dep] else []) + [task.name]];
    }
    Entered(tasks, i, dependents);
  }

  lemma StartEntering(tasks: seq<TaskSpec>, i: nat, dependents: Dependents)
    requires i < |tasks| && Indexes(tasks[..i], dependents)
    ensures IndexesPart(tasks, i, 0, dependents)
  {
    assert tasks[i].dependsOn[..0] == [];
  }

  lemma Entered(tasks: seq<TaskSpec>, i: nat, dependents: Dependents)
    requires UniqueNames(tasks) && i < |tasks| && IndexesPart(tasks, i, |tasks[i].dependsOn|, dependents)
    ensures Indexes(tasks[..i + 1], dependents)
  {
    var deps := tasks[i].dependsOn;
    assert deps[..|deps|] == deps;
    forall t, c ensures Listed(dependents, t, c) == multiset(DependsOn(tasks[..i + 1], c))[t] {
      DependsOnSnoc(tasks, i, c);
      assert Listed(dependents, t, c) == PartCount(tasks, i, |deps|, t, c);
    }
  }

  lemma EmptyEntry(tasks: seq<TaskSpec>, dependents: Dependents, n: string)
    requires Indexes(tasks, dependents) && n !in dependents
    ensures Indexes(tasks, dependents[n := []])
  {
    forall t, c ensures Listed(dependents[n := []], t, c) == multiset(DependsOn(tasks, c))[t] {
      assert Listed(dependents, t, c) == multiset(DependsOn(tasks, c))[t];
    }
  }

  method BuildIndexes(tasks: seq<TaskSpec>) returns (inDegree: map<string, nat>, dependents: Dependents)
    requires UniqueNames(tasks)
    ensures inDegree.Keys == TaskNames(tasks)
    ensures forall n :: n in inDegree ==> inDegree[n] == |DependsOn(tasks, n)|
    ensures TaskNames(tasks) <= dependents.Keys
    ensures Indexes(tasks, dependents)
  {
    inDegree, dependents := map[], map[];
    for i := 0 to |tasks|
      invariant inDegree.Keys == TaskNames(tasks[..i]) <= dependents.Keys
      invariant forall n :: n in inDegree ==> inDegree[n] == |DependsOn(tasks[..i], n)|
      invariant Indexes(tasks[..i], dependents)
    {
      var task := tasks[i];
      inDegree := inDegree[task.name := |task.dependsOn|];
      if task.name !in dependents {
        EmptyEntry(tasks[..i], dependents, task.name);
        dependents := dependents[task.name := []];
      }
      dependents := EnterDeps(tasks, i, dependents);
      forall n | n in inDegree ensures inDegree[n] == |DependsOn(tasks[..i + 1], n)| {
        DependsOnSnoc(tasks, i, n);
      }
      NamesSnoc(tasks, i);
    }
    assert tasks[..|tasks|] == tasks;
  }

  lemma NamesSnoc(tasks: seq<TaskSpec>, i: nat)
    requires i < |tasks|
    ensures TaskNames(tasks[..i + 1]) == TaskNames(tasks[..i]) + {tasks[i].name}
  {
    var a, b := tasks[..i], tasks[..i + 1];
    forall n | n in TaskNames(a) ensures n in TaskNames(b) {
      var k :| 0 <= k < |a| && a[k].name == n;
      assert b[k].name == n;
    }
    assert b[i].name == tasks[i].name;
    forall n | n in TaskNames(b) ensures n in TaskNames(a) + {tasks[i].name} {
      var k :| 0 <= k < |b| && b[k].name == n;
      if k < i { assert a[k].name == n; }
    }
  }

  // ----- stages

  /** The in-degree table once the tasks in `done` are complete. */
  ghost predicate Degrees(tasks: seq<TaskSpec>, remaining: map<string, nat>, done: set<string>) {
    && remaining.Keys == TaskNames(tasks)
    && forall n :: n in remaining ==> remaining[n] == Unmet(DependsOn(tasks, n), done)
  }

  function Get(m: map<string, nat>, c: string): nat {
    if c in m then m[c] else 0
  }

  /** Reached zero between the two tables. */
  function Drained(before: map<string, nat>, now: map<string, nat>, c: string): nat {
    if Get(before, c) > 0 && Get(now, c) == 0 then 1 else 0
  }

  ghost predicate Settled(before: map<string, nat>, children: seq<string>, next: seq<string>,
                          now: map<string, nat>, next': seq<string>)
  {
    && now.Keys == before.Keys
    && (forall c :: Get(now, c) + multiset(children)[c] == Get(before, c))
    && (forall c :: multiset(next')[c] == multiset(next)[c] + Drained(before, now, c))
  }

  lemma SettleOne(before: map<string, nat>, children: seq<string>, next: seq<string>,
                  now: map<string, nat>, next': seq<string>, child: string)
    requires Settled(before, children, next, now, next')
    requires Get(now, child) > 0
    ensures var deg := now[child] - 1;
      Settled(before, children + [child], next, now[child := deg], if deg == 0 then next' + [child] else next')
  {
    var now' := now[child := now[child] - 1];
    var next'' := if now[child] == 1 then next' + [child] else next';
    forall c ensures Get(now', c) + multiset(children + [child])[c] == Get(before, c) {
      assert Get(now, c) + multiset(children)[c] == Get(before, c);
    }
    forall c ensures multiset(next'')[c] == multiset(next)[c] + Drained(before, now', c) {
      assert multiset(next')[c] == multiset(next)[c] + Drained(before, now, c);
      assert Get(now, c) + multiset(children)[c] == Get(before, c);
    }
  }

  /** Counts down the children of one completed task; a child is pushed when it reaches zero. */
  method Settle(children: seq<string>, before: map<string, nat>, next: seq<string>)
    returns (remaining: map<string, nat>, next': seq<string>)
    requires forall c :: multiset(children)[c] <= Get(before, c)
    ensures Settled(before, children, next, remaining, next')
  {
    remaining, next' := before, next;
    for k := 0 to |children|
      invariant Settled(before, children[..k], next, remaining, next')
    {
      var child := children[k];
      assert children[..k + 1] == children[..k] + [child];
      assert Get(remaining, child) > 0 by {
        assert children == children[..k] + [child] + children[k + 1..];
        assert Get(remaining, child) + multiset(children[..k])[child] == Get(before, child);
      }
      SettleOne(before, children[..k], next, remaining, next', child);
      if child in remaining {
        var deg := if remaining[child] > 0 then remaining[child] - 1 else 0;
        remaining := remaining[child := deg];
        if deg == 0 {
          next' := next' + [child];
        }
      }
    }
    assert children[..|children|] == children;
  }

  /** The tasks whose last unmet dependency lies in `batch`. */
  ghost predicate Released(tasks: seq<TaskSpec>, done: set<string>, batch: set<string>, c: string) {
    && c in TaskNames(tasks)
    && Unmet(DependsOn(tasks, c), done) > 0
    && Unmet(DependsOn(tasks, c), done + batch) == 0
  }

  /** Completes every task of one stage. */
  method Round(tasks: seq<TaskSpec>, ready: seq<string>, before: map<string, nat>, dependents: Dependents,
               ghost done: set<string>)
    returns (remaining: map<string, nat>, next: seq<string>)
    requires TaskNames(tasks) <= dependents.Keys && Indexes(tasks, dependents)
    requires NoDuplicates(ready) && Elements(ready) !! done && Elements(ready) <= TaskNames(tasks)
    requires Degrees(tasks, before, done)
    ensures Degrees(tasks, remaining, done + Elements(ready))
    ensures NoDuplicates(next)
    ensures forall c :: c in next <==> Released(tasks, done, Elements(ready), c)
  {
    remaining, next := before, [];
    assert done + Elements(ready[..0]) == done;
    for j := 0 to |ready|
      invariant Degrees(tasks, remaining, done + Elements(ready[..j]))
      invariant ReleasedOnce(tasks, done, Elements(ready[..j]), next)
    {
      var task := ready[j];
      TakeNext(ready, j, done);
      ghost var now := done + Elements(ready[..j]);
      var children := dependents[task];
      assert forall c :: multiset(children)[c] == Listed(dependents, task, c);
      ghost var was, wasNext := remaining, next;
      forall c ensures multiset(children)[c] <= Get(remaining, c) {
        ChildCount(tasks, dependents, remaining, now, task, c);
      }
      remaining, next := Settle(children, remaining, next);
      RoundStep(tasks, dependents, done, Elements(ready[..j]), task, was, wasNext, remaining, next);
    }
    assert ready[..|ready|] == ready;
    OnceEach(tasks, done, Elements(ready), next);
  }

  lemma TakeNext(ready: seq<string>, j: nat, done: set<string>)
    requires NoDuplicates(ready) && Elements(ready) !! done && j < |ready|
    ensures ready[j] in Elements(ready)
    ensures ready[j] !in done + Elements(ready[..j])
    ensures Elements(ready[..j + 1]) == Elements(ready[..j]) + {ready[j]}
  {
    assert ready[..j + 1] == ready[..j] + [ready[j]];
    assert forall x :: x in Elements(ready[..j]) ==> x != ready[j];
  }

  lemma OnceEach(tasks: seq<TaskSpec>, done: set<string>, batch: set<string>, next: seq<string>)
    requires ReleasedOnce(tasks, done, batch, next)
    ensures NoDuplicates(next)
    ensures forall c :: c in next <==> Released(tasks, done, batch, c)
  {
    NoDuplicatesMultiset(next);
    forall c ensures c in next <==> Released(tasks, done, batch, c) {
      assert c in next <==> multiset(next)[c] > 0;
    }
  }

  ghost predicate ReleasedOnce(tasks: seq<TaskSpec>, done: set<string>, batch: set<string>, next: seq<string>) {
    forall c :: multiset(next)[c] == if Released(tasks, done, batch, c) then 1 else 0
  }

  lemma ChildCount(tasks: seq<TaskSpec>, dependents: Dependents, remaining: map<string, nat>,
                   now: set<string>, task: string, c: string)
    requires Indexes(tasks, dependents) && Degrees(tasks, remaining, now) && task !in now
    ensures Unmet(DependsOn(tasks, c), now + {task}) + Listed(dependents, task, c) == Unmet(DependsOn(tasks, c), now)
    ensures Get(remaining, c) == Unmet(DependsOn(tasks, c), now)
  {
    UnmetSettle(DependsOn(tasks, c), now, task);
    assert Listed(dependents, task, c) == multiset(DependsOn(tasks, c))[task];
  }

  lemma RoundStep(tasks: seq<TaskSpec>, dependents: Dependents, done: set<string>, batch: set<string>, task: string,
                  was: map<string, nat>, wasNext: seq<string>, remaining: map<string, nat>, next: seq<string>)
    requires Indexes(tasks, dependents) && task in dependents && task !in done + batch
    requires Degrees(tasks, was, done + batch) && ReleasedOnce(tasks, done, batch, wasNext)
    requires Settled(was, dependents[task], wasNext, remaining, next)
    ensures Degrees(tasks, remaining, done + (batch + {task}))
    ensures ReleasedOnce(tasks, done, batch + {task}, next)
  {
    var now := done + batch;
    assert done + (batch + {task}) == now + {task};
    forall c ensures Get(remaining, c) == Unmet(DependsOn(tasks, c), now + {task}) {
      ChildCount(tasks, dependents, was, now, task, c);
      assert Get(remaining, c) + multiset(dependents[task])[c] == Get(was, c);
    }
    forall n | n in remaining ensures remaining[n] == Unmet(DependsOn(tasks, n), now + {task}) {
      assert Get(remaining, n) == remaining[n];
    }
    forall c ensures multiset(next)[c] == if Released(tasks, done, batch + {task}, c) then 1 else 0 {
      ChildCount(tasks, dependents, was, now, task, c);
      UnmetMonotone(DependsOn(tasks, c), done, now);
      assert multiset(next)[c] == multiset(wasNext)[c] + Drained(was, remaining, c);
      assert multiset(wasNext)[c] == if Released(tasks, done, batch, c) then 1 else 0;
      assert Get(remaining, c) == Unmet(DependsOn(tasks, c), now + {task});
    }
  }

  lemma {:induction false} UnmetMonotone(ds: seq<string>, a: set<string>, b: set<string>)
    requires a <= b
    ensures Unmet(ds, b) <= Unmet(ds, a)
  {
    if ds != [] { UnmetMonotone(ds[1..], a, b); }
  }

  /** Completing a wave releases exactly the next one. */
  lemma ReleasedIsNextWave(tasks: seq<TaskSpec>, k: nat, c: string)
    requires UniqueNames(tasks)
    ensures var g := DepsOf(tasks);
      Released(tasks, Emitted(g, k), Wave(g, k), c) <==> c in Wave(g, k + 1)
  {
    var g := DepsOf(tasks);
    if c in TaskNames(tasks) {
      DependsOnIsDeps(tasks, c);
      UnmetZero(DependsOn(tasks, c), Emitted(g, k));
      UnmetZero(DependsOn(tasks, c), Emitted(g, k + 1));
      EmittedStep(g, k, c);
    }
  }

  /** The stages are the waves, each in name order. */
  ghost predicate StagesSoFar(g: Graph, stages: seq<seq<string>>) {
    forall k {:trigger Wave(g, k)} :: 0 <= k < |stages| ==> stages[k] == SortedSeq(Wave(g, k)) && Wave(g, k) != {}
  }

  /** ... and all of them are there. */
  ghost predicate StagesAreWaves(g: Graph, stages: seq<seq<string>>) {
    StagesSoFar(g, stages) && WaveCount(g, |stages|)
  }

  lemma ExtendStages(g: Graph, stages: seq<seq<string>>, ready: seq<string>)
    requires StagesSoFar(g, stages) && ready == SortedSeq(Wave(g, |stages|)) && ready != []
    ensures StagesSoFar(g, stages + [ready])
  {
    var longer := stages + [ready];
    SortedIsEmpty(Wave(g, |stages|));
    forall k {:trigger Wave(g, k)} | 0 <= k < |longer| ensures longer[k] == SortedSeq(Wave(g, k)) && Wave(g, k) != {} {
      assert k < |stages| ==> longer[k] == stages[k];
    }
  }

  lemma SortedIsEmpty(s: set<string>)
    ensures SortedSeq(s) == [] <==> s == {}
  {
  }

  method Stages(tasks: seq<TaskSpec>, inDegree: map<string, nat>, dependents: Dependents)
    returns (stages: seq<seq<string>>)
    requires UniqueNames(tasks)
    requires inDegree.Keys == TaskNames(tasks)
    requires forall n :: n in inDegree ==> inDegree[n] == |DependsOn(tasks, n)|
    requires TaskNames(tasks) <= dependents.Keys && Indexes(tasks, dependents)
    ensures StagesAreWaves(DepsOf(tasks), stages)
  {
    ghost var g := DepsOf(tasks);
    var remaining := inDegree;
    var ready := SortedSeq(set n | n in remaining && remaining[n] == 0);
    stages := [];
    FirstRound(tasks, remaining);
    ghost var done: set<string> := {};
    while ready != []
      invariant AtStage(tasks, stages, ready, remaining, done)
      decreases TaskNames(tasks) - done
    {
      ReadyIsWave(tasks, stages, ready, remaining, done);
      var after, next := Round(tasks, ready, remaining, dependents, done);
      NextStage(tasks, stages, ready, remaining, done, after, next);
      done := done + Elements(ready);
      stages := stages + [ready];
      remaining := after;
      ready := Sort(next);
    }
    LastStage(tasks, stages, remaining, done);
  }

  /** The state of the stage loop: what is done, what is ready, what still waits. */
  ghost predicate AtStage(tasks: seq<TaskSpec>, stages: seq<seq<string>>, ready: seq<string>,
                          remaining: map<string, nat>, done: set<string>)
  {
    var g := DepsOf(tasks);
    && done == Emitted(g, |stages|)
    && done <= TaskNames(tasks)
    && ready == SortedSeq(Wave(g, |stages|))
    && Degrees(tasks, remaining, done)
    && StagesSoFar(g, stages)
  }

  lemma LastStage(tasks: seq<TaskSpec>, stages: seq<seq<string>>, remaining: map<string, nat>, done: set<string>)
    requires AtStage(tasks, stages, [], remaining, done)
    ensures StagesAreWaves(DepsOf(tasks), stages)
  {
    assert Elements(SortedSeq(Wave(DepsOf(tasks), |stages|))) == {};
  }

  lemma NextStage(tasks: seq<TaskSpec>, stages: seq<seq<string>>, ready: seq<string>, before: map<string, nat>,
                  done: set<string>, remaining: map<string, nat>, next: seq<string>)
    requires UniqueNames(tasks)
    requires AtStage(tasks, stages, ready, before, done) && ready != []
    requires Degrees(tasks, remaining, done + Elements(ready))
    requires NoDuplicates(next) && forall c :: c in next <==> Released(tasks, done, Elements(ready), c)
    ensures AtStage(tasks, stages + [ready], Sort(next), remaining, done + Elements(ready))
  {
    var g := DepsOf(tasks);
    NextReady(tasks, |stages|, next);
    ExtendStages(g, stages, ready);
    assert Elements(ready) == Wave(g, |stages|);
    EmittedNext(g, |stages|);
  }

  lemma ReadyIsWave(tasks: seq<TaskSpec>, stages: seq<seq<string>>, ready: seq<string>,
                    remaining: map<string, nat>, done: set<string>)
    requires AtStage(tasks, stages, ready, remaining, done) && ready != []
    ensures Elements(ready) != {} && Elements(ready) !! done && Elements(ready) <= TaskNames(tasks)
  {
    assert ready[0] in Elements(ready);
  }

  lemma NextReady(tasks: seq<TaskSpec>, k: nat, next: seq<string>)
    requires UniqueNames(tasks) && NoDuplicates(next)
    requires forall c :: c in next <==> Released(tasks, Emitted(DepsOf(tasks), k), Wave(DepsOf(tasks), k), c)
    ensures Sort(next) == SortedSeq(Wave(DepsOf(tasks), k + 1))
    ensures Emitted(DepsOf(tasks), k + 1) <= TaskNames(tasks)
  {
    var g := DepsOf(tasks);
    forall c ensures c in next <==> c in Wave(g, k + 1) { ReleasedIsNextWave(tasks, k, c); }
    assert Elements(next) == Wave(g, k + 1);
    SortIsSortedSeq(next);
    EmittedInGraph(g, k + 1);
  }

  lemma FirstRound(tasks: seq<TaskSpec>, degrees: map<string, nat>)
    requires UniqueNames(tasks) && degrees.Keys == TaskNames(tasks)
    requires forall n :: n in degrees ==> degrees[n] == |DependsOn(tasks, n)|
    ensures Degrees(tasks, degrees, {})
    ensures (set n | n in degrees && degrees[n] == 0) == Wave(DepsOf(tasks), 0)
  {
    forall n | n in degrees
      ensures degrees[n] == Unmet(DependsOn(tasks, n), {})
      ensures degrees[n] == 0 <==> DepsOf(tasks)[n] <= {}
    {
      UnmetNothing(DependsOn(tasks, n));
      UnmetZero(DependsOn(tasks, n), {});
      DependsOnIsDeps(tasks, n);
    }
  }
}
