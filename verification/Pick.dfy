/**
 Ready-set selection and skip propagation.
 */
module Pick {
  import opened Domain
  import opened Names

  type States = map<string, TaskStatus>

  function StatusOf(states: States, n: string): TaskStatus {
    if n in states then states[n] else TPending
  }

  predicate Succeeded(states: States, n: string) {
    n in states && states[n] == TSucceeded
  }

  // ----- ready_tasks

  predicate MayDispatch(states: States, task: TaskSpec) {
    match StatusOf(states, task.name)
    case TFailed => true
    case TPending => forall d :: d in task.dependsOn ==> Succeeded(states, d)
    case _ => false
  }

  /** The names picked, in definition order. */
  function Picked(tasks: seq<TaskSpec>, states: States): seq<string> {
    if tasks == [] then []
    else
      var init := Picked(tasks[..|tasks| - 1], states);
      var last := tasks[|tasks| - 1];
      if MayDispatch(states, last) then init + [last.name] else init
  }

  function Ready(tasks: seq<TaskSpec>, states: States): seq<string> {
    Sort(Picked(tasks, states))
  }

  method ReadyTasks(tasks: seq<TaskSpec>, states: States) returns (ready: seq<string>)
    ensures ready == Ready(tasks, states)
  {
    ready := [];
    for i := 0 to |tasks|
      invariant ready == Picked(tasks[..i], states)
    {
      var task := tasks[i];
      assert tasks[..i + 1][..i] == tasks[..i];
      var status := if task.name in states then states[task.name] else TPending;
      match status {
        case TFailed => ready := ready + [task.name];
        case TPending =>
          var depsOk := forall d :: d in task.dependsOn ==> Succeeded(states, d);
          if depsOk {
            ready := ready + [task.name];
          }
        case _ =>
      }
    }
    assert tasks[..|tasks|] == tasks;
    ready := Sort(ready);
  }

  lemma {:induction false} PickedMembers(tasks: seq<TaskSpec>, states: States, n: string)
    ensures n in Picked(tasks, states) <==>
            exists i :: 0 <= i < |tasks| && tasks[i].name == n && MayDispatch(states, tasks[i])
  {
    if tasks != [] {
      var init := tasks[..|tasks| - 1];
      PickedMembers(init, states, n);
      if n in Picked(init, states) {
        var i :| 0 <= i < |init| && init[i].name == n && MayDispatch(states, init[i]);
        assert tasks[i] == init[i];
      }
      if i :| 0 <= i < |tasks| && tasks[i].name == n && MayDispatch(states, tasks[i]) {
        if i < |init| { assert init[i] == tasks[i]; }
      }
    }
  }

  lemma {:induction false} PickedNoDuplicates(tasks: seq<TaskSpec>, states: States)
    requires UniqueNames(tasks)
    ensures NoDuplicates(Picked(tasks, states))
  {
    if tasks != [] {
      var init, last := tasks[..|tasks| - 1], tasks[|tasks| - 1];
      PickedNoDuplicates(init, states);
      forall n | n in Picked(init, states) ensures n != last.name {
        PickedMembers(init, states, n);
        var i :| 0 <= i < |init| && init[i].name == n && MayDispatch(states, init[i]);
        assert init[i] == tasks[i];
      }
      NoDuplicatesSnoc(Picked(init, states), last.name);
    }
  }

  lemma NoDuplicatesSnoc(s: seq<string>, x: string)
    requires NoDuplicates(s) && x !in s
    ensures NoDuplicates(s + [x])
  {
  }

  /** Exactly the dispatchable tasks, each once, in name order. */
  lemma ReadyMeaning(tasks: seq<TaskSpec>, states: States)
    ensures forall n :: n in Ready(tasks, states) <==>
              exists i :: 0 <= i < |tasks| && tasks[i].name == n && MayDispatch(states, tasks[i])
    ensures Ascending(Ready(tasks, states))
    ensures UniqueNames(tasks) ==> NoDuplicates(Ready(tasks, states))
  {
    var picked := Picked(tasks, states);
    SortElements(picked);
    forall n ensures n in Ready(tasks, states) <==>
                     exists i :: 0 <= i < |tasks| && tasks[i].name == n && MayDispatch(states, tasks[i])
    {
      PickedMembers(tasks, states, n);
      assert n in Elements(Sort(picked)) <==> n in Elements(picked);
    }
    if UniqueNames(tasks) {
      PickedNoDuplicates(tasks, states);
      NoDuplicatesMultiset(picked);
      NoDuplicatesMultiset(Sort(picked));
    }
  }

  // ----- pending_to_skip

  predicate BlockedTask(states: States, task: TaskSpec) {
    StatusOf(states, task.name) == TPending && exists d :: d in task.dependsOn && !Succeeded(states, d)
  }

  function Blocked(tasks: seq<TaskSpec>, states: States): set<string> {
    set i | 0 <= i < |tasks| && BlockedTask(states, tasks[i]) :: tasks[i].name
  }

  function MarkSkipped(states: States, names: set<string>): States {
    map n | n in states.Keys + names :: if n in names then TSkipped else states[n]
  }

  /** Marking pending tasks skipped changes neither which tasks succeeded nor who is blocked. */
  lemma SkippingKeepsBlocked(tasks: seq<TaskSpec>, states: States, names: set<string>, task: TaskSpec)
    requires names <= Blocked(tasks, states)
    ensures task.name !in names ==>
              (BlockedTask(MarkSkipped(states, names), task) <==> BlockedTask(states, task))
    ensures task.name in names ==> StatusOf(MarkSkipped(states, names), task.name) == TSkipped
  {
    var next := MarkSkipped(states, names);
    forall d ensures Succeeded(next, d) <==> Succeeded(states, d) {
      if d in names {
        assert d in Blocked(tasks, states);
      }
    }
  }

  /** The loop reaches its fixpoint: every pending task with an unsucceeded dependency is skipped. */
  method PendingToSkip(tasks: seq<TaskSpec>, states: States) returns (next: States)
    ensures next == MarkSkipped(states, Blocked(tasks, states))
  {
    next := states;
    ghost var names: set<string> := {};
    var changed := true;
    while changed
      invariant names <= Blocked(tasks, states)
      invariant next == MarkSkipped(states, names)
      invariant !changed ==> names == Blocked(tasks, states)
      decreases Blocked(tasks, states) - names, changed
    {
      ghost var before := names;
      next, changed, names := SkipPass(tasks, states, next, before);
      AllBlocked(tasks, states, names);
    }
  }

  /** One pass over the tasks; `names` are the ones skipped so far. */
  method SkipPass(tasks: seq<TaskSpec>, ghost states: States, table: States, ghost before: set<string>)
    returns (next: States, changed: bool, ghost names: set<string>)
    requires before <= Blocked(tasks, states) && table == MarkSkipped(states, before)
    ensures before <= names <= Blocked(tasks, states) && next == MarkSkipped(states, names)
    ensures changed <==> names != before
    ensures forall k :: 0 <= k < |tasks| && BlockedTask(states, tasks[k]) ==> tasks[k].name in names
  {
    next, changed, names := table, false, before;
    for i := 0 to |tasks|
      invariant before <= names <= Blocked(tasks, states)
      invariant next == MarkSkipped(states, names)
      invariant changed <==> names != before
      invariant forall k :: 0 <= k < i && BlockedTask(states, tasks[k]) ==> tasks[k].name in names
    {
      var task := tasks[i];
      SkippingKeepsBlocked(tasks, states, names, task);
      var status := if task.name in next then next[task.name] else TPending;
      if status == TPending {
        var depBlocked := exists d :: d in task.dependsOn && !Succeeded(next, d);
        if depBlocked {
          SkipsOneMore(tasks, states, names, i);
          next := next[task.name := TSkipped];
          names := names + {task.name};
          changed := true;
        }
      }
    }
  }

  lemma SkipsOneMore(tasks: seq<TaskSpec>, states: States, names: set<string>, i: nat)
    requires i < |tasks| && names <= Blocked(tasks, states) && BlockedTask(MarkSkipped(states, names), tasks[i])
    ensures var n := tasks[i].name;
      && n !in names && n in Blocked(tasks, states)
      && MarkSkipped(states, names)[n := TSkipped] == MarkSkipped(states, names + {n})
  {
    SkippingKeepsBlocked(tasks, states, names, tasks[i]);
  }

  lemma AllBlocked(tasks: seq<TaskSpec>, states: States, names: set<string>)
    requires forall k :: 0 <= k < |tasks| && BlockedTask(states, tasks[k]) ==> tasks[k].name in names
    ensures Blocked(tasks, states) <= names
  {
  }
}
