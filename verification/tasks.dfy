/** The task entity and the two lookups the task-selection state offers over the
    loaded list: by id, and by hierarchy level and parent. */
module Tasks {
  import opened Basics

  datatype Status = Todo | InProgress | Complete | Review | Closed | Backlog | Clarification

  /** A task at `level` 0 (project) to 4 (subaction); estimates are in minutes. */
  datatype Task = Task(
    id: nat,
    name: string,
    status: Status,
    level: nat,
    parentId: Option<nat>,
    projectId: nat,
    estimatedTime: Option<nat>,
    totalExpectedTime: Option<nat>)

  /** `Array.prototype.findIndex` on the id, with `None` for `findIndex`'s -1. */
  function FindIndex(tasks: seq<Task>, id: nat): (r: Option<nat>)
    ensures r.None? <==> forall i :: 0 <= i < |tasks| ==> tasks[i].id != id
    ensures r.Some? ==> r.value < |tasks| && tasks[r.value].id == id
    ensures r.Some? ==> forall j :: 0 <= j < r.value ==> tasks[j].id != id
  {
    if |tasks| == 0 then None
    else if tasks[0].id == id then Some(0)
    else
      match FindIndex(tasks[1..], id)
      case None => None
      case Some(i) => Some(i + 1)
  }

  /** `getTaskById`: the first task carrying `id`, if any. */
  function TaskById(tasks: seq<Task>, id: nat): (r: Option<Task>)
    ensures r.None? <==> forall i :: 0 <= i < |tasks| ==> tasks[i].id != id
    ensures r.Some? ==> exists i :: 0 <= i < |tasks| && tasks[i] == r.value
                                   && (forall j :: 0 <= j < i ==> tasks[j].id != id)
    ensures r.Some? ==> r.value.id == id
  {
    match FindIndex(tasks, id)
    case None => None
    case Some(i) => Some(tasks[i])
  }

  /** `r` can be obtained from `s` by deleting elements, keeping the order of the rest. */
  ghost predicate Subsequence<T>(r: seq<T>, s: seq<T>)
    decreases |s|
  {
    && |r| <= |s|
    && (|r| == 0 || (r[0] == s[0] && Subsequence(r[1..], s[1..])) || Subsequence(r, s[1..]))
  }

  /** `t` sits at `level` under `parentId`. */
  predicate InGroup(t: Task, level: nat, parentId: Option<nat>)
  {
    t.level == level && t.parentId == parentId
  }

  /** `getTasksByLevel`: the tasks at `level` whose parent is `parentId`
      (strict equality, so `None` selects the parentless tasks), in list order. */
  function TasksByLevel(tasks: seq<Task>, level: nat, parentId: Option<nat>): (r: seq<Task>)
    ensures forall i :: 0 <= i < |r| ==> InGroup(r[i], level, parentId)
    ensures Subsequence(r, tasks)
    ensures forall t :: InGroup(t, level, parentId) ==> multiset(r)[t] == multiset(tasks)[t]
  {
    if |tasks| == 0 then []
    else
      var rest := TasksByLevel(tasks[1..], level, parentId);
      assert tasks == [tasks[0]] + tasks[1..];
      assert multiset(tasks) == multiset{tasks[0]} + multiset(tasks[1..]);
      if InGroup(tasks[0], level, parentId) then
        var r := [tasks[0]] + rest;
        assert r[1..] == rest;
        assert multiset(r) == multiset{tasks[0]} + multiset(rest);
        r
      else rest
  }

  /** Every task of the list in the group is among those `getTasksByLevel` returns. */
  lemma TasksByLevelComplete(tasks: seq<Task>, level: nat, parentId: Option<nat>)
    ensures forall i :: 0 <= i < |tasks| && InGroup(tasks[i], level, parentId) ==>
              tasks[i] in TasksByLevel(tasks, level, parentId)
  {
    var r := TasksByLevel(tasks, level, parentId);
    forall i | 0 <= i < |tasks| && InGroup(tasks[i], level, parentId)
      ensures tasks[i] in r
    {
      assert tasks[i] in multiset(tasks);
      assert multiset(r)[tasks[i]] == multiset(tasks)[tasks[i]];
    }
  }

  /** Every task in the list has a distinct id. */
  predicate DistinctIds(tasks: seq<Task>)
  {
    forall i, j :: 0 <= i < j < |tasks| ==> tasks[i].id != tasks[j].id
  }

  /** A project has no parent; any other task's parent is in the list, one
      level higher and in the same project. */
  predicate ParentLinked(tasks: seq<Task>, t: Task)
  {
    if t.level == 0 then t.parentId.None?
    else
      && t.parentId.Some?
      && var p := TaskById(tasks, t.parentId.value);
      && p.Some?
      && p.value.level + 1 == t.level
      && p.value.projectId == t.projectId
  }

  /** `t` sits at one of the five levels and is linked to its parent. */
  predicate Placed(tasks: seq<Task>, t: Task)
  {
    t.level <= 4 && ParentLinked(tasks, t)
  }

  /** The hierarchy the task list is meant to describe. */
  predicate WellFormed(tasks: seq<Task>)
  {
    && DistinctIds(tasks)
    && (forall i :: 0 <= i < |tasks| ==> Placed(tasks, tasks[i]))
  }

  /** In a well-formed list, tasks that share a parent share a level. */
  lemma SiblingsShareLevel(tasks: seq<Task>, i: nat, j: nat)
    requires WellFormed(tasks)
    requires i < |tasks| && j < |tasks|
    requires tasks[i].parentId == tasks[j].parentId
    ensures tasks[i].level == tasks[j].level
  {
    assert Placed(tasks, tasks[i]) && Placed(tasks, tasks[j]);
  }

  /** With distinct ids, looking a listed task up by its id finds that task. */
  lemma TaskByIdOfMember(tasks: seq<Task>, i: nat)
    requires DistinctIds(tasks)
    requires i < |tasks|
    ensures TaskById(tasks, tasks[i].id) == Some(tasks[i])
  {
    assert FindIndex(tasks, tasks[i].id).Some?;
  }

  /** Ids strictly increase from position `k` to the end of the list. */
  predicate IncreasingFrom(tasks: seq<Task>, k: nat)
    decreases |tasks| - k
  {
    k + 1 >= |tasks| || (tasks[k].id < tasks[k + 1].id && IncreasingFrom(tasks, k + 1))
  }

  lemma {:induction false} IncreasingFromBound(tasks: seq<Task>, k: nat, j: nat)
    requires IncreasingFrom(tasks, k)
    requires k < j < |tasks|
    ensures tasks[k].id < tasks[j].id
    decreases j - k
  {
    if k + 1 < j {
      IncreasingFromBound(tasks, k + 1, j);
    }
  }

  /** A list whose ids strictly increase has distinct ids. */
  lemma IncreasingIdsDistinct(tasks: seq<Task>)
    requires IncreasingFrom(tasks, 0)
    ensures DistinctIds(tasks)
  {
    forall i, j | 0 <= i < j < |tasks|
      ensures tasks[i].id != tasks[j].id
    {
      IncreasingFromTail(tasks, 0, i);
      IncreasingFromBound(tasks, i, j);
    }
  }

  lemma {:induction false} IncreasingFromTail(tasks: seq<Task>, k: nat, i: nat)
    requires IncreasingFrom(tasks, k)
    requires k <= i
    ensures IncreasingFrom(tasks, i)
    decreases i - k
  {
    if k < i && k + 1 < |tasks| {
      IncreasingFromTail(tasks, k + 1, i);
    }
  }

  /** Task `i` is a parentless project, or is linked to the task at position
      `parents[i]`: one level up, in the same project, carrying the parent id. */
  predicate LinkedAt(tasks: seq<Task>, parents: seq<nat>, i: nat)
    requires i < |tasks| == |parents|
  {
    var t := tasks[i];
    && t.level <= 4
    && if t.level == 0 then t.parentId.None?
       else
         var j := parents[i];
         && j < |tasks|
         && t.parentId == Some(tasks[j].id)
         && tasks[j].level + 1 == t.level
         && tasks[j].projectId == t.projectId
  }

  /** Every task from position `k` on is linked as `parents` says. */
  predicate LinkedFrom(tasks: seq<Task>, parents: seq<nat>, k: nat)
    requires |tasks| == |parents|
    decreases |tasks| - k
  {
    k >= |tasks| || (LinkedAt(tasks, parents, k) && LinkedFrom(tasks, parents, k + 1))
  }

  lemma {:induction false} LinkedFromPlaced(tasks: seq<Task>, parents: seq<nat>, k: nat)
    requires |tasks| == |parents|
    requires IncreasingFrom(tasks, 0)
    requires LinkedFrom(tasks, parents, k)
    ensures forall i :: k <= i < |tasks| ==> Placed(tasks, tasks[i])
    decreases |tasks| - k
  {
    if k < |tasks| {
      if tasks[k].level > 0 {
        LinkedThrough(tasks, k, parents[k]);
      }
      LinkedFromPlaced(tasks, parents, k + 1);
    }
  }

  /** A list with increasing ids whose parent links are witnessed by `parents`
      is well formed. */
  lemma WellFormedByWitness(tasks: seq<Task>, parents: seq<nat>)
    requires |tasks| == |parents|
    requires IncreasingFrom(tasks, 0)
    requires LinkedFrom(tasks, parents, 0)
    ensures WellFormed(tasks)
  {
    IncreasingIdsDistinct(tasks);
    LinkedFromPlaced(tasks, parents, 0);
  }

  /** Task `i` is linked through the task at position `j`. */
  lemma LinkedThrough(tasks: seq<Task>, i: nat, j: nat)
    requires IncreasingFrom(tasks, 0)
    requires i < |tasks| && j < |tasks|
    requires tasks[i].level > 0 && tasks[i].parentId == Some(tasks[j].id)
    requires tasks[j].level + 1 == tasks[i].level <= 4 && tasks[j].projectId == tasks[i].projectId
    ensures Placed(tasks, tasks[i])
  {
    IncreasingIdsDistinct(tasks);
    TaskByIdOfMember(tasks, j);
  }
}
