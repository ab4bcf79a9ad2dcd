/** The task-selection page: the chained dropdowns, the start button's
    visibility and enabling rule, and the start handler. */
module SelectionPage {
  import opened Basics
  import opened Tasks
  import opened TaskSelection
  import opened Timer
  import opened Provider

  /** The task id `handleStart` passes on: `level4Id || level3Id || level2Id ||
      level1Id`, which yields the last operand when none is truthy. */
  function ChosenTaskId(s: Selection): (r: Option<nat>)
    ensures Truthy(r) <==> Deepest(s).Some?
    ensures Truthy(r) ==> r == Deepest(s)
    ensures !Truthy(r) ==> r == s.level1Id
  {
    if Truthy(s.level4Id) then s.level4Id
    else if Truthy(s.level3Id) then s.level3Id
    else if Truthy(s.level2Id) then s.level2Id
    else s.level1Id
  }

  /** Whether clicking start reaches `startTimer`: both the chosen task id and
      the project id must be truthy. */
  predicate StartsTimer(s: Selection)
  {
    Truthy(ChosenTaskId(s)) && Truthy(s.projectId)
  }

  /** `handleStart`: start the timer on the deepest selected task of the
      selected project, or do nothing. */
  function HandleStart(c: Context, now: nat): (r: Context)
    ensures StartsTimer(c.selection) ==>
      && r.timer == Start(c.selection.projectId.value, Deepest(c.selection).value, now)
      && r == Step(c, StartTimer(c.selection.projectId.value, Deepest(c.selection).value, now))
    ensures !StartsTimer(c.selection) ==> r == c
  {
    var taskId := ChosenTaskId(c.selection);
    var projectId := c.selection.projectId;
    if Truthy(taskId) && Truthy(projectId) then Step(c, StartTimer(projectId.value, taskId.value, now))
    else c
  }

  /** The start button is rendered when `isTaskSelected()` holds. */
  predicate StartButtonShown(c: Context)
  {
    IsTaskSelected(c)
  }

  /** The start button is disabled when navigation is not allowed or the
      selected task is complete. */
  predicate StartButtonDisabled(c: Context)
  {
    !c.canNavigateToTimer || (c.selectedTaskDetails.Some? && c.selectedTaskDetails.value.status == Complete)
  }

  /** The dropdown for level `k` is rendered when `k` is 0 or level `k - 1`
      holds a truthy id. */
  predicate DropdownShown(s: Selection, k: nat)
    requires k <= 4
  {
    k == 0 || Truthy(Level(s, k - 1))
  }

  /** The parent the level-`k` dropdown filters by. */
  function DropdownParent(s: Selection, k: nat): Option<nat>
    requires k <= 4
  {
    if k == 0 then None else Level(s, k - 1)
  }

  /** The choices the level-`k` dropdown lists. */
  function DropdownOptions(c: Context, k: nat): (r: seq<Task>)
    requires k <= 4
    ensures Subsequence(r, c.tasks)
    ensures forall i :: 0 <= i < |r| ==> InGroup(r[i], k, DropdownParent(c.selection, k))
    ensures forall i :: 0 <= i < |c.tasks| && InGroup(c.tasks[i], k, DropdownParent(c.selection, k)) ==> c.tasks[i] in r
  {
    TasksByLevelComplete(c.tasks, k, DropdownParent(c.selection, k));
    TasksByLevel(c.tasks, k, DropdownParent(c.selection, k))
  }

  /** A choice the level-`k` dropdown can send: its empty entry (null) or the id
      of one of its options, while the dropdown is rendered, which needs its
      level shown and at least one option. */
  predicate ValidPick(c: Context, k: nat, choice: Option<nat>)
  {
    && k <= 4
    && DropdownShown(c.selection, k)
    && |DropdownOptions(c, k)| > 0
    && (choice.None? || exists i :: 0 <= i < |DropdownOptions(c, k)| && DropdownOptions(c, k)[i].id == choice.value)
  }

  /** A listed task in the group a rendered dropdown filters for is a choice
      that dropdown offers. */
  lemma ListedChoiceValid(c: Context, k: nat, j: nat)
    requires k <= 4 && DropdownShown(c.selection, k)
    requires j < |c.tasks| && InGroup(c.tasks[j], k, DropdownParent(c.selection, k))
    ensures ValidPick(c, k, Some(c.tasks[j].id))
  {
    var r := DropdownOptions(c, k);
    assert c.tasks[j] in r;
    var i :| 0 <= i < |r| && r[i] == c.tasks[j];
  }

  /** The update a dropdown's change handler makes: the levels above keep
      their ids, the picked level takes the choice, the levels below are
      cleared, the selected task and the navigation flag are derived again
      from the new path, and nothing else changes. */
  function Pick(c: Context, k: nat, choice: Option<nat>): (r: Context)
    requires k <= 4
    ensures r.tasks == c.tasks
    ensures forall j :: 0 <= j < k ==> Level(r.selection, j) == Level(c.selection, j)
    ensures Level(r.selection, k) == choice
    ensures forall j :: k < j <= 4 ==> Level(r.selection, j) == None
    ensures Derived(r.selectedTaskDetails, r.canNavigateToTimer) == Derive(c.tasks, r.selection)
    ensures r.(selection := c.selection, selectedTaskDetails := c.selectedTaskDetails,
               canNavigateToTimer := c.canNavigateToTimer) == c
  {
    PickLevels(c.selection, k, choice);
    SetTaskSelection(c, PatchAt(k, choice))
  }

  /** One dropdown's update, merged and cascaded: the levels above it keep
      their ids, its own level takes the choice, and the levels below clear. */
  lemma PickLevels(s: Selection, k: nat, choice: Option<nat>)
    requires k <= 4
    ensures forall j :: 0 <= j < k ==> Level(Select(s, PatchAt(k, choice)), j) == Level(s, j)
    ensures forall j :: k <= j <= 4 ==> Level(Select(s, PatchAt(k, choice)), j) == if j == k then choice else None
  {
    forall j | 0 <= j < k
      ensures Level(Select(s, PatchAt(k, choice)), j) == Level(s, j)
    {
      PickKeepsUpperLevels(s, k, choice, j);
    }
    forall j | k <= j <= 4
      ensures Level(Select(s, PatchAt(k, choice)), j) == if j == k then choice else None
    {
      PickSetsLevelAndClearsBelow(s, k, choice, j);
    }
  }

  /** The id at level `k`, if any, names a task of the list at that level
      whose parent is the id one level up, which is truthy. */
  ghost predicate Anchored(tasks: seq<Task>, s: Selection, k: nat)
    requires k <= 4
  {
    Level(s, k).Some? ==>
      && DropdownShown(s, k)
      && exists i :: 0 <= i < |tasks| && tasks[i].id == Level(s, k).value
                    && tasks[i].level == k && tasks[i].parentId == DropdownParent(s, k)
  }

  /** The selected path follows the hierarchy of the task list. */
  ghost predicate PathConsistent(tasks: seq<Task>, s: Selection)
  {
    forall k :: 0 <= k <= 4 ==> Anchored(tasks, s, k)
  }

  lemma NoSelectionConsistent(tasks: seq<Task>)
    ensures PathConsistent(tasks, NoSelection)
  {
    forall k | 0 <= k <= 4
      ensures Anchored(tasks, NoSelection, k)
    {
      assert Level(NoSelection, k) == None;
    }
  }

  /** The levels above a one-key update keep their ids. */
  lemma PickKeepsUpperLevels(s: Selection, k: nat, choice: Option<nat>, j: nat)
    requires j < k <= 4
    ensures Level(Select(s, PatchAt(k, choice)), j) == Level(s, j)
  {
    assert !ClearedBy(PatchAt(k, choice), j);
  }

  /** The picked level takes the choice; the levels below it are cleared. */
  lemma PickSetsLevelAndClearsBelow(s: Selection, k: nat, choice: Option<nat>, j: nat)
    requires k <= j <= 4
    ensures Level(Select(s, PatchAt(k, choice)), j) == if j == k then choice else None
  {
    var p := PatchAt(k, choice);
    if j == k {
      assert !ClearedBy(p, j);
    } else {
      assert PatchField(p, k) != Absent;
      assert ClearedBy(p, j);
    }
  }

  /** A listed option names a task of the list at that level, under that parent. */
  lemma OptionInTasks(c: Context, k: nat, choice: nat)
    requires k <= 4
    requires exists i :: 0 <= i < |DropdownOptions(c, k)| && DropdownOptions(c, k)[i].id == choice
    ensures exists i :: 0 <= i < |c.tasks| && c.tasks[i].id == choice
                       && c.tasks[i].level == k && c.tasks[i].parentId == DropdownParent(c.selection, k)
  {
    var opts := DropdownOptions(c, k);
    var i :| 0 <= i < |opts| && opts[i].id == choice;
    var t := opts[i];
    assert t in opts;
    assert multiset(opts)[t] == multiset(c.tasks)[t];
    assert t in c.tasks;
    var i' :| 0 <= i' < |c.tasks| && c.tasks[i'] == t;
  }

  /** Picking from a dropdown keeps the path consistent with the hierarchy: the
      levels above keep their ids, the picked level gets a task listed under
      its parent, and every level below is cleared. */
  lemma PickKeepsPathConsistent(c: Context, k: nat, choice: Option<nat>)
    requires PathConsistent(c.tasks, c.selection)
    requires ValidPick(c, k, choice)
    ensures PathConsistent(c.tasks, Pick(c, k, choice).selection)
  {
    var s := c.selection;
    var s' := Pick(c, k, choice).selection;
    assert s' == Select(s, PatchAt(k, choice));
    forall j | 0 <= j <= 4
      ensures Anchored(c.tasks, s', j)
    {
      if j > 0 && j - 1 < k {
        PickKeepsUpperLevels(s, k, choice, j - 1);
      }
      if j < k {
        PickKeepsUpperLevels(s, k, choice, j);
        assert Anchored(c.tasks, s, j);
      } else {
        PickSetsLevelAndClearsBelow(s, k, choice, j);
        if j == k && choice.Some? {
          OptionInTasks(c, k, choice.value);
        }
      }
    }
  }

  /** On a consistent path every selected level below the project has a
      truthy project above it. */
  lemma ConsistentPathHasProject(tasks: seq<Task>, s: Selection)
    requires PathConsistent(tasks, s)
    requires exists k :: 1 <= k <= 4 && Level(s, k).Some?
    ensures Truthy(s.projectId)
  {
    assert Anchored(tasks, s, 1) && Anchored(tasks, s, 2) && Anchored(tasks, s, 3) && Anchored(tasks, s, 4);
    assert Level(s, 0) == s.projectId;
  }

  /** Right after the page's own selection, an enabled start button always
      starts the timer, on the deepest selected task and its project. */
  lemma EnabledStartButtonStarts(c: Context, k: nat, choice: Option<nat>, now: nat)
    requires PathConsistent(c.tasks, c.selection)
    requires ValidPick(c, k, choice)
    requires var c' := Pick(c, k, choice); StartButtonShown(c') && !StartButtonDisabled(c')
    ensures var c' := Pick(c, k, choice);
      && Truthy(c'.selection.projectId) && Deepest(c'.selection).Some?
      && HandleStart(c', now).timer == Start(c'.selection.projectId.value, Deepest(c'.selection).value, now)
      && Accruing(HandleStart(c', now).timer)
  {
    var c' := Pick(c, k, choice);
    PickKeepsPathConsistent(c, k, choice);
    assert c'.canNavigateToTimer;
    var d :| 1 <= d <= 4 && Truthy(Level(c'.selection, d));
    ConsistentPathHasProject(c'.tasks, c'.selection);
  }
}
