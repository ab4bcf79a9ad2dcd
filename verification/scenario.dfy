/** The end-to-end walk through the application: load the fixture, drill down
    to a subaction, start the timer, let one second pass and stop. */
module Scenario {
  import opened Basics
  import opened Tasks
  import opened TaskSelection
  import opened Timer
  import opened Clock
  import opened Provider
  import opened SelectionPage
  import Store
  import Fixture

  /** Project 1, task 101, subtask 1012, action 10122, subaction 101221,
      picked one dropdown after the other once `tasks` has loaded. On a list
      holding those entries each pick is one its dropdown offers
      (`DrillDownPicksOffered`). */
  function DrilledDown(tasks: seq<Task>): Context
  {
    var c0 := Step(Initial, TasksLoaded(tasks));
    var c1 := Pick(c0, 0, Some(1));
    var c2 := Pick(c1, 1, Some(101));
    var c3 := Pick(c2, 2, Some(1012));
    var c4 := Pick(c3, 3, Some(10122));
    Pick(c4, 4, Some(101221))
  }

  lemma SelectionFromLevels(s: Selection)
    ensures s == Selection(Level(s, 0), Level(s, 1), Level(s, 2), Level(s, 3), Level(s, 4))
  {
  }

  /** The drill-down leaves every level set to the picked id. */
  lemma DrillDownPath(tasks: seq<Task>)
    ensures DrilledDown(tasks).tasks == tasks
    ensures DrilledDown(tasks).selection == Selection(Some(1), Some(101), Some(1012), Some(10122), Some(101221))
  {
    var c0 := Step(Initial, TasksLoaded(tasks));
    var c1 := Pick(c0, 0, Some(1));
    var c2 := Pick(c1, 1, Some(101));
    var c3 := Pick(c2, 2, Some(1012));
    var c4 := Pick(c3, 3, Some(10122));
    var c5 := Pick(c4, 4, Some(101221));
    SelectionFromLevels(c5.selection);
    assert Level(c5.selection, 0) == Some(1);
    assert Level(c5.selection, 1) == Some(101);
    assert Level(c5.selection, 2) == Some(1012);
    assert Level(c5.selection, 3) == Some(10122);
  }

  /** On any list with distinct ids whose entry `i` is subaction 101221, the
      drill-down ends with that entry as the selected task. */
  lemma DrillDownDetails(tasks: seq<Task>, i: nat)
    requires DistinctIds(tasks)
    requires i < |tasks| && tasks[i].id == 101221
    ensures DrilledDown(tasks).selectedTaskDetails == Some(tasks[i])
    ensures DrilledDown(tasks).canNavigateToTimer
  {
    DrillDownPath(tasks);
    var c := DrilledDown(tasks);
    assert Deepest(c.selection) == Some(101221);
    TaskByIdOfMember(tasks, i);
  }

  /** The five entries the drill-down picks, each at its level under the one
      picked before: project 1 at 0, task 101 at 3, subtask 1012 at 11,
      action 10122 at 16 and subaction 101221 at 19. */
  predicate DrillDownListed(tasks: seq<Task>)
  {
    && |tasks| > 19
    && tasks[0].id == 1 && InGroup(tasks[0], 0, None)
    && tasks[3].id == 101 && InGroup(tasks[3], 1, Some(1))
    && tasks[11].id == 1012 && InGroup(tasks[11], 2, Some(101))
    && tasks[16].id == 10122 && InGroup(tasks[16], 3, Some(1012))
    && tasks[19].id == 101221 && InGroup(tasks[19], 4, Some(10122))
  }

  /** The list a first fetch returns holds the five entries the drill-down
      picks, so on it each pick is offered by its dropdown. */
  lemma FirstFetchListsDrillDown()
    ensures DrillDownListed(Store.FetchTasks(Store.EmptyStorage).0)
  {
    assert Store.FetchTasks(Store.EmptyStorage).0 == Fixture.MockTasks();
  }

  /** On a list holding those entries, each of the five picks is a choice its
      dropdown renders. */
  lemma DrillDownPicksOffered(tasks: seq<Task>)
    requires DrillDownListed(tasks)
    ensures var c0 := Step(Initial, TasksLoaded(tasks));
      var c1 := Pick(c0, 0, Some(1));
      var c2 := Pick(c1, 1, Some(101));
      var c3 := Pick(c2, 2, Some(1012));
      var c4 := Pick(c3, 3, Some(10122));
      && ValidPick(c0, 0, Some(1))
      && ValidPick(c1, 1, Some(101))
      && ValidPick(c2, 2, Some(1012))
      && ValidPick(c3, 3, Some(10122))
      && ValidPick(c4, 4, Some(101221))
  {
    var c0 := Step(Initial, TasksLoaded(tasks));
    var c1 := Pick(c0, 0, Some(1));
    var c2 := Pick(c1, 1, Some(101));
    var c3 := Pick(c2, 2, Some(1012));
    var c4 := Pick(c3, 3, Some(10122));
    ListedChoiceValid(c0, 0, 0);
    ListedChoiceValid(c1, 1, 3);
    ListedChoiceValid(c2, 2, 11);
    ListedChoiceValid(c3, 3, 16);
    ListedChoiceValid(c4, 4, 19);
  }

  /** With the list a first fetch returns, the drill-down selects the
      subaction, which is in progress, so the start button is enabled. */
  lemma DrillDownSelectsSubaction(tasks: seq<Task>)
    requires tasks == Store.FetchTasks(Store.EmptyStorage).0
    ensures DrilledDown(tasks).selection == Selection(Some(1), Some(101), Some(1012), Some(10122), Some(101221))
    ensures IsTaskSelected(DrilledDown(tasks))
    ensures DrilledDown(tasks).selectedTaskDetails == Some(tasks[19])
    ensures tasks[19].id == 101221 && tasks[19].status == InProgress
    ensures StartButtonShown(DrilledDown(tasks)) && !StartButtonDisabled(DrilledDown(tasks))
  {
    Store.FirstFetchWellFormed();
    Fixture.MockSubaction();
    DrillDownPath(tasks);
    DrillDownDetails(tasks, 19);
  }

  /** Pressing start on the drilled-down selection times the subaction of
      project 1 from zero. */
  lemma StartOnSubaction(c: Context, now: nat)
    requires c.selection == Selection(Some(1), Some(101), Some(1012), Some(10122), Some(101221))
    ensures HandleStart(c, now).timer == Start(1, 101221, now)
  {
    assert Deepest(c.selection) == Some(101221);
  }

  /** One tick after the start shows one second. */
  lemma TickAfterStart(c: Context, now: nat)
    requires c.timer == Start(1, 101221, now)
    requires now != 0
    ensures Step(c, TimerTick).timer.elapsedTime == 1000
    ensures TimeFormatted(Step(c, TimerTick)) == "00:00:01"
  {
    var ticked := Step(c, TimerTick);
    assert ticked.timer == Tick(c.timer);
    FormatElapsedOneSecond(ticked.timer.elapsedTime);
  }

  /** Stopping after one second adds that second to both totals. */
  lemma StopAfterOneSecond(c: Context)
    requires Valid(c.timer) && c.timer.elapsedTime == 1000
    requires c.timer.todayTime == 0 && c.timer.totalTime == 0
    ensures Step(c, StopTimer).timer.todayTime == 1
    ensures Step(c, StopTimer).timer.totalTime == 1
    ensures !Step(c, StopTimer).timer.isRunning
  {
    assert Step(c, StopTimer).timer == Stop(c.timer);
  }

  /** From the drilled-down path: press start, let one second pass and stop;
      the day and total counters then hold that one second. */
  lemma StartTickStop(c: Context, now: nat)
    requires c.selection == Selection(Some(1), Some(101), Some(1012), Some(10122), Some(101221))
    requires now != 0
    ensures var started := HandleStart(c, now);
      var ticked := Step(started, TimerTick);
      var stopped := Step(ticked, StopTimer);
      && started.timer.taskId == Some(101221) && started.timer.projectId == Some(1)
      && TimeFormatted(ticked) == "00:00:01"
      && stopped.timer.todayTime == 1 && stopped.timer.totalTime == 1
      && !stopped.timer.isRunning
  {
    StartOnSubaction(c, now);
    var started := HandleStart(c, now);
    TickAfterStart(started, now);
    StopAfterOneSecond(Step(started, TimerTick));
  }

  /** The walk on any loaded list: drill down to subaction 101221, then start,
      one tick and stop. */
  lemma DrillStartTickStop(tasks: seq<Task>, now: nat)
    requires now != 0
    ensures var stopped := Step(Step(HandleStart(DrilledDown(tasks), now), TimerTick), StopTimer);
      stopped.timer.todayTime == 1 && stopped.timer.totalTime == 1 && !stopped.timer.isRunning
  {
    DrillDownPath(tasks);
    StartTickStop(DrilledDown(tasks), now);
  }

  /** The whole walk from fresh storage: the first fetch seeds and returns the
      fixture, and the walk on it ends with one second on both counters. */
  lemma FetchDrillStartTickStop(now: nat)
    requires now != 0
    ensures var stopped := Step(Step(HandleStart(DrilledDown(Store.FetchTasks(Store.EmptyStorage).0), now),
                                     TimerTick), StopTimer);
      stopped.timer.todayTime == 1 && stopped.timer.totalTime == 1
  {
    DrillStartTickStop(Store.FetchTasks(Store.EmptyStorage).0, now);
  }
}
