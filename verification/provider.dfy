/** The task context: the state the provider owns and every operation it hands
    to the pages, as pure transitions on one record. Effects driven by timers
    (the one-second tick, the activity counters, the screenshot loop) appear as
    explicit actions. */
module Provider {
  import opened Basics
  import opened Tasks
  import opened TaskSelection
  import opened Timer
  import opened Clock

  datatype Context = Context(
    tasks: seq<Task>,
    loading: bool,
    error: Option<string>,
    selection: Selection,
    selectedTaskDetails: Option<Task>,
    canNavigateToTimer: bool,
    timer: TimerState,
    keyboardCount: nat,
    mouseCount: nat,
    lastScreenshotTime: Option<nat>)

  const Initial := Context([], true, None, NoSelection, None, false, Idle, 0, 0, None)

  const LoadError := "Failed to fetch tasks"

  /** `timeFormatted`, derived from the elapsed time. */
  function TimeFormatted(c: Context): (r: string)
    ensures ClockShaped(r)
    ensures ParseClock(r) == c.timer.elapsedTime / 1000
    ensures |r| > 8 ==> r[0] != '0'
  {
    FormatElapsed(c.timer.elapsedTime)
  }

  /** `isTaskSelected`: level 1 is not null (an id of 0 counts as selected). */
  predicate IsTaskSelected(c: Context)
  {
    c.selection.level1Id.Some?
  }

  /** `setTaskSelection`: merge the update with its cascade, then recompute the
      selected task and whether the timer may be opened. */
  function SetTaskSelection(c: Context, p: Patch): (r: Context)
    ensures r.selection == Select(c.selection, p)
    ensures Derived(r.selectedTaskDetails, r.canNavigateToTimer) == Derive(c.tasks, r.selection)
    ensures r.canNavigateToTimer <==> exists k :: 1 <= k <= 4 && Truthy(Level(r.selection, k))
    ensures r.(selection := c.selection, selectedTaskDetails := c.selectedTaskDetails,
               canNavigateToTimer := c.canNavigateToTimer) == c
  {
    var s := Select(c.selection, p);
    var d := Derive(c.tasks, s);
    c.(selection := s, selectedTaskDetails := d.selectedTaskDetails, canNavigateToTimer := d.canNavigateToTimer)
  }

  datatype Action =
    | TasksLoaded(data: seq<Task>)
    | TasksFailed
    | SetSelection(patch: Patch)
    | StartTimer(projectId: nat, taskId: nat, now: nat)
    | PauseTimer
    | ResumeTimer
    | StartBreak
    | StopTimer
    | TimerTick
    | KeyboardTick
    | MouseTick
    | ScreenshotTaken(now: nat)

  predicate TimerAction(a: Action)
  {
    a.StartTimer? || a.PauseTimer? || a.ResumeTimer? || a.StartBreak? || a.StopTimer? || a.TimerTick?
  }

  /** The activity intervals only increment while the timer runs unpaused. */
  predicate ActivityCounting(t: TimerState)
  {
    t.isRunning && !t.isPaused
  }

  /** A timer operation: it changes the timer and, for start, resume and stop,
      the navigation flag, and nothing else. */
  function TimerStep(c: Context, a: Action): (r: Context)
    requires TimerAction(a)
    ensures Timer.Valid(c.timer) ==> Timer.Valid(r.timer)
    ensures r.(timer := c.timer, canNavigateToTimer := c.canNavigateToTimer) == c
    ensures a.StartTimer? ==> !r.canNavigateToTimer
    ensures a.ResumeTimer? || a.StopTimer? ==> r.canNavigateToTimer
    ensures !(a.StartTimer? || a.ResumeTimer? || a.StopTimer?) ==> r.canNavigateToTimer == c.canNavigateToTimer
    ensures r.timer.elapsedTime > c.timer.elapsedTime ==>
              a.TimerTick? && Accruing(c.timer) && r.timer.elapsedTime == c.timer.elapsedTime + 1000
    ensures a.StartTimer? ==> r.timer == Start(a.projectId, a.taskId, a.now)
    ensures a.PauseTimer? ==> r.timer == Pause(c.timer)
    ensures a.ResumeTimer? ==> r.timer == Resume(c.timer)
    ensures a.StartBreak? ==> r.timer == Break(c.timer)
    ensures a.StopTimer? ==> r.timer == Stop(c.timer)
    ensures a.TimerTick? ==> r.timer == Tick(c.timer)
  {
    match a
    case StartTimer(projectId, taskId, now) =>
      c.(timer := Start(projectId, taskId, now), canNavigateToTimer := false)
    case PauseTimer => c.(timer := Pause(c.timer))
    case ResumeTimer => c.(timer := Resume(c.timer), canNavigateToTimer := true)
    case StartBreak => c.(timer := Break(c.timer))
    case StopTimer => c.(timer := Stop(c.timer), canNavigateToTimer := true)
    case TimerTick => c.(timer := Tick(c.timer))
  }

  /** An operation that leaves the timer alone. */
  function OtherStep(c: Context, a: Action): (r: Context)
    requires !TimerAction(a)
    ensures r.timer == c.timer
    ensures !a.SetSelection? ==>
              r.(tasks := c.tasks, loading := c.loading, error := c.error, keyboardCount := c.keyboardCount,
                 mouseCount := c.mouseCount, lastScreenshotTime := c.lastScreenshotTime) == c
    ensures a.SetSelection? ==> r == SetTaskSelection(c, a.patch)
    ensures a.TasksLoaded? ==> r.tasks == a.data && !r.loading
    ensures a.TasksFailed? ==> r.error == Some(LoadError) && !r.loading
    ensures a.ScreenshotTaken? ==> r.lastScreenshotTime == Some(a.now)
    ensures !a.TasksLoaded? ==> r.tasks == c.tasks
    ensures !(a.TasksLoaded? || a.TasksFailed?) ==> r.loading == c.loading
    ensures !a.TasksFailed? ==> r.error == c.error
    ensures !a.ScreenshotTaken? ==> r.lastScreenshotTime == c.lastScreenshotTime
    ensures r.keyboardCount == (if a.KeyboardTick? && ActivityCounting(c.timer) then c.keyboardCount + 1 else c.keyboardCount)
    ensures r.mouseCount == (if a.MouseTick? && ActivityCounting(c.timer) then c.mouseCount + 1 else c.mouseCount)
  {
    match a
    case TasksLoaded(data) => c.(tasks := data, loading := false)
    case TasksFailed => c.(error := Some(LoadError), loading := false)
    case SetSelection(p) => SetTaskSelection(c, p)
    case KeyboardTick =>
      if ActivityCounting(c.timer) then c.(keyboardCount := c.keyboardCount + 1) else c
    case MouseTick =>
      if ActivityCounting(c.timer) then c.(mouseCount := c.mouseCount + 1) else c
    case ScreenshotTaken(now) => c.(lastScreenshotTime := Some(now))
  }

  /** One operation of the provider. */
  function Step(c: Context, a: Action): (r: Context)
    ensures Timer.Valid(c.timer) ==> Timer.Valid(r.timer)
    ensures !a.SetSelection? ==> r.selection == c.selection && r.selectedTaskDetails == c.selectedTaskDetails
    ensures !a.TasksLoaded? ==> r.tasks == c.tasks
    ensures !TimerAction(a) ==> r.timer == c.timer
    ensures r.keyboardCount == c.keyboardCount
            || (r.keyboardCount == c.keyboardCount + 1 && a.KeyboardTick? && ActivityCounting(c.timer))
    ensures r.mouseCount == c.mouseCount
            || (r.mouseCount == c.mouseCount + 1 && a.MouseTick? && ActivityCounting(c.timer))
    ensures a.StartTimer? ==> !r.canNavigateToTimer
    ensures a.ResumeTimer? || a.StopTimer? ==> r.canNavigateToTimer
    ensures r.timer.elapsedTime > c.timer.elapsedTime ==>
              a.TimerTick? && Accruing(c.timer) && r.timer.elapsedTime == c.timer.elapsedTime + 1000
    ensures a.KeyboardTick? && ActivityCounting(c.timer) ==> r.keyboardCount == c.keyboardCount + 1
    ensures a.MouseTick? && ActivityCounting(c.timer) ==> r.mouseCount == c.mouseCount + 1
    ensures a.TasksLoaded? ==> r.tasks == a.data && !r.loading
    ensures a.TasksFailed? ==> r.error == Some(LoadError) && !r.loading
    ensures a.ScreenshotTaken? ==> r.lastScreenshotTime == Some(a.now)
    ensures !(a.SetSelection? || a.StartTimer? || a.ResumeTimer? || a.StopTimer?) ==>
              r.canNavigateToTimer == c.canNavigateToTimer
    ensures !(a.TasksLoaded? || a.TasksFailed?) ==> r.loading == c.loading
    ensures !a.TasksFailed? ==> r.error == c.error
    ensures !a.ScreenshotTaken? ==> r.lastScreenshotTime == c.lastScreenshotTime
    ensures a.SetSelection? ==> r == SetTaskSelection(c, a.patch)
    ensures a.StartTimer? ==> r.timer == Start(a.projectId, a.taskId, a.now)
    ensures a.PauseTimer? ==> r.timer == Pause(c.timer)
    ensures a.ResumeTimer? ==> r.timer == Resume(c.timer)
    ensures a.StartBreak? ==> r.timer == Break(c.timer)
    ensures a.StopTimer? ==> r.timer == Stop(c.timer)
    ensures a.TimerTick? ==> r.timer == Tick(c.timer)
  {
    if TimerAction(a) then TimerStep(c, a) else OtherStep(c, a)
  }

  /** The provider after a sequence of operations. */
  function Run(c: Context, actions: seq<Action>): Context
    decreases |actions|
  {
    if |actions| == 0 then c else Run(Step(c, actions[0]), actions[1..])
  }

  /** Every operation sequence keeps the timer invariant: a break is a pause,
      the timer runs exactly when it has a start time, and the elapsed time is
      whole seconds, zero while stopped. */
  lemma {:induction false} RunKeepsTimerValid(c: Context, actions: seq<Action>)
    requires Timer.Valid(c.timer)
    ensures Timer.Valid(Run(c, actions).timer)
    decreases |actions|
  {
    if |actions| > 0 {
      RunKeepsTimerValid(Step(c, actions[0]), actions[1..]);
    }
  }

  /** Hence every state reachable from the provider's initial state has a valid timer. */
  lemma ReachableTimerValid(actions: seq<Action>)
    ensures Timer.Valid(Run(Initial, actions).timer)
  {
    IdleValid();
    RunKeepsTimerValid(Initial, actions);
  }

  /** The activity counters never go down, and grow by at most one per operation. */
  lemma {:induction false} RunCountersGrowByOne(c: Context, actions: seq<Action>)
    ensures c.keyboardCount <= Run(c, actions).keyboardCount <= c.keyboardCount + |actions|
    ensures c.mouseCount <= Run(c, actions).mouseCount <= c.mouseCount + |actions|
    decreases |actions|
  {
    if |actions| > 0 {
      RunCountersGrowByOne(Step(c, actions[0]), actions[1..]);
    }
  }

  /** Operations other than a selection change leave the selected path and its
      derived task alone. */
  lemma {:induction false} RunKeepsSelection(c: Context, actions: seq<Action>)
    requires forall i :: 0 <= i < |actions| ==> !actions[i].SetSelection?
    ensures Run(c, actions).selection == c.selection
    ensures Run(c, actions).selectedTaskDetails == c.selectedTaskDetails
    decreases |actions|
  {
    if |actions| > 0 {
      RunKeepsSelection(Step(c, actions[0]), actions[1..]);
    }
  }

  /** A stopped timer (idle, paused or on a break) neither accrues time nor
      counts activity, whatever operations that do not touch the timer run. */
  lemma {:induction false} NoAccrualWithoutTimerActions(c: Context, actions: seq<Action>)
    requires !ActivityCounting(c.timer)
    requires forall i :: 0 <= i < |actions| ==> !TimerAction(actions[i])
    ensures Run(c, actions).timer == c.timer
    ensures Run(c, actions).keyboardCount == c.keyboardCount
    ensures Run(c, actions).mouseCount == c.mouseCount
    decreases |actions|
  {
    if |actions| > 0 {
      NoAccrualWithoutTimerActions(Step(c, actions[0]), actions[1..]);
    }
  }
}
