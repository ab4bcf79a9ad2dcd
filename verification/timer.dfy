/** The timer record and its transitions: start, pause, resume, break, stop,
    and the once-a-second tick. */
module Timer {
  import opened Basics

  /** `elapsedTime` is in milliseconds, `todayTime` and `totalTime` in seconds;
      `startTime` is an opaque clock reading. */
  datatype TimerState = TimerState(
    isRunning: bool,
    isPaused: bool,
    isBreak: bool,
    startTime: Option<nat>,
    elapsedTime: nat,
    todayTime: nat,
    totalTime: nat,
    projectId: Option<nat>,
    taskId: Option<nat>)

  /** The state the provider starts with. */
  const Idle := TimerState(false, false, false, None, 0, 0, 0, None, None)

  /** The tick interval exists exactly while the timer is running, not paused
      and not on a break. */
  predicate Accruing(t: TimerState)
  {
    t.isRunning && !t.isPaused && !t.isBreak
  }

  /** The facts every reachable timer satisfies. */
  predicate Valid(t: TimerState)
  {
    && (t.isBreak ==> t.isPaused)
    && (t.isRunning <==> t.startTime.Some?)
    && t.elapsedTime % 1000 == 0
    && (!t.isRunning ==> t.elapsedTime == 0)
  }

  /** `startTimer`: a fresh running session bound to the task, with every
      counter, the day and total ones included, back at zero. */
  function Start(projectId: nat, taskId: nat, now: nat): (r: TimerState)
    ensures Valid(r) && Accruing(r)
    ensures r.startTime == Some(now)
    ensures r.projectId == Some(projectId) && r.taskId == Some(taskId)
    ensures r.elapsedTime == 0 && r.todayTime == 0 && r.totalTime == 0
  {
    TimerState(true, false, false, Some(now), 0, 0, 0, Some(projectId), Some(taskId))
  }

  /** `pauseTimer`: paused, not on a break; nothing else changes. */
  function Pause(t: TimerState): (r: TimerState)
    ensures r.isPaused && !r.isBreak && !Accruing(r)
    ensures r.(isPaused := t.isPaused, isBreak := t.isBreak) == t
    ensures Valid(t) ==> Valid(r)
  {
    t.(isPaused := true, isBreak := false)
  }

  /** `resumeTimer`: neither paused nor on a break; nothing else changes. */
  function Resume(t: TimerState): (r: TimerState)
    ensures !r.isPaused && !r.isBreak
    ensures Accruing(r) <==> t.isRunning
    ensures r.(isPaused := t.isPaused, isBreak := t.isBreak) == t
    ensures Valid(t) ==> Valid(r)
  {
    t.(isPaused := false, isBreak := false)
  }

  /** `startBreak`: paused and on a break; nothing else changes. */
  function Break(t: TimerState): (r: TimerState)
    ensures r.isPaused && r.isBreak && !Accruing(r)
    ensures r.(isPaused := t.isPaused, isBreak := t.isBreak) == t
    ensures Valid(t) ==> Valid(r)
  {
    t.(isPaused := true, isBreak := true)
  }

  /** `stopTimer`: back to idle, except that the whole seconds of the session
      are added to the day and total counters. */
  function Stop(t: TimerState): (r: TimerState)
    ensures Valid(r)
    ensures r.(todayTime := 0, totalTime := 0) == Idle
    ensures r.todayTime >= t.todayTime && r.totalTime >= t.totalTime
    ensures r.todayTime - t.todayTime == r.totalTime - t.totalTime
    ensures (r.totalTime - t.totalTime) * 1000 <= t.elapsedTime < (r.totalTime - t.totalTime + 1) * 1000
  {
    var seconds := t.elapsedTime / 1000;
    TimerState(false, false, false, None, 0, t.todayTime + seconds, t.totalTime + seconds, None, None)
  }

  /** One firing of the one-second interval. The interval only exists while the
      timer is accruing, and its callback adds a second only when `startTime`
      is truthy. */
  function Tick(t: TimerState): (r: TimerState)
    ensures r.(elapsedTime := t.elapsedTime) == t
    ensures Accruing(t) && Truthy(t.startTime) ==> r.elapsedTime == t.elapsedTime + 1000
    ensures !(Accruing(t) && Truthy(t.startTime)) ==> r == t
    ensures Valid(t) ==> Valid(r)
  {
    if Accruing(t) && Truthy(t.startTime) then t.(elapsedTime := t.elapsedTime + 1000) else t
  }

  lemma PauseIdempotent(t: TimerState)
    ensures Pause(Pause(t)) == Pause(t)
  {
  }

  lemma BreakIdempotent(t: TimerState)
    ensures Break(Break(t)) == Break(t)
  {
  }

  /** In a valid timer the session holds whole seconds only, so stopping
      carries every millisecond of it into the counters. */
  lemma StopLosesNothing(t: TimerState)
    requires Valid(t)
    ensures (Stop(t).totalTime - t.totalTime) * 1000 == t.elapsedTime
    ensures (Stop(t).todayTime - t.todayTime) * 1000 == t.elapsedTime
  {
  }

  /** Idle satisfies the invariant and does not accrue. */
  lemma IdleValid()
    ensures Valid(Idle) && !Accruing(Idle)
  {
  }

  /** Starting a new session discards the counters an earlier stop filled: after
      start, `n` ticks and stop, both counters hold exactly the `n` seconds of
      the last session, whatever came before. */
  lemma SessionCountersStartFromZero(projectId: nat, taskId: nat, now: nat, n: nat)
    requires now != 0
    ensures Stop(Ticks(Start(projectId, taskId, now), n)).todayTime == n
    ensures Stop(Ticks(Start(projectId, taskId, now), n)).totalTime == n
  {
    TicksWhileAccruing(Start(projectId, taskId, now), n);
  }

  /** `n` consecutive ticks. */
  function Ticks(t: TimerState, n: nat): TimerState
    decreases n
  {
    if n == 0 then t else Ticks(Tick(t), n - 1)
  }

  /** `n` ticks of an accruing timer with a truthy start time add `n` seconds
      and change nothing else. */
  lemma {:induction false} TicksWhileAccruing(t: TimerState, n: nat)
    requires Accruing(t) && Truthy(t.startTime)
    ensures Ticks(t, n) == t.(elapsedTime := t.elapsedTime + 1000 * n)
    decreases n
  {
    if n > 0 {
      TicksWhileAccruing(Tick(t), n - 1);
    }
  }
}
