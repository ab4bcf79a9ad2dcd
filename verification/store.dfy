/** The mock backend: local storage as a record of optional slots (JSON
    encoding taken as the identity), the seed-or-load of the task list, the
    status update, the per-task timer records and the bounded activity history.
    Timestamps are opaque readings passed in by the caller. */
module Store {
  import opened Basics
  import opened Tasks
  import opened Decimal
  import Fixture

  datatype TimerRecord = TimerRecord(
    projectId: nat,
    taskId: nat,
    elapsedTime: nat,
    todayTime: nat,
    totalTime: nat,
    lastUpdated: nat)

  datatype ActivityRecord = ActivityRecord(
    keyboardCount: nat,
    mouseCount: nat,
    lastScreenshotTime: Option<nat>,
    timestamp: nat)

  /** The four storage keys the backend uses. */
  datatype Storage = Storage(
    tasks: Option<seq<Task>>,
    timerData: Option<map<string, TimerRecord>>,
    activityData: Option<ActivityRecord>,
    activityHistory: Option<seq<ActivityRecord>>)

  const EmptyStorage := Storage(None, None, None, None)

  /** The most activity snapshots the history keeps. */
  const HistoryLimit := 100

  /** `fetchTasks`: the stored list if there is one, otherwise the fixture,
      which is stored first. */
  function FetchTasks(st: Storage): (r: (seq<Task>, Storage))
    ensures st.tasks.Some? ==> r == (st.tasks.value, st)
    ensures st.tasks.None? ==> r.0 == Fixture.MockTasks() && r.1 == st.(tasks := Some(Fixture.MockTasks()))
    ensures r.1.tasks == Some(r.0)
  {
    match st.tasks
    case Some(ts) => (ts, st)
    case None => (Fixture.MockTasks(), st.(tasks := Some(Fixture.MockTasks())))
  }

  /** A second fetch sees what the first one returned and stores nothing new. */
  lemma FetchTwice(st: Storage)
    ensures FetchTasks(FetchTasks(st).1) == FetchTasks(st)
  {
  }

  /** On fresh storage the first fetch yields the fixture, a consistent hierarchy. */
  lemma FirstFetchWellFormed()
    ensures FetchTasks(EmptyStorage).0 == Fixture.MockTasks()
    ensures WellFormed(FetchTasks(EmptyStorage).0)
  {
    Fixture.MockTasksWellFormed();
  }

  /** The two rejections of `updateTaskStatus`. */
  datatype StoreError = NoTasksFound | TaskNotFound

  /** `updateTaskStatus`: set the status of the first task with the id and
      store the list again; answers the updated task. */
  function UpdateTaskStatus(st: Storage, id: nat, status: Status): (r: (Result<Task, StoreError>, Storage))
    ensures r.0 == Err(NoTasksFound) <==> st.tasks.None?
    ensures r.0 == Err(TaskNotFound) <==>
              st.tasks.Some? && forall i :: 0 <= i < |st.tasks.value| ==> st.tasks.value[i].id != id
    ensures r.0.Err? ==> r.1 == st
    ensures r.0.Ok? ==> r.1 == st.(tasks := r.1.tasks)
  {
    match st.tasks
    case None => (Err(NoTasksFound), st)
    case Some(ts) =>
      match FindIndex(ts, id)
      case None => (Err(TaskNotFound), st)
      case Some(i) =>
        var updated := ts[i].(status := status);
        (Ok(updated), st.(tasks := Some(ts[i := updated])))
  }

  /** A successful update changes exactly one entry, the first with the id, and
      in it only the status; it answers that entry as stored. */
  lemma UpdateTaskStatusChangesOneEntry(st: Storage, id: nat, status: Status)
    requires UpdateTaskStatus(st, id, status).0.Ok?
    ensures var (res, st') := UpdateTaskStatus(st, id, status);
      var (before, after) := (st.tasks.value, st'.tasks.value);
      && |after| == |before|
      && exists i :: 0 <= i < |before|
           && before[i].id == id
           && (forall j :: 0 <= j < i ==> before[j].id != id)
           && after[i] == before[i].(status := status)
           && res.value == after[i]
           && (forall j :: 0 <= j < |before| && j != i ==> after[j] == before[j])
  {
    var i := FindIndex(st.tasks.value, id).value;
    assert st.tasks.value[i].id == id;
  }

  /** The storage key of a timer record: `${projectId}_${taskId}`. */
  function TimerKey(projectId: nat, taskId: nat): string
  {
    Digits(projectId) + "_" + Digits(taskId)
  }

  /** Different (project, task) pairs never share a key. */
  lemma TimerKeyInjective(p1: nat, t1: nat, p2: nat, t2: nat)
    requires TimerKey(p1, t1) == TimerKey(p2, t2)
    ensures p1 == p2 && t1 == t2
  {
    var a, b, c, d := Digits(p1), Digits(t1), Digits(p2), Digits(t2);
    assert !IsDigit('_');
    var k := a + "_" + b;
    assert k == c + "_" + d;
    assert k[|a|] == '_' && k[|c|] == '_';
    assert forall i :: 0 <= i < |a| ==> k[i] == a[i];
    assert forall i :: 0 <= i < |c| ==> k[i] == c[i];
    assert |a| == |c|;
    assert a == k[..|a|] == c;
    assert b == k[|a| + 1..] == d;
    DigitsInjective(p1, p2);
    DigitsInjective(t1, t2);
  }

  /** `saveTimerData`: write the record under its key, starting from an empty
      map when none is stored. */
  function SaveTimerData(st: Storage, projectId: nat, taskId: nat, elapsedTime: nat,
                         todayTime: nat, totalTime: nat, now: nat): (r: Storage)
    ensures r.timerData.Some?
    ensures var m := r.timerData.value; var key := TimerKey(projectId, taskId);
      && key in m
      && m[key] == TimerRecord(projectId, taskId, elapsedTime, todayTime, totalTime, now)
      && m.Keys == st.timerData.GetOr(map[]).Keys + {key}
      && forall k :: k in m && k != key ==> m[k] == st.timerData.GetOr(map[])[k]
    ensures r.(timerData := st.timerData) == st
  {
    var m := st.timerData.GetOr(map[]);
    var key := TimerKey(projectId, taskId);
    st.(timerData := Some(m[key := TimerRecord(projectId, taskId, elapsedTime, todayTime, totalTime, now)]))
  }

  /** The stored record of a (project, task) pair, if any. */
  function TimerRecordOf(st: Storage, projectId: nat, taskId: nat): Option<TimerRecord>
  {
    var key := TimerKey(projectId, taskId);
    if st.timerData.Some? && key in st.timerData.value then Some(st.timerData.value[key]) else None
  }

  /** Saving one pair's record leaves every other pair's record as it was. */
  lemma SaveTimerDataIsolated(st: Storage, projectId: nat, taskId: nat, elapsedTime: nat,
                              todayTime: nat, totalTime: nat, now: nat, p: nat, t: nat)
    requires p != projectId || t != taskId
    ensures TimerRecordOf(SaveTimerData(st, projectId, taskId, elapsedTime, todayTime, totalTime, now), p, t)
            == TimerRecordOf(st, p, t)
  {
    if TimerKey(p, t) == TimerKey(projectId, taskId) {
      TimerKeyInjective(p, t, projectId, taskId);
    }
  }

  /** The last `n` elements of `s` (all of `s` when it is shorter). */
  function Last<T>(s: seq<T>, n: nat): (r: seq<T>)
    ensures |r| == if |s| <= n then |s| else n
  {
    if |s| <= n then s else s[|s| - n..]
  }

  /** `push` followed by one `shift` when the history has grown past the limit. */
  function PushHistory(h: seq<ActivityRecord>, rec: ActivityRecord): (r: seq<ActivityRecord>)
    ensures |h| <= HistoryLimit ==> |r| <= HistoryLimit
    ensures |r| > 0 && r[|r| - 1] == rec
    ensures |h| < HistoryLimit ==> r == h + [rec]
    ensures |h| >= HistoryLimit ==> |r| == |h| && r == h[1..] + [rec]
    ensures |h| <= HistoryLimit ==> r == Last(h + [rec], HistoryLimit)
  {
    var pushed := h + [rec];
    if |pushed| > HistoryLimit then pushed[1..] else pushed
  }

  /** `saveActivityData`: replace the latest snapshot and append it to the
      history, evicting the oldest entry when the history overflows. */
  function SaveActivityData(st: Storage, keyboardCount: nat, mouseCount: nat,
                            lastScreenshotTime: Option<nat>, now: nat): (r: Storage)
    ensures r.activityData == Some(ActivityRecord(keyboardCount, mouseCount, lastScreenshotTime, now))
    ensures r.activityHistory.Some?
    ensures r.activityHistory.value == PushHistory(st.activityHistory.GetOr([]), r.activityData.value)
    ensures r.(activityData := st.activityData, activityHistory := st.activityHistory) == st
  {
    var rec := ActivityRecord(keyboardCount, mouseCount, lastScreenshotTime, now);
    st.(activityData := Some(rec), activityHistory := Some(PushHistory(st.activityHistory.GetOr([]), rec)))
  }

  /** Dropping elements from the front before appending does not change which
      elements the last `n` are, provided at least `n` were kept. */
  lemma LastOfLast<T>(x: seq<T>, y: seq<T>, n: nat)
    ensures Last(Last(x, n) + y, n) == Last(x + y, n)
  {
    if |x| > n {
      assert Last(x, n) + y == (x + y)[|x| - n..];
    }
  }

  lemma AppendSplit<T>(h: seq<T>, recs: seq<T>)
    requires |recs| > 0
    ensures h + [recs[0]] + recs[1..] == h + recs
  {
    assert recs == [recs[0]] + recs[1..];
  }

  /** The history after pushing `recs` one by one. */
  function PushAll(h: seq<ActivityRecord>, recs: seq<ActivityRecord>): seq<ActivityRecord>
    decreases |recs|
  {
    if |recs| == 0 then h else PushAll(PushHistory(h, recs[0]), recs[1..])
  }

  /** The history is a first-in first-out window: after any number of saves
      from a history within the limit, it holds exactly the newest 100 of all
      the snapshots, oldest first. */
  lemma {:induction false} PushAllKeepsNewest(h: seq<ActivityRecord>, recs: seq<ActivityRecord>)
    requires |h| <= HistoryLimit
    ensures PushAll(h, recs) == Last(h + recs, HistoryLimit)
    decreases |recs|
  {
    if |recs| > 0 {
      var x, rest := recs[0], recs[1..];
      var h' := PushHistory(h, x);
      PushAllKeepsNewest(h', rest);
      LastOfLast(h + [x], rest, HistoryLimit);
      AppendSplit(h, recs);
    }
  }
}
