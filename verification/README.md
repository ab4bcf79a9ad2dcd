# Work pulse tracker: task selection, timer and mock backend in Dafny

This project models the core of a desktop time tracker in Dafny. A user drills down through a five-level task hierarchy: project, task, subtask, action, subaction. The user then starts a timer on the deepest selected task, and pauses it, takes breaks, resumes and stops it. Meanwhile the application counts keyboard and mouse activity and records when a screenshot was last taken. A mock backend keeps the task list, per-task timer records and a bounded activity history in local storage.

The model follows the structure of the program:

| module | file | what it models |
|---|---|---|
| `Basics` | basics.dfy | `Option`, `Result`, and JavaScript truthiness of a nullable id (`0` and `null` are falsy) |
| `Decimal` | decimal.dfy | `Number.prototype.toString`, `padStart(width, '0')`, and a decimal parser that undoes both |
| `Tasks` | tasks.dfy | the `Task` record, `find`/`findIndex` by id, the level/parent filter, and the hierarchy the list describes |
| `Fixture` | fixture.dfy | the 21-task mock list the backend seeds itself with |
| `TaskSelection` | task_selection.dfy | the selection path, the sparse update `setTaskSelection` merges with its cascading reset, and the derived selected task |
| `Timer` | timer.dfy | the timer record and its start/pause/resume/break/stop/tick transitions |
| `Clock` | clock.dfy | `formatTime`'s `HH:MM:SS` rendering |
| `Provider` | provider.dfy | the task context as one immutable record, with every operation and effect as an `Action` |
| `Store` | store.dfy | `fetchTasks`, `updateTaskStatus`, `saveTimerData` and `saveActivityData` over local storage |
| `SelectionPage` | selection_page.dfy | the chained dropdowns, the start button's visibility and enabling rule, and `handleStart` |
| `Scenario` | scenario.dfy | the end-to-end walk: load, drill down to subaction 101221, start, one tick, stop |

Modelling conventions:

- **Ids and null.** Ids are `nat` and `null` is `None`.
- **Truthiness.** `if (x)` on a nullable id is `Truthy(x)`, so an id of 0 behaves as JavaScript treats it.
- **Partial updates.** A key of a `Partial<TaskSelection>` is `Absent` (left out), `Null`, or `Id(n)`. The cascade tests `!== undefined`, so an explicit `null` also clears the levels below it.
- **Local storage.** Storage is a record with one optional slot per key, and JSON encoding is taken as the identity.
- **Clock and timestamps.** Clock readings (`Date.now()`, `new Date()`) are opaque `nat` parameters.
- **Timer-driven effects.** Each firing of an interval or timeout is one `Action`:
  - the one-second tick;
  - the 10-second keyboard counter;
  - the 5-second mouse counter;
  - the random screenshot.
- **Displayed time.** `timeFormatted` is computed from `elapsedTime` when it is read. The provider caches it in state through an effect that recomputes it on every change of `elapsedTime`, so the two always agree once the effect has run.

`startTimer` (src/contexts/TaskContext.tsx:235-236) resets `todayTime` and `totalTime` to zero, so after a stop they hold only the last session's seconds; `Timer.SessionCountersStartFromZero` states this.

## Model

| member | source | states |
|---|---|---|
| Decimal.Digits | src/contexts/TaskContext.tsx:123 | `toString()` of a non-negative integer is a non-empty digit string; it has one digit exactly when the number is below 10, and a leading zero only for 0 |
| Decimal.PadStart | src/contexts/TaskContext.tsx:123 | `padStart(width, '0')` keeps the string as its suffix, fills exactly the missing width with '0', and never truncates |
| Decimal.ParseDigitsOfDigits | src/contexts/TaskContext.tsx:123 | reading the decimal rendering back gives the number |
| Decimal.ParsePadStart | src/contexts/TaskContext.tsx:123 | zero padding does not change the value the digits denote |
| Decimal.PadStartDigits | src/contexts/TaskContext.tsx:123 | padding a digit string gives a digit string |
| Decimal.DigitsBelowHundred | src/contexts/TaskContext.tsx:121-123 | minutes and seconds (below 100) take at most two digits, so padding to two makes them exactly two |
| Decimal.DigitsInjective | src/utils/api.ts:99 | different numbers render as different strings |
| Tasks.FindIndex | src/utils/api.ts:69-74 | `findIndex` on the id: none (`findIndex`'s -1) exactly when no task has the id, otherwise the first position that has it |
| Tasks.TaskById | src/contexts/TaskContext.tsx:224-226 | `getTaskById`: nothing exactly when no task has the id, otherwise the first task in list order carrying it |
| Tasks.TasksByLevel | src/contexts/TaskContext.tsx:220-222 | `getTasksByLevel`: only tasks at that level with exactly that parent (null matches the parentless), in list order, and every such task as many times as it occurs |
| Tasks.TasksByLevelComplete | src/contexts/TaskContext.tsx:220-222 | every listed task at that level with that parent is among `getTasksByLevel`'s results |
| Tasks.TaskByIdOfMember | src/contexts/TaskContext.tsx:224-226 | with distinct ids, looking up a listed task's id finds that very task |
| Tasks.SiblingsShareLevel | src/contexts/TaskContext.tsx:7-16 | in a well-formed hierarchy, tasks with the same parent sit at the same level |
| Tasks.WellFormedByWitness | src/utils/api.ts:4-39 | a list whose ids increase, and whose every non-project task has a parent one level up in the same project, has distinct ids and is a well-formed hierarchy |
| Fixture.MockTasks | src/utils/api.ts:4-39 | the 21 mock tasks in list order: three projects, then the level-1 tasks, subtasks, actions and subactions, each with its id, name, status, level, parent and project |
| Fixture.MockTasksWellFormed | src/utils/api.ts:4-39 | the mock list has distinct ids, its level-0 tasks have no parent, and every other task's parent is in the list, one level up and in the same project |
| Fixture.MockSubaction | src/utils/api.ts:37 | the mock list has 21 entries, and subaction 101221 is entry 19 and in progress |
| TaskSelection.PatchAt | src/pages/TaskSelectionPage.tsx:56-97 | a dropdown's change sends exactly one key: its own level, set to the picked id or null |
| TaskSelection.Select | src/contexts/TaskContext.tsx:173-192 | after the merge and the cascade, a level is cleared when the update carries any key above it; otherwise it takes the update's value, or keeps the old one when the key is absent |
| TaskSelection.Level4OnlyResetsNothing | src/contexts/TaskContext.tsx:178-192 | an update carrying only `level4Id` changes that level and nothing else, since the cascade has no branch for it |
| TaskSelection.Deepest | src/contexts/TaskContext.tsx:195-211 | the selected task id is the first truthy id among levels 4, 3, 2, 1; there is one exactly when some level below the project is truthy |
| TaskSelection.Derive | src/contexts/TaskContext.tsx:194-214 | navigation is allowed exactly when some level 1-4 is truthy; the details are the first listed task with the deepest id, and absent exactly when there is no deepest id or no task has it |
| Timer.Idle | src/contexts/TaskContext.tsx:84-94 | the initial timer: not running, not paused, no break, no start time, no project or task, and elapsed, today and total all zero |
| Timer.Start | src/contexts/TaskContext.tsx:228-239 | `startTimer` gives a valid, accruing session bound to the project and task, started at `now`, with elapsed, today and total all zero |
| Timer.Pause | src/contexts/TaskContext.tsx:243-249 | `pauseTimer` sets paused and clears the break; every other field is unchanged and the timer stops accruing; validity is kept |
| Timer.Resume | src/contexts/TaskContext.tsx:251-256 | `resumeTimer` clears paused and break and changes nothing else; validity is kept |
| Timer.Break | src/contexts/TaskContext.tsx:260-266 | `startBreak` sets paused and break and changes nothing else; validity is kept |
| Timer.Stop | src/contexts/TaskContext.tsx:268-282 | `stopTimer` returns to the idle record, except that today and total each grow by the same whole number of seconds, the floor of the elapsed milliseconds over 1000 |
| Timer.Tick | src/contexts/TaskContext.tsx:130-137 | a tick adds 1000 ms exactly when the interval exists (running, not paused, not on a break) and the start time is truthy, changes nothing else, and keeps validity |
| Timer.PauseIdempotent | src/contexts/TaskContext.tsx:243-249 | pausing twice is pausing once |
| Timer.BreakIdempotent | src/contexts/TaskContext.tsx:260-266 | starting a break twice is starting it once |
| Timer.StopLosesNothing | src/contexts/TaskContext.tsx:268-282 | on a valid timer, elapsed time is whole seconds, so stopping moves every millisecond into today and total |
| Timer.IdleValid | src/contexts/TaskContext.tsx:84-94 | the initial timer satisfies the invariant and is not accruing |
| Timer.TicksWhileAccruing | src/contexts/TaskContext.tsx:130-137 | `n` ticks of an accruing timer with a truthy start add exactly `n` seconds and change nothing else |
| Timer.SessionCountersStartFromZero | src/contexts/TaskContext.tsx:228-282 | after start, `n` ticks and stop, today and total are exactly `n`, whatever they held before |
| Clock.Pad2 | src/contexts/TaskContext.tsx:123 | `toString().padStart(2, '0')` of one field: its decimal digits, with a leading zero when there is only one |
| Clock.Pad2Shape | src/contexts/TaskContext.tsx:123 | a padded field has at least two digits, exactly two below 100, and reads back as its number |
| Clock.SplitSeconds | src/contexts/TaskContext.tsx:120-122 | the hours, minutes and seconds `formatTime` computes recombine to the input, with minutes and seconds below 60 |
| Clock.FormatTime | src/contexts/TaskContext.tsx:119-124 | `formatTime`: hours, minutes and seconds, each padded to two digits and joined by colons; the output has colons 6 and 3 characters from the end, at least two hour digits with no leading zero beyond the two-digit padding, and two-digit minutes and seconds below 60; parsing it back gives the seconds |
| Clock.FormatElapsed | src/contexts/TaskContext.tsx:126 | the display of an elapsed time is `formatTime` of its whole seconds; it has the clock shape, no hour zero beyond the padding, and parses back to the elapsed milliseconds over 1000, rounded down |
| Clock.FormatTimeFields | src/contexts/TaskContext.tsx:120-123 | once the hours, minutes and seconds of the input are known, the display is their padded fields joined by colons |
| Clock.FormatTimeInjective | src/contexts/TaskContext.tsx:119-124 | different second counts are displayed differently |
| Clock.Pad2OneDigit | src/contexts/TaskContext.tsx:123 | a single-digit field gets one leading zero |
| Clock.FormatElapsedUnderOneSecond | src/contexts/TaskContext.tsx:97 | any elapsed time under a second shows `00:00:00`, the initial display |
| Clock.FormatElapsedOneSecond | src/contexts/TaskContext.tsx:119-126 | any elapsed time from 1000 to 1999 ms shows `00:00:01` |
| Clock.FormatElapsedHourExample | src/contexts/TaskContext.tsx:119-126 | any elapsed time within 1 h 2 min 5 s (plus under a second) shows `01:02:05` |
| Provider.Initial | src/contexts/TaskContext.tsx:67-97 | the provider's initial state: no tasks, loading, no error, the empty path, no details, navigation not allowed, the idle timer, both counters zero and no screenshot |
| Provider.TimeFormatted | src/contexts/TaskContext.tsx:117-127 | `timeFormatted` is the elapsed time's display: clock-shaped, with no hour zero beyond the padding, and it parses back to the elapsed milliseconds over 1000, rounded down |
| Provider.IsTaskSelected | src/contexts/TaskContext.tsx:286-288 | `isTaskSelected` holds exactly when level 1 is not null, so an id of 0 counts as selected |
| Provider.SetTaskSelection | src/contexts/TaskContext.tsx:173-218 | the new path is the merged and cascaded one, the derived fields are recomputed from it against the loaded list, and nothing else in the context changes |
| Provider.TimerStep | src/contexts/TaskContext.tsx:228-284 | a timer operation keeps the timer valid and changes only the timer and the navigation flag: start blocks navigation, resume and stop allow it, and elapsed time grows only by a 1000 ms tick while accruing. The new timer is the `Timer` operation's result: `Start` on the given project, task and time, or `Pause`, `Resume`, `Break`, `Stop` or `Tick` of the old timer |
| Provider.OtherStep | src/contexts/TaskContext.tsx:99-320 | every other operation leaves the timer alone. A selection change is `setTaskSelection`. A load sets the list and clears `loading`, a failed load sets the error and clears `loading`, and a screenshot records its time. A counter grows by exactly one on its own firing while running and not paused, and is otherwise unchanged. Each operation leaves every other field as it was |
| Provider.Step | src/contexts/TaskContext.tsx:99-320 | every operation keeps the timer valid. A selection change yields `setTaskSelection` of its update, and each timer operation's new timer is the result of its `Timer` operation. Only a selection change touches the path and details, only a load touches the list, and only timer operations touch the timer. A counter grows by exactly one on its own firing while running and not paused, and is otherwise unchanged. A load sets the list and clears `loading`, a failed load sets the error and clears `loading`, and a screenshot records its time; `loading`, the error and the screenshot time change only then. Start blocks navigation, resume and stop allow it, and only those and a selection change touch it. Elapsed time grows only by a 1000 ms tick while accruing |
| Provider.RunKeepsTimerValid | src/contexts/TaskContext.tsx:228-284 | any sequence of operations from a valid timer leaves a valid timer |
| Provider.ReachableTimerValid | src/contexts/TaskContext.tsx:84-94 | every state reachable from the provider's initial state has a valid timer |
| Provider.RunCountersGrowByOne | src/contexts/TaskContext.tsx:290-320 | the keyboard and mouse counters never decrease and grow by at most one per operation |
| Provider.RunKeepsSelection | src/contexts/TaskContext.tsx:173-218 | operations other than a selection change leave the path and the selected task as they were |
| Provider.NoAccrualWithoutTimerActions | src/contexts/TaskContext.tsx:302-320 | while the timer is stopped or paused, operations that do not touch it change neither the timer nor the activity counters |
| SelectionPage.ChosenTaskId | src/pages/TaskSelectionPage.tsx:31-34 | the chain of `or` operators yields the deepest selected id when there is one, and otherwise falls through to `level1Id` |
| SelectionPage.HandleStart | src/pages/TaskSelectionPage.tsx:29-42 | when the chosen id and the project are truthy, it starts the timer on the project and the deepest task; otherwise it changes nothing |
| SelectionPage.StartButtonShown | src/pages/TaskSelectionPage.tsx:99 | the start button is rendered exactly when `isTaskSelected()` holds |
| SelectionPage.StartButtonDisabled | src/pages/TaskSelectionPage.tsx:102 | the start button is disabled exactly when navigation is not allowed or the selected task is complete |
| SelectionPage.DropdownShown | src/pages/TaskSelectionPage.tsx:56-97 | the project dropdown is always rendered; the level-`k` dropdown below it only when level `k - 1` holds a truthy id |
| SelectionPage.DropdownParent | src/pages/TaskSelectionPage.tsx:56-97 | the project dropdown filters for the parentless; the level-`k` dropdown below it filters by the id of level `k - 1` |
| SelectionPage.DropdownOptions | src/components/TaskDropdown.tsx:34 | the options are the loaded tasks at level `k` under the dropdown's parent, in list order: the options are a subsequence of the list, every option is in the group, and every such task is an option |
| SelectionPage.Pick | src/pages/TaskSelectionPage.tsx:56-97 | a dropdown's change keeps the list and the levels above, sets its own level to the choice, and clears every level below; the selected task and the navigation flag are derived again from the new path against the list, and nothing else in the context changes |
| SelectionPage.PickLevels | src/contexts/TaskContext.tsx:178-192 | the merge and cascade of one dropdown's update keep the levels above it, set its level and clear the levels below |
| SelectionPage.NoSelectionConsistent | src/contexts/TaskContext.tsx:76-82 | the initial empty path is consistent with any list |
| SelectionPage.PickKeepsUpperLevels | src/contexts/TaskContext.tsx:178-192 | a dropdown pick keeps the ids of the levels above it |
| SelectionPage.PickSetsLevelAndClearsBelow | src/contexts/TaskContext.tsx:178-192 | a dropdown pick sets its own level to the choice and clears every level below |
| SelectionPage.ListedChoiceValid | src/components/TaskDropdown.tsx:34 | a rendered dropdown offers every listed task of its level under its parent |
| SelectionPage.OptionInTasks | src/components/TaskDropdown.tsx:34 | a listed option names a task of the list at that level, under the dropdown's parent |
| SelectionPage.PickKeepsPathConsistent | src/pages/TaskSelectionPage.tsx:56-97 | picking from a rendered dropdown keeps every selected level a listed task at that level, under the id one level up, which is truthy |
| SelectionPage.ConsistentPathHasProject | src/pages/TaskSelectionPage.tsx:63-97 | on a consistent path, any level selected below the project implies a truthy project |
| SelectionPage.EnabledStartButtonStarts | src/pages/TaskSelectionPage.tsx:99-104 | right after a pick on the page, a shown and enabled start button always starts an accruing timer on the project and the deepest task |
| Store.FetchTasks | src/utils/api.ts:42-55 | the stored list when there is one, with storage unchanged; otherwise the fixture, which is stored first |
| Store.FetchTwice | src/utils/api.ts:42-55 | a second fetch returns the same list and stores nothing new |
| Store.FirstFetchWellFormed | src/utils/api.ts:46-51 | on fresh storage the first fetch returns the fixture, a well-formed hierarchy |
| Store.UpdateTaskStatus | src/utils/api.ts:58-84 | rejects with "no tasks" exactly when nothing is stored, and with "not found" exactly when no stored task has the id; a rejection leaves storage alone, and success changes only the task list |
| Store.UpdateTaskStatusChangesOneEntry | src/utils/api.ts:68-78 | a success changes exactly the first entry with the id, only in its status, keeps the length, and answers that entry |
| Store.TimerKey | src/utils/api.ts:99 | the storage key `${projectId}_${taskId}`: the two ids in decimal, joined by an underscore |
| Store.TimerKeyInjective | src/utils/api.ts:99 | different (project, task) pairs never share a `${projectId}_${taskId}` key |
| Store.SaveTimerData | src/utils/api.ts:87-113 | the record is stored under its key (starting from an empty map when there is none), every other key keeps its record, and nothing else in storage changes |
| Store.SaveTimerDataIsolated | src/utils/api.ts:99-100 | saving one pair's record leaves every other pair's record as it was |
| Store.PushHistory | src/utils/api.ts:137-140 | push then one shift past 100: the new snapshot is last, the length stays within 100, and the result is the newest 100 of the old history plus the snapshot |
| Store.SaveActivityData | src/utils/api.ts:116-146 | the latest snapshot is replaced and appended to the history (an empty history when none is stored), and nothing else changes |
| Store.PushAllKeepsNewest | src/utils/api.ts:134-142 | after any number of saves from a history within the limit, the history is exactly the newest 100 snapshots, oldest first |
| Scenario.DrillDownPath | src/pages/TaskSelectionPage.tsx:56-97 | picking 1, 101, 1012, 10122, 101221 in turn leaves exactly that path |
| Scenario.DrillDownDetails | src/contexts/TaskContext.tsx:195-198 | on a list with distinct ids, the drill-down selects the entry carrying 101221 and allows navigation |
| Scenario.DrillDownSelectsSubaction | src/pages/TaskSelectionPage.tsx:56-104 | with the first-fetch list, the drill-down selects in-progress subaction 101221, marks a task as selected, and shows an enabled start button |
| Scenario.FirstFetchListsDrillDown | src/utils/api.ts:4-39 | the first-fetch list holds project 1, task 101, subtask 1012, action 10122 and subaction 101221, each at its level under the one before |
| Scenario.DrillDownPicksOffered | src/pages/TaskSelectionPage.tsx:56-97 | on a list holding those entries, each of the drill-down's five picks is a choice the dropdown it is made in renders |
| Scenario.StartOnSubaction | src/pages/TaskSelectionPage.tsx:29-42 | start on the drilled-down path starts project 1, task 101221, at zero |
| Scenario.TickAfterStart | src/contexts/TaskContext.tsx:130-137 | one tick after that start gives 1000 ms, shown as `00:00:01` |
| Scenario.StopAfterOneSecond | src/contexts/TaskContext.tsx:268-282 | stopping a fresh one-second session leaves today and total at 1 and the timer not running |
| Scenario.StartTickStop | src/pages/TaskSelectionPage.tsx:29-42 | on the drilled-down path, start, one tick and stop: the session ran on project 1 and task 101221, showed `00:00:01` after the tick, and leaves today and total at 1 and the timer not running |
| Scenario.DrillStartTickStop | src/contexts/TaskContext.tsx:130-282 | on any loaded list, the drill-down followed by start, one tick and stop leaves today and total at 1 and the timer not running |
| Scenario.FetchDrillStartTickStop | src/utils/api.ts:42-55 | the whole walk from fresh storage, loading the first fetch's list, ends with today and total at 1 |

## Left out

- Asynchrony: the `Promise`s, the `setTimeout` delays (500 ms and 300 ms) and React's batching of state updates are not modelled. Each backend call and each context operation is one atomic step.
- Interval and timeout plumbing: handles (`intervalId`, the cleanup functions) are not modelled. Each firing of the 1 s, 5 s and 10 s intervals and of the screenshot timeout is one `Action`, and the cadences are not modelled.
- Randomness: the screenshot loop's `Math.random()` delay is not modelled. Only a screenshot taken at a given time (`ScreenshotTaken(now)`) is kept.
- Clock readings: `Date.now()`, `new Date()` and `toISOString()` are opaque `nat` parameters.
- Serialisation: JSON is taken as the identity. The `catch` branch of `updateTaskStatus`, which rejects when the stored text does not parse, is not modelled.
- Numbers: JavaScript numbers are doubles. Ids, counters and times are unbounded `nat`, so precision loss above 2^53 is not modelled.
- Task loading: `fetchTasks` never rejects. The failure path of the provider's loader is the separate `TasksFailed` action, which sets the error message and clears `loading`.
- Mock screenshot: `takeScreenshot` (src/utils/api.ts:149-157) only returns a placeholder image URL after a delay. It is presentation-only and not modelled.
- Rendering is not modelled: navigation to the timer page, the theme, labels, and the warning shown for a complete task. Of the dropdown component (src/components/TaskDropdown.tsx) only two things are kept: the option list and the rule that a dropdown with no options is not rendered (`ValidPick`).
- Dropdown choices: a choice is an id or null. The string-to-number conversion of the `<select>` value is taken as exact.
- Explicit `undefined`: a key present but set to `undefined` in a `Partial<TaskSelection>` is treated like an absent key. The cascade's `!== undefined` test and the object spread then agree.
