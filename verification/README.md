# Time Riches: a verified model of the tracker's core

Time Riches is a single-page personal time tracker. Its logic lives in `script.js`, around:

- a task list;
- a log of time entries;
- a list of categories and the settings;
- a pomodoro timer that records each finished phase in the log.

This project models that logic in Dafny and proves what it promises. It covers:

- the record store `AppState`: its mutators, its filter queries and today's statistics;
- the pomodoro state machine `PomodoroManager`;
- the status toggle and the form submission of `TaskManager`;
- the chart data of `ChartManager`;
- the dashboard and analytics figures of `PageManager`, with the streak of consecutive days;
- the `utils` formatting and lookup helpers.

The modules follow the program:

| module | file | what it holds |
|---|---|---|
| `Seqs` | seqs.dfy | `filter` and the length of a filter, with their algebra |
| `Text` | text.dfy | integer `toString`, `padStart(2, '0')`, `trim()`, the truncating `%`, `indexOf`, and readers that invert them |
| `Domain` | domain.dfy | the records (task, time entry, category, settings), `{...t, ...updates}` merging, `findIndex`, the duration sum |
| `Metrics` | metrics.dfy | `Math.round` of a ratio and the completion percentage, in integers |
| `Store` | store.dfy | the `AppState` class and its `Timer` record |
| `Utils` | utils.dfy | `formatTime`, `formatTimeDuration`, the colour lookups |
| `Pomodoro` | pomodoro.dfy | the `PomodoroManager` class and a table of live interval handles |
| `Tasks` | tasks.dfy | the `TaskManager` class: lookups, toggle, save |
| `Charts` | charts.dfy | the `ChartManager` class and the specification of its three data series |
| `Analytics` | analytics.dfy | the `PageManager` statistics and the streak |

Abstractions used throughout:

- A timestamp is milliseconds on the local wall clock. A calendar day is `DayOf(t) = t / 86400000`. Two `toDateString()` values are equal exactly when the day numbers are equal. A due date is a day number, and a task without one is `None`.
- The current time is a parameter (`now` or `today`), never read from a clock.
- Classes hold what the source updates in place: the lists of `AppState` and the fields of `app.timer`. The managers hold a reference to the one `AppState`.
- `setInterval`/`clearInterval` become an `IntervalTable` of live handles. The browser's once-a-second callback becomes an explicit call to `Tick`.
- `Math.round(x / y)` with `y > 0` is computed exactly as `(2x + y) / (2y)`, rounded down. Durations in tenths are kept as integers: 12.5 is 125.
- A category key of the `categoryStats` object is kept as a string, in the order it was first inserted.

## Model

| member | source | states |
|---|---|---|
| `Store.Timer.constructor` | script.js:19-25 | the timer starts idle, in the work phase, with 1500 seconds whatever the settings say, and with no interval |
| `Store.AppState.constructor` | script.js:3-26 | each saved list or setting is used when present (an empty list too), else its default; the timer starts fresh |
| `Store.AppState.AddTask` | script.js:35-45 | exactly one record is appended at the end and returned. Its id is the generated one unless the caller supplied one. Both timestamps are `now`, overriding the caller's. Nothing else changes |
| `Domain.NewTask` | script.js:36-41 | the stored task takes every caller field, a caller id wins over the generated one, and `createdAt = updatedAt = now` |
| `Domain.GeneratedId` | script.js:37 | the generated id is a non-empty string of decimal digits |
| `Store.AppState.UpdateTask` | script.js:47-55 | for a present id, the first task with it is replaced by its merge with the patch and returned; for an absent id, `null` is returned and the list is unchanged |
| `Domain.FindIndex` | script.js:48 | `findIndex` returns the first index whose id matches, or -1 exactly when no task has the id |
| `Domain.Merge` | script.js:50 | `{ ...t, ...updates, updatedAt }` always sets the update time, and an empty patch changes nothing else; the field-by-field rule is `Domain.MergeFields` |
| `Domain.MergeFields` | script.js:50 | the merge takes every field the patch supplies, keeps every field it omits, and always sets `updatedAt` to now |
| `Domain.MergeTwice` | script.js:50 | applying the same patch twice is applying it once |
| `Domain.UpdateFirst` | script.js:47-55 | the list keeps its length, and any task not in the old list is a merge stamped with the update time; the position rule is `Domain.UpdateFirstSpec` |
| `Domain.UpdateFirstSpec` | script.js:47-55 | the updated list has the same length, changes only the first matching position, and equals the input when the id is absent |
| `Store.AppState.DeleteTask` | script.js:57-60 | the list becomes the tasks whose id differs, in order; membership is exactly the old tasks with another id |
| `Store.DeleteSpec` | script.js:57-60 | no task with the id survives; an absent id leaves the list unchanged; deleting twice equals deleting once |
| `Store.DeleteKeepsOrder` | script.js:58 | deleting distributes over concatenation, so the survivors keep their relative order |
| `Store.AppState.AddTimeEntry` | script.js:62-71 | exactly one entry is appended to the log and returned, with `createdAt = now`; the tasks are untouched |
| `Domain.NewEntry` | script.js:63-67 | the stored entry takes every caller field, a caller id wins, and `createdAt` is now |
| `Store.AppState.TodayTasks` | script.js:73-79 | the result is exactly the tasks due on the day, each with its multiplicity, and tasks without a due date are excluded |
| `Store.AppState.TasksByStatus` | script.js:81-83 | the result is exactly the tasks with the status, each with its multiplicity |
| `Store.AppState.TasksByCategory` | script.js:85-87 | the result is exactly the tasks in the category, each with its multiplicity |
| `Store.AppState.TimeEntriesByDate` | script.js:89-95 | the result is exactly the entries started on the day, each with its multiplicity |
| `Domain.DayOf` | script.js:90-92 | a timestamp lies within the day `DayOf` names |
| `Store.AppState.GetTodayStats` | script.js:97-113 | completed ≤ total; the percentage is 0 with nothing due, else the rounded `100·completed/total`, so it lies in 0..100; `focusTime` is the day's seconds in tenths of a minute, rounded |
| `Store.FilterNested` | script.js:101-104 | the completed tasks among those due on a day are the completed tasks due that day, and there are no more of them than tasks due |
| `Domain.TotalDuration` | script.js:103 | the `reduce` sum of the durations: a single entry sums to its own duration; the rest of its contract is stated by `Domain.TotalDurationConcat` and `Domain.TotalDurationBounds` |
| `Domain.TotalDurationConcat` | script.js:103 | the duration sum is additive over concatenation |
| `Domain.TotalDurationBounds` | script.js:103 | with non-negative durations the sum is non-negative and bounds every duration |
| `Metrics.RoundDiv` | script.js:104 | `Math.round(x / y)` is within half a unit of `x / y` |
| `Metrics.RoundDivUnique` | script.js:104 | that rounding is unique: any integer within half a unit is the result |
| `Metrics.Productivity` | script.js:104 | the percentage is 0 when nothing is due, else within half a unit of `100·completed/total` |
| `Metrics.ProductivityBounds` | script.js:104 | with completed ≤ total the percentage is in 0..100, 0 with none completed, and 100 with all completed |
| `Metrics.ProductivityOneOfThree` | script.js:104 | one completed task of three gives 33 per cent |
| `Utils.FormatTime` | script.js:190-197 | both halves have at least two characters; for a non-negative count `Utils.FormatTimeRoundTrip` states that both halves are digits, the seconds exactly two of them below 60, and that they read back as the count |
| `Utils.FormatTimeRoundTrip` | script.js:190-197 | for a non-negative count, minutes have at least two digits and seconds exactly two, the seconds read below 60, and `60·minutes + seconds` reads back the count |
| `Text.IntToString` | script.js:194-195 | `toString()` of an integer gives at least one character, and the first is `-` exactly when the value is negative |
| `Text.NatToString` | script.js:191-195 | `toString()` gives at least one decimal digit with no leading zero, and one digit exactly below 10 |
| `Text.ParseNatToString` | script.js:191-195 | reading back the digits of `n` gives `n` |
| `Text.PadStart2` | script.js:194-195 | `padStart(2, '0')` yields at least two characters: the input preceded by zeros only |
| `Utils.ParsePadded` | script.js:194-195 | a padded number reads back as itself |
| `Text.JsRem` | script.js:192 | JavaScript's `%` keeps the dividend's sign and equals Euclidean `%` for a non-negative dividend |
| `Utils.FormatTimeDuration` | script.js:207-214 | the rendering always ends with the minute suffix `m`; the read-back is `Utils.FormatTimeDurationRoundTrip` and the shape is `Utils.FormatTimeDurationShape` |
| `Utils.FormatTimeDurationRoundTrip` | script.js:207-214 | every non-negative number of minutes renders as `"<h>h <m>m"` or `"<m>m"`, and reading that back gives the minutes |
| `Utils.FormatTimeDurationShape` | script.js:207-214 | an hour or more is rendered with an hour part, and less than an hour as minutes alone |
| `Utils.ParseHoursAndMinutes` | script.js:211 | `"<h>h <m>m"` reads back as `60h + m` minutes |
| `Utils.ParseMinutesOnly` | script.js:213 | `"<m>m"` reads back as `m` minutes |
| `Utils.GetPriorityColor` | script.js:216-223 | low, high and medium map to their colours; any other value falls back to the medium colour |
| `Utils.FindCategory` | script.js:226 | `find` gives the first category with the id, or nothing exactly when none has it |
| `Utils.GetCategoryColor` | script.js:225-228 | the colour of the first category with the id, else the default indigo |
| `Pomodoro.IntervalTable.SetInterval` | script.js:307-309 | `setInterval` registers exactly one fresh handle |
| `Pomodoro.IntervalTable.ClearInterval` | script.js:317 | `clearInterval` removes the handle, and does nothing for `null` |
| `Pomodoro.PomodoroManager.constructor` | script.js:297 | the manager drives the one application state and no interval is live |
| `Pomodoro.PomodoroManager.Start` | script.js:298-312 | from paused, the remaining time is kept, and the two next fresh handles both become live because `resume` and `start` each create one, and the timer keeps only the second, so the first is never cleared. Otherwise the timer resets to the full phase, its old handle is cleared, and one fresh handle becomes its interval. It ends running and not paused |
| `Pomodoro.PomodoroManager.Pause` | script.js:314-319 | the timer is paused, not running, and keeps its time, mode and handle; exactly that handle is removed from the live set, so a running countdown stops, and no handle is created |
| `Pomodoro.PomodoroManager.Resume` | script.js:321-328 | the timer runs again from the time left, under the next fresh handle, which becomes its interval and is added to the live set |
| `Pomodoro.PomodoroManager.Reset` | script.js:330-349 | the timer is idle, exactly its handle is removed from the live set and no handle is created, and its time is 60 × the setting for the current mode |
| `Pomodoro.ModeDuration` | script.js:335-346 | a phase's length in seconds is 60 × its setting in minutes |
| `Pomodoro.DefaultDurations` | script.js:12-17 | with the default settings the phases last 1500, 300 and 900 seconds |
| `Pomodoro.PomodoroManager.Tick` | script.js:351-358 | while time is left, one second is counted down and nothing else changes (mode, flags, log, interval and live handles), so the time never goes negative; the tick that finds zero completes the phase exactly as `Complete` states, clearing only the current handle |
| `Pomodoro.PomodoroManager.Complete` | script.js:360-375 | the phase just finished is recorded as one new entry; work leads to a long break when the work-session count, the new entry included, is a multiple of 4, else to a short break; any break leads to work; the timer ends idle with the new phase's full length; exactly the current handle leaves the live set, while `interval` and the handle counter keep their values, so a handle leaked by a start from paused stays live |
| `Pomodoro.PomodoroManager.SwitchMode` | script.js:377-394 | the next mode follows the work-session count in the log, then the timer is reset: idle, the new phase's full length, exactly the current handle cleared, and `interval` and the handle counter unchanged |
| `Pomodoro.NextMode` | script.js:378-391 | work goes to a long break exactly when the count is a multiple of 4, else to a short break; a break goes to work |
| `Pomodoro.WorkCountSnoc` | script.js:380-382 | appending an entry raises the work-session count by one exactly when it is a work pomodoro |
| `Pomodoro.PomodoroManager.RecordTimeEntry` | script.js:396-405 | one entry is appended for the current mode, with `duration = getModeDuration() - timeLeft`, ending now and starting `duration` seconds earlier |
| `Pomodoro.RecordDraft` | script.js:397-404 | the recorded entry is a pomodoro of the current mode whose duration is the elapsed seconds and whose end is now |
| `Pomodoro.PomodoroManager.GetModeDuration` | script.js:407-418 | the configured length of the current phase |
| `Pomodoro.RunWorkPhase` | script.js:298-405 | under the default settings, `start` followed by 1501 ticks records a 1500-second work entry that ends 1501 seconds after the start; the timer then waits in a 300-second break, or a 900-second long break on every fourth session |
| `Tasks.GetPriorityText` | script.js:593-600 | low is 低 and high is 高; any other value, medium included, is 中 |
| `Tasks.GetCategoryName` | script.js:602-605 | the name of the first category with the id, else 未分类 (uncategorised) |
| `Tasks.Toggled` | script.js:610 | a completed task becomes todo, and any other status becomes completed |
| `Tasks.ToggleTwice` | script.js:610 | toggling twice restores todo and completed but turns in-progress into todo; the toggle never yields in-progress |
| `Domain.StatusUpdate` | script.js:611 | a status patch changes the status and the update time only |
| `Tasks.TaskManager.ToggleTaskStatus` | script.js:607-616 | only the first task with the id gets the toggled status and a new update time; an unknown id changes nothing |
| `Tasks.FormDraft` | script.js:659-666 | the submitted record has trimmed title and description, the form's other fields and status todo |
| `Tasks.FormPatch` | script.js:659-666 | as a patch, every form field is present and the status is todo, while the id and creation time are absent |
| `Tasks.EditResetsStatus` | script.js:659-675 | saving over an existing task keeps its id and creation time, takes every form field, and resets a completed task to todo |
| `Text.Trim` | script.js:660 | `trim()` is no longer than its input and neither starts nor ends with whitespace; the slice and emptiness rules are `Text.TrimSlice` and `Text.TrimEmptyIff` |
| `Text.TrimSlice` | script.js:660 | `trim()` returns a contiguous slice, with only whitespace around it in the input, that starts and ends with non-whitespace |
| `Text.TrimEmptyIff` | script.js:660 | `trim()` is empty exactly when the input is all whitespace |
| `Tasks.SavedTitleTrimmed` | script.js:660-671 | an accepted title is stored non-empty, with no whitespace at either end |
| `Tasks.TaskManager.SaveTask` | script.js:658-679 | the save succeeds exactly when the title is not all whitespace, and a refused save changes nothing; otherwise the edited task is updated through `updateTask`, or a new task is added |
| `Charts.EntryCategory` | script.js:890 | an entry without a category, or with an empty one, counts as work |
| `Charts.TallyByCategory` | script.js:887-895 | the loop produces exactly the categories in order of first appearance and, under each, the fold of the entries' durations |
| `Charts.TotalsMeaning` | script.js:887-895 | the folded map's keys are exactly the categories met, and each value is the sum of that category's durations |
| `Charts.FirstSeenSpec` | script.js:887-895 | every category that occurs is a key, only those, and none twice |
| `Charts.FirstSeenSnoc` | script.js:891-893 | an entry adds its category at the end only when the category is new |
| `Charts.CategoryTotalIsFilteredSum` | script.js:894 | a category's total is the duration sum of the entries filed under it |
| `Charts.CategoryTotalSnoc` | script.js:894 | an entry adds its duration to its own category's total only |
| `Charts.CategoryTotalAbsent` | script.js:894 | a category no entry belongs to has total 0 |
| `Charts.CategoryTotalsPartition` | script.js:887-895 | summed over the categories, the totals equal the total of all durations, so no entry is lost or counted twice |
| `Charts.ResetThenAdd` | script.js:891-894 | resetting a missing or zero total to 0 and then adding is adding to the total, or to 0 |
| `Charts.CategoryLabels` | script.js:901-903 | one label per category key, in key order, each the category's name or 未分类 (`Tasks.GetCategoryName`) |
| `Charts.CategoryColors` | script.js:901-905 | one colour per category key, in key order, each the category's colour or `#6366f1` (`Utils.GetCategoryColor`) |
| `Charts.CategoryTenths` | script.js:901-904 | one size per category key, in key order, each the category's total seconds rounded to tenths of a minute |
| `Charts.CategorySlices` | script.js:901-906 | each slice is its category's seconds to the nearest tenth of a minute; an unknown category is labelled 未分类 in indigo; the slices cover every category once |
| `Charts.ChartManager.GetCategoryTimeData` | script.js:886-909 | labels, data and colours are the per-category name, rounded total and colour, for the categories in order of first appearance |
| `Charts.DayProductivity` | script.js:921-928 | a day's percentage is `Metrics.Productivity` of its completed-and-due count over its due count, so `Math.round(100·completed/due)` within half a unit; it is in 0..100, 0 with nothing due, and 100 when every task due is completed |
| `Charts.LastWeek` | script.js:916-919 | seven days, strictly increasing, from six days ago to today |
| `Charts.ProductivitySeries` | script.js:916-930 | the trend series has exactly seven values; their bounds and last point are stated by `Charts.SeriesBounds` and `Charts.SeriesEndWithToday` |
| `Charts.CompletionSeries` | script.js:940-952 | the completion series has exactly seven values, the k-th being the completed-and-due count of day `today - 6 + k` |
| `Charts.ChartManager.GetProductivityTrendData` | script.js:911-933 | labels are the last seven days, oldest first, and data is each day's completion percentage |
| `Charts.ChartManager.GetTaskCompletionData` | script.js:935-955 | labels are the last seven days, oldest first, and data is each day's count of completed tasks due that day |
| `Charts.SeriesBounds` | script.js:911-955 | every percentage is in 0..100 and is 0 on a day with nothing due, and no day counts more completed tasks than tasks due |
| `Charts.CompletedWithinDue` | script.js:944-951 | a day's completed count is at most the number of tasks due that day |
| `Charts.SeriesEndWithToday` | script.js:97-113 | the last point of both series is today's percentage and completed count from `getTodayStats` |
| `Analytics.PageManager.UpdateDashboardStats` | script.js:1047-1052 | today's completed count, percentage and focus figure are those of `getTodayStats`; the focus figure is today's seconds in tenths of a minute (`Analytics.DashboardFocusAsWritten`), shown with an hour suffix |
| `Analytics.PageManager.UpdateAnalyticsStats` | script.js:1054-1064 | the task count, the log's total seconds and their label from `formatTimeDuration`, which reads back as the seconds themselves taken for minutes (`Analytics.FocusLabelAsWritten`), the completed share of all tasks in 0..100, and the streak |
| `Analytics.HasCompletedOn` | script.js:1074-1080 | a day counts exactly when some task due that day is completed |
| `Analytics.PageManager.CalculateStreakDays` | script.js:1066-1091 | the streak is at most 30. It counts consecutive days with a completed task, from today or from yesterday when today has none, and stops at the first day without one. It is at least 1 when today has one |
| `Analytics.IsStreakUnique` | script.js:1066-1091 | the characterisation of the streak fixes its value |
| `Analytics.FocusLabelAsWritten` | script.js:1056-1061 | the label the code builds reads back as the seconds themselves, taken for minutes |
| `Analytics.FocusLabelAsWrittenOverstates` | script.js:1056-1061 | one 1500-second pomodoro is labelled "25h 0m" as written, and "25m" once corrected |
| `Analytics.FocusLabel` | script.js:1056-1061 | the corrected label reads back as the whole minutes and has an hour part exactly from 3600 seconds on |
| `Analytics.DashboardFocusAsWritten` | script.js:110 | the dashboard figure as written is the seconds in tenths of a minute |
| `Analytics.DashboardFocusOverstates` | script.js:1047-1052 | a 1500-second pomodoro shows as 25.0 "h" as written, and 0.4 once corrected |
| `Analytics.FocusHoursTenths` | script.js:1050 | the corrected figure is the seconds to the nearest tenth of an hour |
| `Seqs.Filter` | script.js:58 | the result is no longer than the input and holds exactly the elements that satisfy the predicate |
| `Seqs.FilterMultiset` | script.js:74 | filtering keeps each satisfying element with its multiplicity and drops the rest |
| `Seqs.FilterConcat` | script.js:58 | filtering distributes over concatenation |
| `Seqs.FilterAll` | script.js:58 | filtering keeps a list whose every element satisfies the predicate |
| `Seqs.FilterIdempotent` | script.js:58 | filtering twice with the same predicate is filtering once |
| `Seqs.Count` | script.js:102 | `filter(...).length` is at most the length, and 0 exactly when no element satisfies the predicate |

## Left out

- Rendering and the DOM are not modelled. This covers the page switching, the task lists and modal dialog, `updateUI`, the theme toggle and the keyboard handlers.
- Chart.js drawing is not modelled. Only the `get*Data` inputs of the charts are.
- `localStorage` and the JSON round trip are not modelled. The constructor takes the saved values as parameters, and `save` (with its 30-second interval) is left out.
- The Web Audio notification is left out; it is an environment call.
- Real timers are not modelled. `setInterval` callbacks are explicit `Tick` calls, and the clock is a `now` parameter. Every `Date.now()` and `new Date()` within one operation is taken to read the same instant.
- Time zones, daylight saving and the `new Date("YYYY-MM-DD")` UTC parse of a form date are left out. Due dates are local day numbers.
- ISO date strings are not modelled; timestamps are integers.
- Chart labels are not the locale's `toLocaleDateString` text; they are day numbers.
- The calendar page and `formatDate` are not modelled. They build HTML and locale text.
- Floating point is not modelled. `Math.round` of a ratio is computed exactly, so a quotient that floating point rounds just below a half is not reproduced. Fractional figures are kept as integers in tenths: chart slices and the dashboard focus time.
- The search filter's `toLowerCase` matching is left out; it sits in the rendering code.
- JavaScript objects are modelled for the string keys this code uses. Integer-like keys, which `Object.entries` would list first, are not modelled. Keys inherited from `Object.prototype`, which `texts[priority]` and `categoryStats[id]` could hit, are not modelled either.
- A time entry always has a numeric `duration`, so `entry.duration || 0` is the duration itself.
- A task's `status` is one of todo, in progress and completed.
- `Pomodoro.PomodoroManager.GetModeDuration`: the `default` branch (1500 seconds for an unknown mode) cannot be reached, because a mode is one of the three phases.
- `editTask` and `deleteTask`'s confirmation belong to the user interface and are not modelled.
- `generateId` (script.js:230-232) is never called; ids come from `Date.now().toString()` in `addTask` and `addTimeEntry`, which `Domain.GeneratedId` models.
- Domain.GeneratedId: the id is the digits of the `now` parameter, which is local wall-clock milliseconds; `Date.now()` counts from the UTC epoch, so the source's id differs from the model's by the time-zone offset.

## Findings

| source | as written | input that shows it | evidently intended | confidence | as-written member | corrected member |
|---|---|---|---|---|---|---|
| script.js:1056-1061 | the all-time focus total, in seconds, is passed to `formatTimeDuration`, which takes minutes | one 1500-second (25-minute) pomodoro is labelled "25h 0m" | label the total in minutes: `formatTimeDuration(Math.floor(total / 60))`, giving "25m" | high; not executed | `Analytics.FocusLabelAsWrittenOverstates` | `Analytics.FocusLabel` |
| script.js:110 | `focusTime` is seconds in tenths of a minute (`Math.round(s / 60 * 10) / 10`), yet the dashboard shows it with an "h" suffix (script.js:1050), and the comment says hours | a 1500-second pomodoro shows as "25h" | tenths of an hour, `Math.round(s / 3600 * 10) / 10`, showing "0.4h" | medium; not executed | `Analytics.DashboardFocusOverstates` | `Analytics.FocusHoursTenths` |

The model follows the code as written: `Store.AppState.GetTodayStats` keeps `focusTime` in tenths of a minute, and the `PageManager` methods return the as-written figures. The corrected members state the evidently intended figures beside them.
