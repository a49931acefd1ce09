# Smart task tracker: time grid, timeline, reminders and forms

This project models the decision logic of a small day-planner web app for children
and their parents. The app does the following:

- It lays out a day on a half-hour timeline from 06:00 to 22:00.
- It keeps a list of tasks, each with an optional `HH:MM` start time, a length,
  a category and a reminder lead time.
- It arms browser timers that show a reminder a few minutes before a task starts.
- It raises a "due soon" flag on a task's card during that window.
- It shows the share of completed tasks as a rounded percentage with a message.
- It edits tasks and categories through two forms.

The model is split into one module per source file, plus shared modules:

- `TimeUtils` (`time_utils.dfy`) covers:
  - `HH:MM` strings and minutes since midnight;
  - the slot generator;
  - 12-hour labels;
  - `YYYY-MM-DD` keys;
  - the minute difference of two times.
- `DayView` (`day_view.dfy`) covers:
  - the grouping of tasks into half-hour rows;
  - the unscheduled list;
  - the window of rows that is shown;
  - the completion toggle;
  - the component's state as a class.
- `Notifications` (`notifications.dfy`) covers:
  - the permission decision table;
  - the browser's timer table, as a class with a fresh-handle counter and a map from handle to timer;
  - arming one reminder and arming a batch;
  - cancelling;
  - the reminder that is shown.
- `TaskCard` (`task_card.dfy`) covers:
  - the due-soon window;
  - the red-flag gate;
  - the card's height, colour and icon fallbacks.
- `ProgressBar` (`progress_bar.dfy`) covers:
  - the rounded percentage;
  - the counter;
  - the message bands.
- `TaskForm` (`task_form.dfy`) covers:
  - the form record and its defaults;
  - prefill from a task;
  - single-field changes;
  - the values the controls offer;
  - the blank-title guard;
  - the form's state as a class.
- `CategoryManager` (`category_manager.dfy`) covers:
  - the colour and icon palettes;
  - the category form as a class, with its blank-name guard and its reset.
- Shared modules:
  - `Tasks` (`tasks.dfy`) holds the task and category records and the JavaScript truthiness defaults (`|| 5`, `|| 30`).
  - `Strings` (`strings.dfy`) holds the JavaScript string primitives the code relies on: `String(i)`, `padStart(2, '0')`, `Number(s)`, `split` and `trim`.
  - `Wrappers` (`wrappers.dfy`) holds `Option`.

## Modelling conventions

### JavaScript values

- **Falsy values** are encoded explicitly:
  - An empty `startTime` means "not scheduled".
  - 0 in `duration`, `reminderMinutes` or `categoryId` stands for a missing value.
  - `date` is an abstract day number, `None` when absent.
  - `reminderEnabled` is `None` when the record lacks the field. The form prefills such a task with reminders on, while the scheduler and the card treat it as off, exactly as the code does.
- **`Number(s)`** trims `s` and reads:
  - `""` as 0;
  - an optional sign followed by decimal digits as that integer;
  - anything else as `None`, meaning `NaN`.
- **Arithmetic:**
  - JavaScript's `%` (sign of the dividend) is `TimeUtils.JsRem`.
  - `Math.floor(a / b)` for a positive `b` is Dafny's `/`, because for a positive divisor Euclidean division is floor division.
  - Integers are unbounded; the code never relies on overflow.

### Clocks and timers

- **Instants** are integers in milliseconds. Day `d` starts at `d * 86400000`, and a clock reading `h:m` on that day is `d * 86400000 + (h * 60 + m) * 60000`.
- **`setHours`** rolls hours or minutes that are out of range into the neighbouring days (`TimeUtils.DayMinute`, `TaskCard.CardInstant`).
- **Passed in as parameters:**
  - the current instant;
  - whether notifications are supported;
  - the browser's permission;
  - the user's answer to the permission prompt;
  - whether the device can vibrate;
  - the start instant of a task as `new Date(task.startTime)` parses it.

### Where the model follows the code, not the design description

- A reminder is armed only if permission is granted when it is scheduled (`src/utils/notifications.js:22-24`). The permission is checked again when it is shown.
- The reminder closes itself after 10 seconds (`src/utils/notifications.js:73`), not 30.
- Nothing supersedes an earlier batch of reminders:
  - A new batch is armed only when the task list is non-empty.
  - The handles of the previous batch are overwritten without being cancelled.
  - The model has no cancel-all-then-rearm step.
- The batch filter requires only `reminderEnabled` and `startTime`, not `date` (`src/utils/notifications.js:88`).
- `scheduleNotification` and `showNotification` read `Notification.permission` without first checking that the API exists (`src/utils/notifications.js:22`, `:45`). Where it does not (the permission `unsupported`), the read throws `ReferenceError`. The model returns that as `ThrowsReferenceError`, and a batch stops at the first task that has reminders on and a start time.

## Model

| member | source | states |
|---|---|---|
| TimeUtils.JsRem | src/utils/timeUtils.js:57 | `minutes % 60` lies strictly between -60 and 60, is never positive for negative minutes and differs from `minutes` by a multiple of 60, so it is the truncated remainder (the mathematical one for non-negative minutes) |
| TimeUtils.GetTimeFromMinutes | src/utils/timeUtils.js:55-59 | no contract of its own; `MinutesRoundTrip` and `ClockTimeRoundTrip` state it is the inverse of `getMinutesFromTime` on 0..1439, and `SlotKeyExamples` and `GridEnds` give worked values |
| TimeUtils.GetMinutesFromTime | src/utils/timeUtils.js:61-64 | no contract of its own; `ClockFieldsOfDigits`, `MinutesRoundTrip` and `ClockTimeRoundTrip` state that it reads `HH:MM` as `HH*60 + MM`, and `SlotKeyExamples` shows the `NaN` of a non-number |
| TimeUtils.FormatTime | src/utils/timeUtils.js:3-10 | no contract of its own; `FormatTimeReadBack`, `FormatTimeInjective` and `FormatTimeMidnightAndNoon` characterise the label |
| TimeUtils.ClockFieldsOfDigits | src/utils/timeUtils.js:61-62 | splitting `a:b` on `:` and mapping `Number` over the pieces gives the values of the digit strings `a` and `b` |
| TimeUtils.MinutesRoundTrip | src/utils/timeUtils.js:55-64 | for every minute 0..1439, `getTimeFromMinutes` writes two digits, `:`, two digits (hour < 24, minute < 60), and `getMinutesFromTime` reads it back as the same minute |
| TimeUtils.ClockTimeRoundTrip | src/utils/timeUtils.js:55-64 | every zero-padded `HH:MM` with HH 00-23 and MM 00-59 reads as a minute of the day that `getTimeFromMinutes` writes back as the same string |
| TimeUtils.FormatTimeReadBack | src/utils/timeUtils.js:3-10 | the label ends in " AM" exactly before noon and " PM" otherwise; it has padded two-digit minutes after a colon and an unpadded dial hour 1..12 that, with AM/PM, gives back the 24-hour hour |
| TimeUtils.FormatTimeInjective | src/utils/timeUtils.js:3-10 | two clock readings with the same 12-hour label are equal |
| TimeUtils.FormatTimeMidnightAndNoon | src/utils/timeUtils.js:6-9 | hour 0 is written "12:MM AM" and hour 12 "12:MM PM" |
| TimeUtils.DayMinute | src/utils/timeUtils.js:34-35 | after `setHours(hours, mins, 0, 0)` the clock shows the minute of the day 0..1439 that equals `hours*60 + mins` modulo 1440, overflow being rolled into another day |
| TimeUtils.SlotLabelOfDayMinute | src/utils/timeUtils.js:32-38 | within one day a slot's label is the 12-hour reading of its own minute |
| TimeUtils.LabelsWithinDay | src/utils/timeUtils.js:32-38 | every slot within one day carries the 12-hour reading of its own minute |
| TimeUtils.GenerateTimeSlots | src/utils/timeUtils.js:26-45 | for a positive interval: the count is `ceil((endHour-startHour)*60/interval)`, or 0 when `startHour >= endHour`; slot i is at `startHour*60 + i*interval`, inside `[startHour*60, endHour*60)`; its value is `getTimeFromMinutes` of its minutes and its label is the 12-hour reading |
| TimeUtils.SlotMinutesIncrease | src/utils/timeUtils.js:31 | the minutes of the generated slots strictly increase |
| TimeUtils.DateStringReadBack | src/utils/timeUtils.js:19-24 | the date key is the unpadded year, `-`, the 1-based month in two digits, `-`, the day in two digits, and each part reads back as its field |
| TimeUtils.DateStringInjective | src/utils/timeUtils.js:19-24 | distinct calendar fields give distinct date keys |
| TimeUtils.GetDateString | src/utils/timeUtils.js:19-24 | no contract of its own; `DateStringReadBack` and `DateStringInjective` characterise the key |
| TimeUtils.AddDays | src/utils/timeUtils.js:75-79 | no contract of its own; `TaskCard.DueSoonMovesWithDate` states that moving a task's date by `n` days moves its due-soon window by exactly `n` days |
| TimeUtils.IsoTimeOfDayMs | src/utils/timeUtils.js:48-49 | no contract of its own; `IsoTimeOfDayRange` and `IsoTimeOfClockTime` characterise which strings `new Date('1970-01-01T' + t)` reads and as which instant |
| TimeUtils.IsoTimeOfDayRange | src/utils/timeUtils.js:48-49 | a time the Date parser reads lies between that day's midnight and the next, and is the next midnight exactly when the hour is 24 |
| TimeUtils.IsoTimeOfClockTime | src/utils/timeUtils.js:48-49 | among five-character strings the parser reads exactly the padded `HH:MM` times and `24:00`; a padded `HH:MM` is read as its `getMinutesFromTime` minutes times 60000 ms |
| TimeUtils.CalculateDuration | src/utils/timeUtils.js:47-53 | no contract of its own; the four lemmas below characterise it |
| TimeUtils.DurationIsMinuteDifference | src/utils/timeUtils.js:47-53 | for two padded `HH:MM` times the duration is a number, equal to the end's minutes minus the start's, and negative exactly when the end precedes the start |
| TimeUtils.DurationWithinADay | src/utils/timeUtils.js:47-53 | whenever the duration is a number it lies in -1440..1440 |
| TimeUtils.DurationCountsSeconds | src/utils/timeUtils.js:47-53 | seconds are read: from `06:00:30` to `07:00` is 59 minutes |
| TimeUtils.DurationFloors | src/utils/timeUtils.js:51 | the minutes are floored, not truncated: from `07:00` to `06:59:59.999` is -1 |
| TimeUtils.DurationToEndOfDay | src/utils/timeUtils.js:48-51 | `24:00` is read as the end of the day, so from `23:00` to `24:00` is 60 minutes; an unpadded hour such as `7:00` gives `NaN` |
| Strings.NumberOfIntToString | src/utils/timeUtils.js:58-62 | `Number` reads back every integer that `String` writes |
| Strings.JsNumber | src/utils/timeUtils.js:62 | no contract of its own; `NumberOfDigits`, `NumberOfNegative` and `NumberOfIntToString` state what `Number` reads |
| Strings.NumberOfDigits | src/utils/timeUtils.js:62 | `Number` of a non-empty run of decimal digits is their decimal value |
| Strings.Pad2Value | src/utils/timeUtils.js:58 | `String(n).padStart(2, '0')` for 0..99 is two digits that read back as `n` |
| Strings.Pad2 | src/utils/timeUtils.js:58 | no contract of its own; `Pad2Value` characterises it |
| Strings.SplitAtFirst | src/utils/timeUtils.js:62 | the first separator ends the first piece of `split` |
| Strings.Split | src/utils/timeUtils.js:62 | no contract of its own; `SplitAtFirst` and `SplitWithoutSeparator` characterise it |
| Strings.SplitWithoutSeparator | src/utils/timeUtils.js:62 | a string without the separator splits into itself alone |
| Strings.BlankIffAllWhitespace | src/components/TaskForm.jsx:39 | `!s.trim()` holds exactly when every character of `s` is ECMAScript whitespace |
| Strings.Trim | src/components/TaskForm.jsx:39 | no contract of its own; `BlankIffAllWhitespace` characterises the blank test built on it |
| DayView.GroupByStep | src/components/DayView.jsx:21-31 | a task with a start time is appended to the group of its key, opening the group when the key is new; a task without one changes nothing |
| DayView.SlotKey | src/components/DayView.jsx:22-26 | no contract of its own; `SlotKeyOfClockTime`, `SlotKeyOfMinutes`, `RowWindow` and `SlotKeyExamples` characterise the key |
| DayView.GroupBy | src/components/DayView.jsx:20-32 | no contract of its own; the reference grouping, characterised by `GroupByStep`, `InSlotMembers`, `GroupingMembers` and `GroupByPartition` |
| DayView.Grouping | src/components/DayView.jsx:20-32 | no contract of its own; the grouping by `SlotKey`, characterised by `GroupingMembers` and `GroupingPartition` |
| DayView.Unscheduled | src/components/DayView.jsx:68-69 | no contract of its own; `UnscheduledMembers` characterises it |
| DayView.AppendUnder | src/components/DayView.jsx:27-30 | `if (!grouped[k]) grouped[k] = []; grouped[k].push(task)` adds the key when it is missing, puts the task at the end of its group and leaves every other group as it was |
| DayView.GroupTasksBy | src/components/DayView.jsx:18-34 | the forward loop that starts from an empty dictionary and pushes each scheduled task under its key builds exactly the grouping of the list |
| DayView.GroupTasks | src/components/DayView.jsx:18-34 | the dictionary the grouping effect stores is the grouping of the task list by `floor((minutes - 360) / 30)`, a function of the list alone |
| DayView.InSlotMembers | src/components/DayView.jsx:21-31 | a task is in the list for a key exactly when it is one of the tasks, has a start time and has that key |
| DayView.GroupingMembers | src/components/DayView.jsx:20-32 | a task is in the group under a key exactly when it is scheduled and its slot key is that key, so each scheduled task is in exactly one group |
| DayView.InSlotConcat | src/components/DayView.jsx:21-31 | groups keep input order: the group of a concatenation is the first part's group followed by the second's |
| DayView.UnscheduledMembers | src/components/DayView.jsx:68-69 | the unscheduled list holds exactly the tasks without a start time |
| DayView.GroupByPartition | src/components/DayView.jsx:20-32 | for any key function, the group sizes plus the unscheduled count equal the number of tasks |
| DayView.GroupingPartition | src/components/DayView.jsx:20-32 | the timeline's group sizes plus the unscheduled count equal `tasks.length` |
| DayView.RenderedRowMembers | src/components/DayView.jsx:86-97 | row `index` shows exactly the scheduled tasks whose key is `index` |
| DayView.RenderedRows | src/components/DayView.jsx:86-97 | no contract of its own; `RenderedRowMembers`, `ShownIffKeyInRows` and `ShownIffWithinGrid` characterise it |
| DayView.RowWindow | src/components/DayView.jsx:25 | the key of a start of `m` minutes is one of 0..31 exactly when 360 <= m < 1320 |
| DayView.ShownIffKeyInRows | src/components/DayView.jsx:86-97 | on an `n`-row timeline a scheduled task appears in some row exactly when its key is one of 0..n-1 |
| DayView.ShownIffWithinGrid | src/components/DayView.jsx:86-97 | a scheduled task appears in one of the 32 rows exactly when its start reads as a minute from 06:00 up to but excluding 22:00; the others are grouped but never shown |
| DayView.SlotKeyOfClockTime | src/components/DayView.jsx:23-26 | the key of an `HH:MM` start is `floor((HH*60 + MM - 360) / 30)` |
| DayView.SlotKeyExamples | src/components/DayView.jsx:25 | "06:00" and "06:20" have key 0, "06:30" has key 1 and "05:45" has key -1 |
| DayView.GridEnds | src/components/DayView.jsx:14 | the half-hour grid starts at "06:00" and its last row is "21:30" |
| DayView.FindIndex | src/components/DayView.jsx:44 | `tasks.find` by id: the first index with that id, or none when no task has it |
| DayView.ToggleComplete | src/components/DayView.jsx:43-48 | an update exists exactly when some task has the id; it carries that id and `completed` set to the negation of the first such task's flag |
| DayView.ToggleTwice | src/components/DayView.jsx:43-48 | after the update is applied, toggling the same id again asks for the original flag |
| DayView.FindCategory | src/components/DayView.jsx:101 | the category found has the task's id and is in the list; none is found only when no category has the id |
| DayView.FindCategoryFirst | src/components/DayView.jsx:101 | the first category with the id is the one found |
| DayView.DayViewState.constructor | src/components/DayView.jsx:10-11 | the first render has no rows and an empty dictionary |
| DayView.DayViewState.LoadTimeSlots | src/components/DayView.jsx:13-16 | the mount effect stores 32 rows at 360 + 30i minutes, valued by `getTimeFromMinutes` and labelled with the 12-hour reading of that minute, "06:00" to "21:30", and changes nothing else |
| DayView.DayViewState.TasksChanged | src/components/DayView.jsx:18-34 | a new task list replaces the dictionary with its grouping and keeps the rows |
| Notifications.RequestPermissionOutcome | src/utils/notifications.js:2-18 | the user is asked only when notifications exist and permission is still `default`; the result is true exactly when the permission afterwards is granted; without a prompt the permission is what `getNotificationPermission` reports, including `unsupported` |
| Notifications.RequestPermissionSettles | src/utils/notifications.js:8-17 | once granted or denied, asking again does not prompt and gives the same answer |
| Notifications.GetNotificationPermission | src/utils/notifications.js:108-113 | no contract of its own; `RequestPermissionOutcome` relates it to the prompt |
| Notifications.RequestNotificationPermission | src/utils/notifications.js:2-18 | no contract of its own; `RequestPermissionOutcome` and `RequestPermissionSettles` characterise it |
| Notifications.TimerTable.constructor | src/utils/notifications.js:36-38 | the timer table starts with no pending timers and the first handle 1 |
| Notifications.TimerTable.SetTimeout | src/utils/notifications.js:36-38 | `setTimeout` registers the timer under a fresh positive handle and keeps every other timer |
| Notifications.TimerTable.ClearTimeout | src/utils/notifications.js:79 | `clearTimeout` removes exactly that handle's timer |
| Notifications.ScheduleNotification | src/utils/notifications.js:21-41 | without the Notification API the unguarded read of `Notification.permission` throws `ReferenceError` and nothing changes; otherwise a handle comes back exactly when permission is granted and the fire instant `taskTime - minutesBefore*60000` is after now, and then exactly one timer is added under a fresh handle, with delay `fireAt - now`; otherwise nothing changes |
| Notifications.ArmedDelay | src/utils/notifications.js:27-34 | an armed delay is positive and ends exactly at the fire instant |
| Notifications.ArmIfWanted | src/utils/notifications.js:87-96 | the per-task callback throws exactly when the API is missing and the task has reminders on and a start time; it returns a handle exactly when the task is armed, and then adds that task's timer under a fresh handle; otherwise nothing changes |
| Notifications.ScheduleTaskNotifications | src/utils/notifications.js:84-100 | without the Notification API the batch throws exactly when some task has reminders on and a start time, having armed nothing; otherwise the result pairs, in list order, each task that has reminders on, a start time and a handle from `scheduleNotification` with lead `reminderMinutes`, or 5 when falsy, with a fresh consecutive handle; each such handle holds that task's timer; earlier timers are kept and no other timer appears |
| Notifications.ArmedMembers | src/utils/notifications.js:87-97 | a task is armed exactly when it is in the list, has reminders on and a start time, permission is granted and its fire instant is ahead |
| Notifications.ArmedAtMostAll | src/utils/notifications.js:85-99 | a batch arms at most one timer per task |
| Notifications.NothingArmedWithoutPermission | src/utils/notifications.js:22-24 | without granted permission no task is armed: with `denied` or `default` the batch returns no entry (without the API it returns none or throws, as `ScheduleTaskNotifications` states) |
| Notifications.ArmedDistinct | src/utils/notifications.js:85-99 | with distinct task ids, no task is scheduled twice in a batch |
| Notifications.CancelNotification | src/utils/notifications.js:77-81 | a falsy id leaves the timers alone; otherwise exactly that timer is cleared |
| Notifications.CancelRemovesOnlyThat | src/utils/notifications.js:77-81 | after a cancel a handle is pending exactly when it was before and is not the cancelled one; its timer is unchanged |
| Notifications.CancelIdempotent | src/utils/notifications.js:77-81 | cancelling twice is the same as cancelling once |
| Notifications.CancelDisarms | src/utils/notifications.js:78-80 | cancelling a returned handle leaves it no longer pending |
| Notifications.ReminderIdentifiesTask | src/utils/notifications.js:44-73 | showing throws `ReferenceError` exactly when the API is missing, and a reminder is shown exactly when permission is granted; it is titled "Task Reminder", its body starts with the task's title, it closes after 10000 ms, does not require interaction and carries the id; two reminders share a tag exactly when their tasks share an id |
| Notifications.ShowNotification | src/utils/notifications.js:44-74 | no contract of its own; `ReminderIdentifiesTask` characterises it |
| TaskCard.FlagGates | src/components/TaskCard.jsx:23-26 | the flag is down when reminders are off, the start time is empty or the date is missing; a completed task never shows the red flag |
| TaskCard.CardInstant | src/components/TaskCard.jsx:30-32 | no contract of its own; `CardInstantOfMinutes` and `CardInstantOfClockTime` characterise it |
| TaskCard.DueSoon | src/components/TaskCard.jsx:22-38 | no contract of its own; `FlagGates`, `DueSoonBoundaries`, `DueSoonConvex`, `DueSoonMovesWithDate` and `ReminderFiresWhenFlagRises` characterise it |
| TaskCard.ShowRedFlag | src/components/TaskCard.jsx:38 | no contract of its own; `FlagGates` states that a completed task never shows it |
| TaskCard.DueSoonBoundaries | src/components/TaskCard.jsx:38 | for a positive lead, the flag is up at the notification instant and down at the task instant |
| TaskCard.DueSoonConvex | src/components/TaskCard.jsx:38 | the flag is up over one unbroken stretch of time |
| TaskCard.ReminderFiresWhenFlagRises | src/components/TaskCard.jsx:34-38 | for the same task instant and lead, the flag is down from the moment a reminder is armed until the timer's fire instant, and up at that instant |
| TaskCard.DueSoonMovesWithDate | src/components/TaskCard.jsx:28-38 | moving a task's date by `n` days with `addDays` moves the flag by exactly `n` days: the flag at `now + n` days on the new date is the flag at `now` on the old one |
| TaskCard.CardInstantOfMinutes | src/components/TaskCard.jsx:30-32 | the card's `split(':').map(Number)` and `setHours` give an invalid instant exactly when `getMinutesFromTime` gives `NaN`; otherwise the instant is the date's midnight plus that many minutes |
| TaskCard.CardInstantOfClockTime | src/components/TaskCard.jsx:30-32 | for an `HH:MM` start the task instant is the date's midnight plus the start's minute of the day, and lies within that day |
| TaskCard.CardHeightScale | src/components/TaskCard.jsx:52-53 | the minimum height is 16 px per 5 minutes of the duration (30 when falsy), 96 px for a task without a length |
| TaskCard.CardHeight | src/components/TaskCard.jsx:52-53 | no contract of its own; `CardHeightScale` characterises it |
| TaskCard.CardStyleFallbacks | src/components/TaskCard.jsx:62-97 | without a matching category the border is `#6b7280` and the icon 📌; a found category's non-empty colour and icon are used; both are never empty |
| TaskCard.BorderColor | src/components/TaskCard.jsx:62 | no contract of its own; `CardStyleFallbacks` characterises it |
| TaskCard.CardIcon | src/components/TaskCard.jsx:97 | no contract of its own; `CardStyleFallbacks` characterises it |
| ProgressBar.CompletedCount | src/components/ProgressBar.jsx:10 | the completed count never exceeds the number of tasks |
| ProgressBar.CompletedAll | src/components/ProgressBar.jsx:6 | the completed count equals the number of tasks exactly when every task is completed |
| ProgressBar.CounterConsistent | src/components/ProgressBar.jsx:10-11 | the counter's completed figure is at most its total, and equal to it exactly when all tasks are done |
| ProgressBar.RoundedPercent | src/components/ProgressBar.jsx:7 | no contract of its own; `RoundedPercentNearest`, `RoundedPercentRange`, `RoundedPercentMonotone` and `RoundsToHundred` characterise it |
| ProgressBar.Progress | src/components/ProgressBar.jsx:4-8 | no contract of its own; `ProgressBounds` and `ProgressExtremes` characterise it |
| ProgressBar.RoundedPercentNearest | src/components/ProgressBar.jsx:7 | the percentage `p` is the integer nearest to `100*completed/total`, with halves rounded up: `p - 1/2 <= 100*completed/total < p + 1/2` |
| ProgressBar.RoundedPercentRange | src/components/ProgressBar.jsx:7 | a share of at most the whole rounds into 0..100 |
| ProgressBar.ProgressBounds | src/components/ProgressBar.jsx:4-8 | the progress is 0 with no tasks, lies in 0..100, and otherwise is the nearest whole percent of the completed share |
| ProgressBar.RoundedPercentMonotone | src/components/ProgressBar.jsx:6-7 | completing one more task never lowers the percentage |
| ProgressBar.ProgressExtremes | src/components/ProgressBar.jsx:6-7 | all completed gives 100, none gives 0, one of two gives 50 |
| ProgressBar.MessageBands | src/components/ProgressBar.jsx:34-50 | on 0..100 exactly one message applies: 100 "All done", 50-99 "doing great", 1-49 "Nice start", 0 "Let's get started" |
| ProgressBar.ProgressMessage | src/components/ProgressBar.jsx:34-50 | no contract of its own; `MessageBands` characterises it |
| ProgressBar.RoundsToHundred | src/components/ProgressBar.jsx:7 | the percentage rounds to 100 exactly when at least 99.5% of the tasks are completed |
| ProgressBar.AllDoneThreshold | src/components/ProgressBar.jsx:34-36 | "All done" shows exactly when `200*completed >= 199*total`, not only when every task is completed |
| ProgressBar.AllDoneBeforeAll | src/components/ProgressBar.jsx:34-36 | 199 completed tasks out of 200 already read "All done" |
| TaskForm.ApplyChangesOnlyItsField | src/components/TaskForm.jsx:47-49 | `handleChange(field, value)` sets that field to the value and leaves every other field unchanged |
| TaskForm.Apply | src/components/TaskForm.jsx:47-49 | no contract of its own; `ApplyChangesOnlyItsField` characterises it |
| TaskForm.PrefillDefaults | src/components/TaskForm.jsx:24-33 | prefill turns a missing length into 30 and a missing lead into 5; reminders are off exactly when the task says `false` |
| TaskForm.PrefillData | src/components/TaskForm.jsx:24-33 | no contract of its own; `PrefillDefaults` and `EditShowsSavedForm` characterise it |
| TaskForm.EditShowsSavedForm | src/components/TaskForm.jsx:23-35 | re-opening a task saved from a form with a length and a lead shows that same form |
| TaskForm.OfferedPreserved | src/components/TaskForm.jsx:125-198 | the new form holds offered values (start time empty or on the five-minute grid, duration 5..180 in steps of 5, lead in {5, 10, 15, 30, 60}), and every change the controls can make keeps it so |
| TaskForm.OfferedFormsReopen | src/components/TaskForm.jsx:23-35 | a form filled in through the controls re-opens unchanged after saving |
| TaskForm.OfferedStartTimesRead | src/components/TaskForm.jsx:130-135 | every offered start time other than "Not scheduled" is a zero-padded `HH:MM` reading 06:00 to 21:55 |
| TaskForm.FormGridEnds | src/components/TaskForm.jsx:19 | the five-minute grid runs from "06:00" to "21:55" |
| TaskForm.StartTimeChoicesOffered | src/components/TaskForm.jsx:130-135 | after loading, the start-time menu lists "Not scheduled" plus exactly the 192 five-minute times from 06:00 to 21:55 |
| TaskForm.TaskFormState.constructor | src/components/TaskForm.jsx:6-16 | a new form holds title '', notes '', no category, no start time, 30 minutes, reminders on, 5 minutes ahead, and no rows |
| TaskForm.TaskFormState.LoadTimeSlots | src/components/TaskForm.jsx:18-21 | the mount effect stores 192 rows, row i at 360 + 5i minutes, valued `getTimeFromMinutes(360 + 5i)` and labelled with the 12-hour reading of that minute, "06:00" to "21:55", and keeps the record |
| TaskForm.TaskFormState.Prefill | src/components/TaskForm.jsx:23-35 | a given task replaces the whole record with its prefill; without one the record stays |
| TaskForm.TaskFormState.HandleChange | src/components/TaskForm.jsx:47-49 | the record becomes the old one with the changed field |
| TaskForm.TaskFormState.Submit | src/components/TaskForm.jsx:37-45 | nothing is saved exactly when the title is all whitespace; otherwise the record is saved as it is, title untrimmed; the form is not changed |
| CategoryManager.Palettes | src/components/CategoryManager.jsx:4-9 | 10 distinct colours and 12 distinct icons; the card's fallbacks `#6b7280` and 📌 are palette entries |
| CategoryManager.CategoryForm.constructor | src/components/CategoryManager.jsx:12-14 | the form starts with an empty name, `COLORS[0]` and `ICONS[0]` |
| CategoryManager.CategoryForm.SetName | src/components/CategoryManager.jsx:92 | typing changes only the name |
| CategoryManager.CategoryForm.PickColor | src/components/CategoryManager.jsx:125-129 | the colour picker sets a palette colour and changes nothing else |
| CategoryManager.CategoryForm.PickIcon | src/components/CategoryManager.jsx:103-107 | the icon picker sets a palette icon and changes nothing else |
| CategoryManager.CategoryForm.Submit | src/components/CategoryManager.jsx:16-25 | a whitespace-only name adds nothing and changes nothing; otherwise the current name (untrimmed), colour and icon are handed on once and the form returns to its initial state |

## Left out

- Persistence (`src/utils/db.js`) is not part of this model. It is IndexedDB through a library whose source is not available, so category and task ids are values here.
- The App component's effect glue is not modelled:
  - re-arming reminders only when `tasks.length > 0`;
  - overwriting the previous batch's handles without cancelling them;
  - dark mode and `confirm()`.
- Drag-and-drop is not modelled: `TimeSlot` hands over the display string, so a drop writes `undefined` as the start time.
- `new Date(task.startTime)` in `scheduleNotification` parses a bare `HH:MM` with the engine's date parser, which usually gives an invalid date.
  - `Notifications.ScheduleNotification` takes the parsed start instant as the parameter `taskTime`, so it does not model that parse.
  - An invalid date, whose comparisons are false and whose delay is `NaN`, is not modelled.
- Time zones and daylight saving are not modelled. The `YYYY-MM-DD` date is an abstract day number, not a UTC-midnight parse adjusted by local `setHours`.
- The system clock, the locale (`formatDate`, `isToday`, `getTodayString`) and `Date.setDate` rollover in `addDays` are not modelled. Days are abstract numbers.
- The latency of real timers and the card's 30-second polling are not modelled. Timers form an abstract table, and the card's flag is stated at any instant `now`.
- `ProgressBar.RoundedPercent`: computes `Math.round((completed / total) * 100)` in exact rational arithmetic, not in doubles. The two differ where the double product falls just below a half: 23 of 40 is 57.49999999999999 in doubles, so the app shows 57 where the model gives 58.
- `ProgressBar.Progress`: inherits that exact rounding.
- `ProgressBar.RoundedPercentNearest`: states nearest-percent rounding of the exact share, which the double computation can miss by one, as above.
- `ProgressBar.ProgressBounds`: its nearest-percent clause is about the exact share, as above; its 0..100 range does not depend on it.
- `ProgressBar.RoundsToHundred` and `ProgressBar.AllDoneThreshold`: state the 99.5% threshold on the exact share.
- `TaskCard.CardHeightScale`: uses exact reals, not floating point.
- `Number()` is modelled on the strings this app produces. Fractions, exponents, hexadecimal and `Infinity` read as `None`.
- Vibration (`src/utils/vibration.js`, the vibrate calls in the forms and cards) is not modelled. `showNotification` only records whether the device vibrates.
- The notification's click handler and `window.focus` are not modelled.
- `isNotificationSupported` is a boolean parameter.
- The `ReferenceError` that `scheduleTaskNotifications` throws without the Notification API is a result value, `Notifications.Completion.ThrowsReferenceError`. What the surrounding effect then does (it has no `try`) is not modelled.
- `TimeUtils.IsoTimeOfDayMs`: reads the time-of-day forms of the ECMAScript date-time string format only. A time-zone suffix (`Z`, `+HH:mm`) and any non-standard form an engine's fallback parser may accept are read as an invalid date.
- The permission prompt component, the header and all rendering and styling are not modelled.
- `TaskForm.TaskFormState.Submit` and `CategoryManager.CategoryForm.Submit` return the record handed to `onSave` or `onAddCategory` instead of calling it.
- The form's `categoryId` of `''` is represented as 0.
- `parseInt` of the slider and menu values is represented by the integers those controls offer.
