# Flowlock in Dafny

Flowlock is a focus timer with a task list. This project models its core in Dafny:

- **Dashboard session.** A list of tasks, the active task, and a timer. In flow mode the timer counts up one second per tick. In pomodoro mode it counts down through 25-minute work and 5-minute break phases. The handlers start, pause, reset, complete, delete and select tasks.
- **Task forms.** The new-task and edit-task forms: title, estimate steppers, a 12-hour schedule picker, and the rule that places the chosen time today or tomorrow.
- **Text rendering.** The timer, break and estimate texts.
- **Task lists and break screens.** The pending/completed lists, the guided-break views, the profile menu, and the goal cards with their image-upload checks.

Pure code becomes datatypes, functions and lemmas. Components whose handlers update state step by step become classes whose methods are proved against those functions:

- `Dashboard.SessionController`
- `AddTaskForm.Form` and `EditTaskForm.Form`
- `TaskList.QuickAdd` and `TaskDashboard.Panel`
- `GuidedBreak.DecisionPhase`
- `UserProfileMenu.Menu`
- `GoalsPanel.GoalCard`

Two behaviours of the core worth stating outright:

- The dashboard timer accumulates one-second ticks. A one-second interval adds 1 to the seconds counter in flow mode and subtracts 1 in pomodoro mode; no deadline is kept.
- The repeat choice of the new-task form is only handed on with the new task. No file of the core expands habits.

Time is an integer number of milliseconds. A `TaskFields.Clock` is what the forms read from `new Date()`: local midnight today, the current instant and the weekday. JavaScript semantics are written out where the code relies on them: the truncating `%` in `TaskFields.JsRem`; the truthiness of `""` in `Text.TrimmedOrAbsent`, `EditTaskForm.TextOrEmpty` and `UserProfileMenu.Truthy`; the truthiness of `0` in `TaskList.LimitGiven`; `slice` with a negative end in `Lists.SliceTo`; and `split`/`join`/`pop`, `padStart`, `trim` and `toUpperCase` in `Text`.

## Model

| member | source | states |
|---|---|---|
| Types.ParseStatus | types.ts:14 | reading a status name gives the status it names, and nothing for other text |
| Types.StatusNamesRoundTrip | types.ts:14 | every timer status reads back from its own name |
| Types.FindIndex | components/TimerView.tsx:26 | `find` by id: none exactly when no task carries the id, otherwise a valid index holding the id with no earlier match |
| Types.FindTask | components/Dashboard.tsx:167 | the task `find` returns is in the list and carries the id; none exactly when no task has it |
| Text.Trim | components/AddTaskForm.tsx:78 | `trim()`: empty exactly for white space alone, otherwise the middle slice starting and ending on non-white space, with only white space cut from either end |
| Text.TrimOfPadded | components/GoalsPanel.tsx:57 | trimming white space added around an already-trimmed text gives that text back |
| Text.TrimIdempotent | components/GoalsPanel.tsx:57 | trimming twice is trimming once |
| Text.TrimmedOrAbsent | components/AddTaskForm.tsx:82-83 | `s.trim() \|\| undefined`: absent exactly for blank text, otherwise the trimmed text |
| Text.Split | components/UserProfileMenu.tsx:65 | `split` with one character: at least one piece, and no piece holds the separator |
| Text.JoinSplit | components/UserProfileMenu.tsx:65-67 | joining the pieces of a split with the same separator restores the text |
| Text.SplitJoin | components/UserProfileMenu.tsx:65-67 | splitting a join of separator-free pieces restores the pieces |
| Text.LastPiece | components/GoalsPanel.tsx:333 | `split(sep).pop()`: free of the separator, the whole text when it has none, otherwise the suffix after one of its separators |
| Text.LastPieceAfterSeparator | components/GoalsPanel.tsx:333-334 | after any prefix and a separator, a separator-free tail is the last piece |
| Text.DecimalString | components/TimerView.tsx:33 | a number's decimal text is a non-empty digit run, with a leading zero only for 0 |
| Text.DecimalRoundTrip | components/TimerView.tsx:33 | reading the decimal text of n gives n |
| Text.PadStart | components/TimerView.tsx:33 | `padStart(w, c)`: at least w long, the original text at the end, only fill characters before it |
| Text.TwoDigits | components/TimerView.tsx:33 | `n.toString().padStart(2, '0')` below 100: exactly two digits reading back as n |
| Text.ToUpper | components/UserProfileMenu.tsx:68 | `toUpperCase()` on ASCII: same length, each character upper-cased in place |
| Text.Prefix | components/UserProfileMenu.tsx:69 | `slice(0, n)`: a prefix of length min(n, length) |
| Lists.Filter | components/TaskDashboard.tsx:51 | `filter`: every element kept passes, and the list does not grow |
| Lists.FilterAppend | components/TaskDashboard.tsx:51 | filtering distributes over concatenation, so the order is kept |
| Lists.FilterKeeps | components/TaskDashboard.tsx:51 | every element that passes is kept |
| Lists.FilterAll | components/TaskDashboard.tsx:51 | when every element passes, the filter keeps the whole list |
| Lists.Reject | components/TaskList.tsx:36 | filtering by a negated test: every element kept fails the test |
| Lists.RejectAppend | components/TaskList.tsx:36 | the negated filter distributes over concatenation |
| Lists.RejectKeeps | components/TaskList.tsx:36 | every element that fails the test is kept |
| Lists.RejectSubset | components/TaskList.tsx:36 | the negated filter keeps only elements of the list |
| Lists.RejectNone | components/Dashboard.tsx:206 | when no element passes the test, the negated filter keeps the whole list |
| Lists.FilterPartition | components/TaskDashboard.tsx:50-51 | the two filters by a test and its negation, merged in the order of the flags, give back the list |
| Lists.FilterPartitionCounts | components/TaskDashboard.tsx:50-51 | the two filters hold every element exactly once: lengths and multisets add up |
| Lists.SliceTo | components/TaskList.tsx:37 | `slice(0, end)`: a prefix, of length end when 0 <= end and shorter by -end when end is negative |
| Dashboard.CompleteWithTime | components/Dashboard.tsx:172-176 | the markDone list update: tasks with the id become completed with the new total, all other fields and all other tasks unchanged |
| Dashboard.FlipCompleted | components/Dashboard.tsx:240 | the toggle list update: the flag of tasks with the id flips, nothing else changes |
| Dashboard.FlipCompletedTwice | components/Dashboard.tsx:240 | flipping twice restores the list |
| Dashboard.RemoveById | components/Dashboard.tsx:206 | `filter(t => t.id !== id)`: no task with the id remains |
| Dashboard.RemoveByIdAppend | components/Dashboard.tsx:206 | deleting distributes over concatenation, so the remaining tasks keep their order |
| Dashboard.RemoveAbsentId | components/Dashboard.tsx:206 | deleting an id no task carries changes nothing |
| Dashboard.RemoveByIdKeepsOthers | components/Dashboard.tsx:206 | every task with another id survives the delete |
| Dashboard.StartOn | components/Dashboard.tsx:224-232 | selecting makes the id active and running, restarts the counter for the mode, and enters the work phase in pomodoro |
| Dashboard.StopTimer | components/Dashboard.tsx:181-183 | stopping: idle, no active task, counter back to the mode's start |
| Dashboard.ToggleTimer | components/Dashboard.tsx:156-163 | no-op without an active task in flow mode; otherwise running pauses and idle or paused runs, nothing else changes; the counter stays in range |
| Dashboard.ToggleTimerTwice | components/Dashboard.tsx:156-163 | two toggles of a running or paused timer restore the session |
| Dashboard.FocusMinutes | components/Dashboard.tsx:100-101 | nothing is logged under 60 s; otherwise the logged minutes are the floor of seconds / 60 |
| Dashboard.MarkDone | components/Dashboard.tsx:165-185 | no-op without an active task; otherwise tasks with the active id are completed with the new total, and the timer stops, clears and resets for the mode |
| Dashboard.MarkDoneLog | components/Dashboard.tsx:168-179 | a focus session of floor(seconds / 60) minutes is logged exactly for an active task in flow mode after at least a minute; nothing otherwise |
| Dashboard.MarkDoneCredits | components/Dashboard.tsx:167-176 | the task `find` returns ends completed with exactly its old time plus the credited seconds |
| Dashboard.AddTask | components/Dashboard.tsx:187-203 | a failed creation changes nothing; a created task is appended; with no active task it becomes active and the timer starts on it |
| Dashboard.DeleteTask | components/Dashboard.tsx:205-214 | tasks with the id are removed; deleting the active task stops the timer, otherwise nothing else changes |
| Dashboard.ModeChange | components/Dashboard.tsx:216-221 | idle in the new mode and the work phase, counter at that mode's start, tasks and active task kept |
| Dashboard.SelectTask | components/Dashboard.tsx:223-234 | selecting the active task does nothing; any other id starts the timer on it |
| Dashboard.ToggleComplete | components/Dashboard.tsx:236-248 | an unknown id changes nothing; otherwise the flag flips, and toggling the active task stops the timer |
| Dashboard.ToggleCompleteTwice | components/Dashboard.tsx:236-248 | completing and un-completing a task restores the task list |
| Dashboard.Reset | components/Dashboard.tsx:250-257 | idle; counter at 0 in flow, at the current phase's length in pomodoro; everything else kept |
| Dashboard.Tick | components/Dashboard.tsx:259-278 | only while running: flow adds one; pomodoro subtracts one above 1, and at 1 or below switches phase and loads its length |
| Dashboard.StepKeepsBounded | components/Dashboard.tsx:156-278 | every handler and the tick keep the counter in range |
| Dashboard.RunKeepsBounded | components/Dashboard.tsx:156-278 | any sequence of events keeps the counter in range |
| Dashboard.PomodoroCounterInRange | components/Dashboard.tsx:8-19 | from the mount state, in pomodoro the counter is always 1..1500 seconds, and in flow never negative |
| Dashboard.SessionController.constructor | components/Dashboard.tsx:14-19 | the mount state, in range |
| Dashboard.SessionController.HandleToggleTimer | components/Dashboard.tsx:156-163 | the fields move exactly as ToggleTimer says, and stay in range |
| Dashboard.SessionController.HandleMarkDone | components/Dashboard.tsx:165-185 | the fields move as MarkDone says, and it returns the minutes MarkDoneLog logs |
| Dashboard.SessionController.HandleAddTask | components/Dashboard.tsx:187-203 | the fields move as AddTask says |
| Dashboard.SessionController.HandleDeleteTask | components/Dashboard.tsx:205-214 | the fields move as DeleteTask says |
| Dashboard.SessionController.HandleModeChange | components/Dashboard.tsx:216-221 | the fields move as ModeChange says |
| Dashboard.SessionController.HandleSelectTask | components/Dashboard.tsx:223-234 | the fields move as SelectTask says |
| Dashboard.SessionController.HandleToggleComplete | components/Dashboard.tsx:236-248 | the fields move as ToggleComplete says |
| Dashboard.SessionController.HandleReset | components/Dashboard.tsx:250-257 | the fields move as Reset says |
| Dashboard.SessionController.OnSecond | components/Dashboard.tsx:259-278 | the fields move as Tick says |
| TaskFields.CurrentHour | components/AddTaskForm.tsx:24 | `getHours()` on a real clock reading is 0..23 |
| TaskFields.ClockReadsTimeOfDay | components/AddTaskForm.tsx:23-30 | on a real clock the form's starting hour and minute are the time of day that the scheduled instant is read back with |
| TaskFields.CurrentMinute | components/AddTaskForm.tsx:28 | `getMinutes()` is 0..59 |
| TaskFields.JsRem | components/EditTaskForm.tsx:46 | JavaScript `%`: the usual remainder for a non-negative dividend; for a negative one, in -(b-1)..0 and equal to the dividend minus the divisor times the quotient truncated toward zero |
| TaskFields.TotalSeconds | components/AddTaskForm.tsx:77 | the estimate in seconds is a whole number of minutes, at most 46740 within the stepper ranges |
| TaskFields.HoursDown | components/AddTaskForm.tsx:147 | one hour less, clamped at 0, staying in 0..12 |
| TaskFields.HoursUp | components/AddTaskForm.tsx:192 | one hour more, clamped at 12, staying in 0..12 |
| TaskFields.MinutesDown | components/AddTaskForm.tsx:238 | five minutes less, clamped at 0, staying in 0..59 |
| TaskFields.MinutesUp | components/AddTaskForm.tsx:283 | five minutes more, clamped at 59, staying in 0..59 |
| TaskFields.SubmitDisabledIffRejected | components/AddTaskForm.tsx:650 | the submit button is disabled exactly while busy or when the submit handler would refuse the same fields; both forms use this one rule (the edit form at components/EditTaskForm.tsx:382, with `saving` as the busy flag) |
| TaskFields.To12Hour | components/AddTaskForm.tsx:23-26 | a 0..23 hour shows as 1..12 on the dial |
| TaskFields.To24Hour | components/AddTaskForm.tsx:67-68 | on 1..12, `hour % 12` plus 12 for PM is a 0..23 hour that shows as the same dial hour and period |
| TaskFields.To24HourOf12 | components/AddTaskForm.tsx:23-31 | showing a 0..23 hour on the dial and converting back gives the hour |
| TaskFields.RoundUpToFive | components/AddTaskForm.tsx:27-30 | the current minute rounded up to a multiple of five, with 60 read as 0 |
| TaskFields.PrevHour | components/AddTaskForm.tsx:334 | the hour minus button stays on 1..12, 1 wrapping to 12 |
| TaskFields.NextHour | components/AddTaskForm.tsx:366 | the hour plus button stays on 1..12, 12 wrapping to 1 |
| TaskFields.HourStepsInverse | components/AddTaskForm.tsx:334-366 | the two hour buttons undo each other |
| TaskFields.HourDialCycles | components/AddTaskForm.tsx:366 | n presses of plus move the dial n places round the 12 hours |
| TaskFields.PrevMinute | components/AddTaskForm.tsx:411 | the minute minus button keeps 0..55 in steps of five, 0 wrapping to 55 |
| TaskFields.NextMinute | components/AddTaskForm.tsx:443 | the minute plus button keeps 0..55 in steps of five, 55 wrapping to 0 |
| TaskFields.MinuteStepsInverse | components/AddTaskForm.tsx:411-443 | the two minute buttons undo each other on the five-minute steps |
| TaskFields.ScheduledInstant | components/AddTaskForm.tsx:65-73 | today at the chosen time, one day later when that is past. For a non-negative minute: not before now, within 24 hours, and showing the chosen hour and minute |
| TaskFields.TimeOfDayAt | components/AddTaskForm.tsx:69-71 | today's or tomorrow's instant at h:m shows h:m on the local clock |
| AddTaskForm.InitialFields | components/AddTaskForm.tsx:18-33 | empty texts, 0 h 25 min, no repeat, the dial on the current hour; the minute is the current minute rounded up to a five: a five-step at or after now and less than 5 later, or 0 after minute 55 |
| AddTaskForm.Submit | components/AddTaskForm.tsx:75-88 | nothing for a blank title or under 5 minutes; otherwise the trimmed title, the estimate, trimmed-or-absent location and purpose, the scheduled instant, the repeat type, and the weekday exactly for weekly |
| AddTaskForm.SubmitInRange | components/AddTaskForm.tsx:75-88 | with fields in range, an accepted request asks for 5 min..12 h 59 min, at a time within the next day showing the chosen hour and minute |
| AddTaskForm.Form.constructor | components/AddTaskForm.tsx:18-33 | the fields start as InitialFields says, in range |
| AddTaskForm.Form.SetTitle | components/AddTaskForm.tsx:116 | only the title changes |
| AddTaskForm.Form.SetLocation | components/AddTaskForm.tsx:611 | only the location changes |
| AddTaskForm.Form.SetPurpose | components/AddTaskForm.tsx:629 | only the purpose changes |
| AddTaskForm.Form.DecreaseHours | components/AddTaskForm.tsx:147 | only the hours change, as HoursDown says, staying in range |
| AddTaskForm.Form.IncreaseHours | components/AddTaskForm.tsx:192 | only the hours change, as HoursUp says, staying in range |
| AddTaskForm.Form.DecreaseMinutes | components/AddTaskForm.tsx:238 | only the minutes change, as MinutesDown says, staying in range |
| AddTaskForm.Form.IncreaseMinutes | components/AddTaskForm.tsx:283 | only the minutes change, as MinutesUp says, staying in range |
| AddTaskForm.Form.DecreaseScheduleHour | components/AddTaskForm.tsx:334 | only the dial hour changes, as PrevHour says |
| AddTaskForm.Form.IncreaseScheduleHour | components/AddTaskForm.tsx:366 | only the dial hour changes, as NextHour says |
| AddTaskForm.Form.DecreaseScheduleMinute | components/AddTaskForm.tsx:411 | only the dial minute changes, as PrevMinute says |
| AddTaskForm.Form.IncreaseScheduleMinute | components/AddTaskForm.tsx:443 | only the dial minute changes, as NextMinute says |
| AddTaskForm.Form.SetPeriod | components/AddTaskForm.tsx:474-488 | only the AM/PM choice changes |
| AddTaskForm.Form.ToggleRepeatDropdown | components/AddTaskForm.tsx:512 | the option list opens or closes, and the fields stay |
| AddTaskForm.Form.CloseRepeatDropdown | components/AddTaskForm.tsx:541 | the backdrop closes the option list |
| AddTaskForm.Form.ChooseRepeat | components/AddTaskForm.tsx:558-561 | an option sets the repeat type and closes the list |
| AddTaskForm.Form.HandleSubmit | components/AddTaskForm.tsx:75-88 | the request handed on is exactly Submit of the current fields |
| EditTaskForm.InitialHours | components/EditTaskForm.tsx:19 | the whole hours of the estimate: h * 3600 <= est < (h + 1) * 3600 |
| EditTaskForm.InitialMinutes | components/EditTaskForm.tsx:20 | `Math.floor` of the JavaScript remainder over 60, for any estimate: 0..59 for a non-negative one, -60..0 for a negative one |
| EditTaskForm.ResubmitUnchanged | components/EditTaskForm.tsx:19-55 | saving unchanged stores the estimate rounded down to whole minutes |
| EditTaskForm.TextOrEmpty | components/EditTaskForm.tsx:21-22 | `s \|\| ''`: the text when present, otherwise empty |
| EditTaskForm.InitialFields | components/EditTaskForm.tsx:18-42 | title and estimate from the task; location and purpose or empty; the dial on the stored local time when scheduled (minute not rounded), otherwise from now as in the new-task form |
| EditTaskForm.Submit | components/EditTaskForm.tsx:53-64 | the same gate and fields as the new-task form, without repeat |
| EditTaskForm.ResaveKeepsTimeOfDay | components/EditTaskForm.tsx:25-51 | saving a scheduled task untouched keeps its local time of day, not before now and within the next day |
| EditTaskForm.UnroundedMinuteGoesNegative | components/EditTaskForm.tsx:289 | from a stored minute of 1..4 the minus button goes below 0 (3 gives -2) |
| EditTaskForm.NegativeMinuteSavesPastTime | components/EditTaskForm.tsx:44-51 | with minute -2 at 23:59:30, 12 AM is saved for 23:58 today, before now |
| EditTaskForm.Form.constructor | components/EditTaskForm.tsx:18-42 | the fields start as InitialFields says, in range for a non-negative estimate and a real clock |
| EditTaskForm.Form.SetTitle | components/EditTaskForm.tsx:90 | only the title changes |
| EditTaskForm.Form.SetLocation | components/EditTaskForm.tsx:344 | only the location changes |
| EditTaskForm.Form.SetPurpose | components/EditTaskForm.tsx:361 | only the purpose changes |
| EditTaskForm.Form.DecreaseHours | components/EditTaskForm.tsx:118 | only the hours change, as HoursDown says |
| EditTaskForm.Form.IncreaseHours | components/EditTaskForm.tsx:149 | only the hours change, as HoursUp says |
| EditTaskForm.Form.DecreaseMinutes | components/EditTaskForm.tsx:194 | only the minutes change, as MinutesDown says |
| EditTaskForm.Form.IncreaseMinutes | components/EditTaskForm.tsx:225 | only the minutes change, as MinutesUp says |
| EditTaskForm.Form.DecreaseScheduleHour | components/EditTaskForm.tsx:264 | only the dial hour changes, as PrevHour says |
| EditTaskForm.Form.IncreaseScheduleHour | components/EditTaskForm.tsx:275 | only the dial hour changes, as NextHour says |
| EditTaskForm.Form.DecreaseScheduleMinute | components/EditTaskForm.tsx:289 | only the dial minute changes, as PrevMinute says; stays within -4..59 |
| EditTaskForm.Form.IncreaseScheduleMinute | components/EditTaskForm.tsx:300 | only the dial minute changes, as NextMinute says |
| EditTaskForm.Form.SetPeriod | components/EditTaskForm.tsx:312-322 | only the AM/PM choice changes |
| EditTaskForm.Form.HandleSubmit | components/EditTaskForm.tsx:53-64 | the edit handed on is exactly Submit of the current fields, and with fields in range it is saved for less than 4 minutes before now, never earlier |
| EditTaskForm.SubmitNotLongAgo | components/EditTaskForm.tsx:53-64 | an accepted edit with fields the steppers can reach is scheduled for less than 4 minutes before now, never earlier |
| EditTaskForm.InstantNotLongAgo | components/EditTaskForm.tsx:44-51 | a minute of -4 or more, which the minute stepper reaches from a stored minute of 1 to 4, places the instant less than 4 minutes before now |
| ClockText.TimeFields | components/TimerView.tsx:29-31 | hours, minutes and seconds recombine to the total, with minutes and seconds below 60 |
| ClockText.FormatTime | components/TimerView.tsx:28-36 | colon-separated digit runs, three exactly from one hour on; the first is the hours (below an hour, the minutes) unpadded, and every later piece is two digits reading as the minutes and seconds of the count |
| ClockText.FormatTimeRoundTrip | components/TimerView.tsx:28-36 | reading the timer text as base-60 digits gives the seconds back |
| ClockText.FormatBreakTime | components/GuidedBreak.tsx:22-26 | two colon-separated pieces: the whole minutes unpadded, then two digits reading as the seconds left over |
| ClockText.FormatBreakTimeRoundTrip | components/GuidedBreak.tsx:22-26 | reading the break text gives the seconds back |
| ClockText.BreakTimeDetermined | components/GuidedBreak.tsx:22-26 | the break text is the only text with those pieces, so the contract of ClockText.FormatBreakTime fixes the text |
| ClockText.BreakTimeMatchesTimer | components/GuidedBreak.tsx:22-26 | below an hour the break and timer texts are the same |
| ClockText.FormatDuration | components/TaskDashboard.tsx:23-29 | `Hh Mm` when both fields are non-zero, `Hh` for whole hours, `Mm` otherwise, each field unpadded; "0m" exactly under a minute |
| ClockText.FormatDurationRoundTrip | components/TaskDashboard.tsx:23-29 | reading the label gives the total rounded down to whole minutes |
| TimerView.ControlsFor | components/TimerView.tsx:97-131 | reset always enabled; play/pause and mark-done enabled exactly with a truthy active id; pause icon exactly while running |
| TimerView.ControlsMatchSession | components/TimerView.tsx:109-130 | an enabled play/pause press always changes the dashboard's status; a disabled mark-done press would change nothing |
| TaskList.Pending | components/TaskList.tsx:36 | only incomplete tasks, and every incomplete task |
| TaskList.PendingKeepsOrder | components/TaskList.tsx:36 | the pending list keeps the original order |
| TaskList.Displayed | components/TaskList.tsx:37 | a prefix of the pending list: all of it without a truthy limit, the first `limit` with a positive one, all but the last -`limit` (or none) with a negative one |
| TaskList.Highlighted | components/TaskList.tsx:47-53 | a row is highlighted exactly when its id is the active id |
| TaskList.PendingDistinct | components/TaskList.tsx:36 | filtering out the completed tasks keeps the task ids (the rows' React keys) distinct |
| TaskList.HighlightUnique | components/TaskList.tsx:37-53 | with distinct task ids, at most one shown row is highlighted, and that row is a task of the list carrying the active id |
| TaskList.QuickAdd.constructor | components/TaskList.tsx:26 | the input starts empty |
| TaskList.QuickAdd.SetText | components/TaskList.tsx:26 | the input holds the typed text |
| TaskList.QuickAdd.HandleSubmit | components/TaskList.tsx:28-34 | the trimmed title is handed on unless blank; the input is cleared exactly when one was |
| TaskDashboard.Completed | components/TaskDashboard.tsx:51 | only completed tasks |
| TaskDashboard.PendingCompletedPartition | components/TaskDashboard.tsx:50-51 | the pending and completed lists partition the tasks: merged by the flags they restore the list, each task once |
| TaskDashboard.Greeting | components/TaskDashboard.tsx:60-61 | morning exactly before 12, afternoon exactly from 12 to before 17, evening exactly from 17 |
| TaskDashboard.EmptyStateWhenAllDone | components/TaskDashboard.tsx:118-122 | with every task completed and the form closed, the empty-state message shows once loaded |
| TaskDashboard.NoEmptyStateWithPending | components/TaskDashboard.tsx:118-122 | the message never shows while a task is pending |
| TaskDashboard.Panel.constructor | components/TaskDashboard.tsx:45-48 | all flags off, nothing being edited |
| TaskDashboard.Panel.OpenAddForm | components/TaskDashboard.tsx:101 | the add form opens, nothing else changes |
| TaskDashboard.Panel.CancelAdd | components/TaskDashboard.tsx:93 | the add form closes, nothing else changes |
| TaskDashboard.Panel.BeginAdd | components/TaskDashboard.tsx:54 | the add shows as busy |
| TaskDashboard.Panel.EndAdd | components/TaskDashboard.tsx:56-57 | no longer busy, and the form closes |
| TaskDashboard.Panel.StartEdit | components/TaskDashboard.tsx:204 | that row is being edited: afterwards a task shows the editor exactly when it carries that id |
| TaskDashboard.Panel.CancelEdit | components/TaskDashboard.tsx:168 | no row is being edited: no task shows the editor |
| TaskDashboard.Panel.BeginSave | components/TaskDashboard.tsx:163 | the edit shows as saving |
| TaskDashboard.Panel.EndSave | components/TaskDashboard.tsx:165-166 | no longer saving, and edit mode ends: no task shows the editor |
| TaskDashboard.OneEditorAmongPending | components/TaskDashboard.tsx:134-157 | with distinct ids, at most one pending row shows the edit form, and such a row is a task of the list carrying the edited id |
| GuidedBreak.ViewFor | components/GuidedBreak.tsx:440-454 | each phase renders the view belonging to that phase |
| GuidedBreak.DispatchInjective | components/GuidedBreak.tsx:440-454 | different phases render different views |
| GuidedBreak.DrinkWaterOnlyFromVictory | components/GuidedBreak.tsx:441 | only the victory view invokes onDrinkWater, and it never invokes onDone |
| GuidedBreak.BreakLength | components/GuidedBreak.tsx:207 | 120 seconds exactly for stretches, 300 otherwise |
| GuidedBreak.DecisionPhase.constructor | components/GuidedBreak.tsx:267 | the task list starts hidden |
| GuidedBreak.DecisionPhase.DoneForNow | components/GuidedBreak.tsx:286-302 | while the list is hidden, "I'm done for now" invokes onDone, a callback the decision view may invoke |
| GuidedBreak.DecisionPhase.KeepGoing | components/GuidedBreak.tsx:286-319 | while the list is hidden: with tasks remaining the list is revealed and nothing is invoked; with none the list stays hidden and onDone is invoked, a callback the decision view may invoke |
| GuidedBreak.DecisionPhase.BackToDashboard | components/GuidedBreak.tsx:357-362 | once the list is revealed, "Back to dashboard" invokes onDone, a callback the decision view may invoke |
| GuidedBreak.DecisionPhase.PickTask | components/GuidedBreak.tsx:320-334 | once the list is revealed, a remaining task's row invokes onContinue with that task's id, one of the remaining ids and a callback the decision view may invoke |
| UserProfileMenu.OrElse | components/UserProfileMenu.tsx:25-27 | `a \|\| b`: a when present and non-empty, b otherwise |
| UserProfileMenu.InfoOf | components/UserProfileMenu.tsx:24-28 | name is full_name, then name, then "User", never empty; email or empty; avatar_url, then picture, then none |
| UserProfileMenu.GetInitials | components/UserProfileMenu.tsx:63-70 | at most two characters: the first two word starts of the name, upper-cased |
| UserProfileMenu.HeadsOfSplit | components/UserProfileMenu.tsx:65-67 | the first characters of the split words are the non-space characters that open the text or follow a space |
| UserProfileMenu.EmptyWordsAddNothing | components/UserProfileMenu.tsx:65-67 | leading and doubled spaces add nothing: " jo  ann" gives "JA" |
| UserProfileMenu.NoStartsIffSpaces | components/UserProfileMenu.tsx:65-67 | a text has no word starts exactly when it is all spaces |
| UserProfileMenu.BadgeText | components/UserProfileMenu.tsx:134 | "U" for an empty name, otherwise the name's initials |
| UserProfileMenu.BadgeEmptyIffBlankName | components/UserProfileMenu.tsx:134 | the badge is empty exactly for a non-empty name made only of spaces |
| UserProfileMenu.AvatarOf | components/UserProfileMenu.tsx:106-135 | the picture exactly when a non-empty avatar URL is known, otherwise the initials badge |
| UserProfileMenu.Menu.constructor | components/UserProfileMenu.tsx:11-16 | closed, with the empty user record |
| UserProfileMenu.Menu.LoadUser | components/UserProfileMenu.tsx:20-32 | a signed-in user replaces the record as InfoOf says; otherwise nothing changes |
| UserProfileMenu.Menu.ToggleAvatar | components/UserProfileMenu.tsx:76 | the avatar click flips the open flag |
| UserProfileMenu.Menu.KeyDown | components/UserProfileMenu.tsx:47-56 | afterwards open exactly when it was open and the key was not Escape |
| UserProfileMenu.Menu.MouseDown | components/UserProfileMenu.tsx:35-45 | afterwards open exactly when it was open and the press was inside the menu |
| GoalsPanel.CheckFile | components/GoalsPanel.tsx:76-84 | no file, not `image/`, over 2 MiB (the alert) or accepted, each exactly in its case; exactly 2 MiB is accepted |
| GoalsPanel.FileExtension | components/GoalsPanel.tsx:333 | the text after the last dot, or the whole name without one |
| GoalsPanel.UploadPath | components/GoalsPanel.tsx:334 | the path lies in the user's folder, and a dot-free extension is the path's own extension |
| GoalsPanel.UploadKeepsExtension | components/GoalsPanel.tsx:333-334 | the uploaded object has the picked file's extension |
| GoalsPanel.UploadFolderIsUser | components/GoalsPanel.tsx:334 | for a slash-free user id, the first path segment is the user id |
| GoalsPanel.ImageUpload | components/GoalsPanel.tsx:328-335 | nothing without a user; otherwise a path in the user's folder with the file's extension |
| GoalsPanel.SaveContent | components/GoalsPanel.tsx:56-59 | nothing when the trimmed text equals the stored value, otherwise the trimmed text |
| GoalsPanel.ResaveSkipped | components/GoalsPanel.tsx:56-59 | once a saved text is the stored value, saving again saves nothing |
| GoalsPanel.PaddingAloneSkipped | components/GoalsPanel.tsx:56-59 | white space added around a trimmed stored value does not trigger a save |
| GoalsPanel.GoalCard.constructor | components/GoalsPanel.tsx:36-40 | the text shows the stored value, all flags off |
| GoalsPanel.GoalCard.ValueChanged | components/GoalsPanel.tsx:45-47 | a new stored value replaces the text |
| GoalsPanel.GoalCard.StartEdit | components/GoalsPanel.tsx:121 | editing starts, nothing else changes |
| GoalsPanel.GoalCard.SetText | components/GoalsPanel.tsx:191 | only the text changes |
| GoalsPanel.GoalCard.HandleSave | components/GoalsPanel.tsx:56-62 | editing always ends; it returns SaveContent of the text, and the spinner shows exactly when something is saved |
| GoalsPanel.GoalCard.FinishSave | components/GoalsPanel.tsx:63-64 | the spinner gives way to the saved mark |
| GoalsPanel.GoalCard.HideSaved | components/GoalsPanel.tsx:65-66 | the saved mark is hidden |
| GoalsPanel.GoalCard.HandleKeyDown | components/GoalsPanel.tsx:69-74 | Escape restores the stored value and ends editing; other keys change nothing |
| GoalsPanel.GoalCard.HandleFileChange | components/GoalsPanel.tsx:76-85 | uploads exactly an accepted file and alerts exactly for one over the limit; the upload flag is raised only for an upload |
| GoalsPanel.GoalCard.FinishUpload | components/GoalsPanel.tsx:86-87 | the upload flag is lowered |

## Left out

- Backend calls are left out: fetchTasks, createTask, updateTaskStatus, removeTask, the focus-session insert, the storage upload and `getPublicUrl`, `getUser` and `signOut`.
  - Their outcomes are parameters: the created task or none, and the signed-in user or none.
  - Failure logging and `alert` text are not modelled.
- The fetched task list is not modelled (components/Dashboard.tsx:45-50).
  - The mapping renames the columns and turns a falsy `time_spent` into 0.
  - It sets no `estimatedSeconds`, `location`, `purpose` or `scheduledAt`, so fetched tasks carry no estimate. The model's `Task` always carries an integer estimate, so what the edit form shows for a task without one (`NaN` hours and minutes) is not modelled.
- The finish-the-day button is not modelled as a member: it is rendered only when `tasks.length > 0` and a press calls the parent's onFinishDay only when `window.confirm` answers yes (components/TaskDashboard.tsx:289-295). What onFinishDay does belongs to the parent.
- Each async handler is one atomic step.
  - Handlers interleaving across an `await` is not modelled.
  - A tick landing between an optimistic update and the network reply is not modelled.
  - The card's save and upload are split at the `await` into a start step and a finish step, so they are not atomic.
- The Web Audio notification at a pomodoro phase switch is not modelled. It produces sound only.
- The timer ring's floating-point progress is not modelled (components/TimerView.tsx:39-40). Animations, styles and focus handlers are also out.
- Dates are reduced to integer milliseconds plus local midnight.
  - Time zones and daylight-saving shifts are not modelled.
  - `toISOString` text is not modelled.
  - `toLocaleDateString` is not modelled.
  - The local time of a stored `scheduledAt` is a parameter of `EditTaskForm.InitialFields`.
- Case mapping covers ASCII only. Strings are sequences of characters; surrogate pairs get no special treatment.
- Dashboard.AddTask: backend-created tasks carry no `estimatedSeconds`. The model accepts any value in that field.
- ClockText.FormatTime, ClockText.FormatBreakTime and ClockText.FormatDuration are defined on non-negative counts only. No caller in the core passes them a negative count, and the break length `breakSeconds` that reaches `FormatBreakTime` comes from outside the core and is assumed non-negative.
- ClockText.FormatDuration: its copy in components/GuidedBreak.tsx:28-34 is the same text and is not modelled twice.
- The dashboard's view switch and sign-out button are not modelled (components/Dashboard.tsx:20, 294). The goal-image removal, which only hands `null` to the parent, is also out.
- GoalsPanel.GoalCard.HandleSave: the save button's `preventDefault` stops the blur from saving a second time. The model treats the click and the blur as one save.
- EditTaskForm.Form.DecreaseScheduleMinute: the minute can leave the five-minute steps, as the source allows. The model does not round it, so a saved time can be up to 4 minutes in the past (`EditTaskForm.NegativeMinuteSavesPastTime`).
