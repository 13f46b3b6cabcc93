# Pompom, modelled in Dafny

Pompom is a macOS menu-bar Pomodoro timer. This project models its core:

- the session state machine in `TimerUseCase`: work, short and long breaks, the work counter, auto-start and the completion bookkeeping;
- the value types it drives: `PomodoroSession`, `TimerSettings`, `SessionStatistics` and `SessionHistory`;
- the task list: `PomodoroTask` and `TaskUseCase`;
- `SettingsUseCase`;
- the quick-add parser `TaskInputParser.parse`;
- the validators and formatting helpers;
- the two view models;
- the break-suggestion rule;
- the CSV text of the data export.

One Dafny module stands for each source file:

| file | module | what it holds |
|---|---|---|
| `session.dfy` | `Session` | `PomodoroSession` |
| `settings.dfy` | `Settings` | `TimerSettings` |
| `statistics.dfy` | `Statistics` | `SessionStatistics` |
| `history.dfy` | `History` | `SessionHistory` |
| `task.dfy` | `Tasks` | `PomodoroTask` |
| `timer_use_case.dfy` | `Timer` | the timer engine |
| `task_use_case.dfy` | `TaskCoordinator` | the task list operations |
| `settings_use_case.dfy` | `SettingsCoordinator` | the settings operations |
| `quick_add.dfy` | `QuickAdd` | the quick-add parser |
| `validation.dfy` | `Validation` | the validators and helpers |
| `task_view_model.dfy` | `TaskPresentation` | the task view model |
| `timer_view_model.dfy` | `TimerPresentation` | the timer view model |
| `break_suggestion.dfy` | `BreakSuggestions` | the break suggestion |
| `data_export.dfy` | `DataExport` | the CSV export |

Supporting modules:

- `Wrappers` holds `Option`.
- `Units` holds identifiers, instants, days, and Swift's truncating `/`, `%` and `Int(Double)`.
- `Strings` holds the Foundation string operations the core uses: trimming, case-insensitive search, split/join, collapsing blanks, and decimal text.
- `Stores` holds the persistence ports as in-memory stores.

Conventions:

- Times are whole seconds (`int`) and instants are integers.
- The calendar (`Units.Calendar`) is a fixed offset of local time from the time line, and every day is exactly 86400 seconds long: the day of an instant is the whole number of days in the instant plus the offset.
- Identifiers are natural numbers drawn from a counter, so each new one differs from every earlier one.
- The clock (`now`) is a parameter.
- A `TimeInterval` or `Double` is either a whole number of seconds or a `real`.
- A persistence port is a store object: `load` returns the last value saved and `save` overwrites it.

## How the stateful code is modelled

`TimerUseCase` is a class with the source's fields. Its whole observable state is the value `Engine`, which holds:

- the session, the counter, the credited task and the tick flag;
- the values in the three stores;
- a log of the sounds and notifications requested.

Each operation is specified twice:

- as a pure function on `Engine`, such as `AfterTick` or `AfterCompletion`;
- as a method that updates the fields step by step, in the source's order, and is proved to reach exactly that function's result (`State() == AfterTick(old(State()), now, cal)`).

The lemmas about the pure functions then state what the engine promises:

- the invariant every operation keeps;
- the work/break cycle;
- completion on the last tick.

`TaskUseCase` owns the ordered list, the selection and the task store. Its `Publish` saves the list, as the persistence subscription does. Every method ensures the new list and selection in terms of functions such as `ReplaceById`, `WithoutId`, `Pending` and `Move`, and the lemmas about those functions give the permutation and order facts.

The loops of the source are kept as loops:

- the pattern loops of the parser (`QuickAdd.TakePriority`, `QuickAdd.TakePomodoros`);
- the row loop of the export (`DataExport.ExportCsv`).

Each loop is proved equal to a recursive definition.

## Model

| member | source | states |
|---|---|---|
| Session.PomodoroSession.Progress | Pompom/Domain/Entities/PomodoroSession.swift:48-51 | 0 for a non-positive duration; in [0, 1] whenever 0 <= remaining <= duration; 0 exactly at the full duration and 1 exactly at zero remaining |
| Session.PomodoroSession.WithRemainingTime | Pompom/Domain/Entities/PomodoroSession.swift:57-66 | remaining becomes max(0, t); id, kind, duration, state and startedAt are kept; t <= duration keeps remaining <= duration |
| Session.PomodoroSession.WithState | Pompom/Domain/Entities/PomodoroSession.swift:53-77 | only state and startedAt change; startedAt is now iff the new state is Running, otherwise kept; active iff Running or Paused |
| Session.PomodoroSession.IsActive | Pompom/Domain/Entities/PomodoroSession.swift:53-55 | inactive exactly when Idle or Completed |
| Session.Fresh | Pompom/Domain/Entities/PomodoroSession.swift:32-46 | remaining equals duration, Idle, never started, not active |
| Session.FreshNoProgress | Pompom/Domain/Entities/PomodoroSession.swift:32-51 | a fresh session's progress is 0 |
| Settings.TimerSettings.DurationFor | Pompom/Domain/ValueObjects/TimerSettings.swift:34-40 | each kind maps to its own configured duration |
| Settings.DefaultValues | Pompom/Domain/ValueObjects/TimerSettings.swift:18-32 | the defaults: 1500/300/900 s, long break every 4; both auto-starts off; sound and notifications on; System theme; menu-bar time on; daily goal 8 |
| Statistics.SessionStatistics.WithCompletedSession | Pompom/Domain/ValueObjects/SessionStatistics.swift:20-36 | work adds 1 session, its truncated minutes and 1 to the streak, and longest becomes max(longest, new streak); a break adds only break minutes; lastSessionDate is now |
| Statistics.CompletionIsMonotone | Pompom/Domain/ValueObjects/SessionStatistics.swift:20-36 | no counter decreases under a completion of non-negative duration |
| Statistics.StreakAfterCompletions | Pompom/Domain/ValueObjects/SessionStatistics.swift:11-36 | from the empty value, any completions keep longest >= current; sessions, streak and longest all equal the number of work completions; the date is the last completion's |
| History.DailyStatistics.AddSession | Pompom/Domain/Entities/SessionHistory.swift:44-53 | work adds one session and its minutes; a break adds only break minutes; the day is kept |
| History.IndexOfDay | Pompom/Domain/Entities/SessionHistory.swift:90 | the first entry of the day, or none when no entry has that day |
| History.Lookup | Pompom/Domain/Entities/SessionHistory.swift:64-65 | the first entry of the day if there is one, else the zero entry of that day |
| History.TodayStats | Pompom/Domain/Entities/SessionHistory.swift:62-66 | today's first entry, or a zero entry dated today |
| History.ThisWeekStats | Pompom/Domain/Entities/SessionHistory.swift:68-79 | exactly 7 entries for the days today-6 .. today, oldest first, each looked up as above, ending with todayStats |
| History.DailyAfter | Pompom/Domain/Entities/SessionHistory.swift:89-101 | the table keeps its length when the day is present; otherwise it grows by one, up to 365; either way the day then has a row |
| History.DailyAfterCases | Pompom/Domain/Entities/SessionHistory.swift:90-92 | when the day has an entry, only its first entry is credited |
| History.DailyAfterNewDay | Pompom/Domain/Entities/SessionHistory.swift:93-101 | otherwise a credited new entry goes to the front, the old ones follow, and the table is cut to 365 |
| History.Recorded | Pompom/Domain/Entities/SessionHistory.swift:81-103 | the record leads the log, the log stays within 1000 and the table within 365 (or its old size), and the record's day has a row |
| History.RecordedLog | Pompom/Domain/Entities/SessionHistory.swift:81-103 | the record is at index 0, older records follow in order, the log holds min(n + 1, 1000) records, and a full log loses only its oldest |
| History.AddCompletedSession | Pompom/Domain/Entities/SessionHistory.swift:81-103 | the step-by-step mutation yields exactly the recorded history |
| History.LogKeepsNewest | Pompom/Domain/Entities/SessionHistory.swift:81-87 | after any records, the log is the newest 1000 records, newest first |
| History.SameDayOneRow | Pompom/Domain/Entities/SessionHistory.swift:89-101 | two records of one day add at most one row, with no bound on the table: after the first the day has a row, and the second credits exactly that row and changes no other |
| Tasks.PriorityFromRawValue | Pompom/Domain/Entities/Task.swift:3-6 | defined exactly for 0..2 and inverse to the raw value |
| Tasks.RawValueRoundTrip | Pompom/Domain/Entities/Task.swift:3-6 | low = 0, medium = 1, high = 2, and each raw value reads back as its priority |
| Tasks.MakeTask | Pompom/Domain/Entities/Task.swift:44-64 | the initialiser stores max(1, estimate) and every other field as given |
| Tasks.NewTask | Pompom/Domain/Entities/Task.swift:44-54 | the defaults: no completed pomodoros, not completed, no completion date, created now |
| Tasks.NewTaskNoProgress | Pompom/Domain/Entities/Task.swift:44-83 | a new task's progress is 0 |
| Tasks.PomodoroTask.WithUpdates | Pompom/Domain/Entities/Task.swift:66-78 | only the supplied title, notes, estimate and priority change, the estimate clamped to at least 1; id, counts, flag and dates are kept |
| Tasks.PomodoroTask.Progress | Pompom/Domain/Entities/Task.swift:80-83 | 0 for a non-positive estimate; in [0, 1] while completed <= estimate; at least 1 beyond it |
| Tasks.PomodoroTask.WithIncrementedPomodoro | Pompom/Domain/Entities/Task.swift:85-97 | completed + 1, estimate max(1, e), nothing else changes; exactly one more for a stored task |
| Tasks.PomodoroTask.WithCompletion | Pompom/Domain/Entities/Task.swift:99-111 | the flag is set; completedAt is set iff completed, and is now when set; everything else is kept except the clamped estimate |
| Stores.SettingsStore.Save | Pompom/Infrastructure/Adapters/UserDefaultsSettingsAdapter.swift:19-27 | load after save returns what was saved |
| Stores.StatisticsStore.Save | Pompom/Domain/Ports/PersistencePort.swift:16-19 | load after save returns what was saved |
| Stores.HistoryStore.Save | Pompom/Domain/Ports/HistoryPersistencePort.swift:1-9 | load after save returns what was saved |
| Stores.TaskStore.Save | Pompom/Domain/Ports/PersistencePort.swift:10-14 | load after save returns what was saved |
| Timer.Initial | Pompom/Application/UseCases/TimerUseCase.swift:42-63 | after init: a fresh Idle work session of the configured length, counter 0, no task, not ticking, no effects, and the invariant holds |
| Timer.TimerUseCase.constructor | Pompom/Application/UseCases/TimerUseCase.swift:42-63 | the constructed state is `Initial` over the stores' values |
| Timer.AfterSetCurrentTask | Pompom/Application/UseCases/TimerUseCase.swift:65-68 | only the credited task id and title change |
| Timer.TimerUseCase.SetCurrentTask | Pompom/Application/UseCases/TimerUseCase.swift:65-68 | reaches `AfterSetCurrentTask` |
| Timer.AfterSettingsChange | Pompom/Application/UseCases/TimerUseCase.swift:86-93 | an Idle session becomes a fresh one of the same kind at the new length; in any other state nothing changes |
| Timer.TimerUseCase.HandleSettingsChange | Pompom/Application/UseCases/TimerUseCase.swift:86-93 | reaches `AfterSettingsChange` |
| Timer.AfterTick | Pompom/Application/UseCases/TimerUseCase.swift:95-106 | no-op unless Running; one second less while more than one is left; otherwise exactly the completion |
| Timer.TimerUseCase.Tick | Pompom/Application/UseCases/TimerUseCase.swift:95-106 | reaches `AfterTick` |
| Timer.AfterStart | Pompom/Application/UseCases/TimerUseCase.swift:108-113 | Running from any state, ticking, stamped now; kind and remaining time kept; nothing else changes |
| Timer.TimerUseCase.StartSession | Pompom/Application/UseCases/TimerUseCase.swift:108-113 | reaches `AfterStart` |
| Timer.TimerUseCase.ResumeSession | Pompom/Application/UseCases/TimerUseCase.swift:122-124 | reaches `AfterStart`, the same as start |
| Timer.AfterPause | Pompom/Application/UseCases/TimerUseCase.swift:115-120 | Paused from any state, Idle included; not ticking; the session is otherwise unchanged |
| Timer.TimerUseCase.PauseSession | Pompom/Application/UseCases/TimerUseCase.swift:115-120 | reaches `AfterPause` |
| Timer.AfterStop | Pompom/Application/UseCases/TimerUseCase.swift:126-132 | a fresh Idle work session at the work length, counter 0, not ticking; statistics, history and effects untouched |
| Timer.TimerUseCase.StopSession | Pompom/Application/UseCases/TimerUseCase.swift:126-132 | reaches `AfterStop` |
| Timer.AfterSkip | Pompom/Application/UseCases/TimerUseCase.swift:134-137 | not ticking, Idle; the next kind and counter are `NextKind` of the counter as it stands, with no increment for the skipped session; a fresh session of that kind at its configured length; statistics, history, effects, settings and task untouched |
| Timer.TimerUseCase.SkipSession | Pompom/Application/UseCases/TimerUseCase.swift:134-137 | reaches `AfterSkip` |
| Timer.SkipEarnsNoLongBreak | Pompom/Application/UseCases/TimerUseCase.swift:134-137 | from work one short of the long-break threshold, a completion earns the long break and clears the counter, a skip gives a short break and keeps the counter |
| Timer.AfterReset | Pompom/Application/UseCases/TimerUseCase.swift:139-146 | a fresh Idle session of the same kind at its configured length; the counter is kept; not ticking |
| Timer.TimerUseCase.ResetSession | Pompom/Application/UseCases/TimerUseCase.swift:139-146 | reaches `AfterReset` |
| Timer.CompletionEffects | Pompom/Application/UseCases/TimerUseCase.swift:175-186 | the work or break chime when sound is on, then the kind's notification when notifications are on |
| Timer.AfterCompletion | Pompom/Application/UseCases/TimerUseCase.swift:148-197 | statistics and history credited with the session's kind and full duration and the credited task; the effects requested; the counter incremented after work and the next kind chosen; the new session at full length; started iff the auto-start setting for the ended kind is on |
| Timer.TimerUseCase.CompleteSession | Pompom/Application/UseCases/TimerUseCase.swift:148-197 | reaches `AfterCompletion` |
| Timer.TimerUseCase.RecordCompletion | Pompom/Application/UseCases/TimerUseCase.swift:149-190 | the bookkeeping part of the completion: tick source off, statistics, history, effects, counter |
| Timer.TimerUseCase.UpdateStatistics | Pompom/Application/UseCases/TimerUseCase.swift:153-159 | the store holds the loaded statistics credited with the session |
| Timer.TimerUseCase.UpdateHistory | Pompom/Application/UseCases/TimerUseCase.swift:161-171 | the store holds the loaded history with the record added |
| Timer.TimerUseCase.AnnounceCompletion | Pompom/Application/UseCases/TimerUseCase.swift:175-186 | the effect log grows by exactly `CompletionEffects` |
| Timer.AfterTransition | Pompom/Application/UseCases/TimerUseCase.swift:199-206 | a fresh Idle session of the next kind at that kind's length, with the counter `NextKind` gives |
| Timer.TimerUseCase.TransitionToNextSession | Pompom/Application/UseCases/TimerUseCase.swift:199-206 | reaches `AfterTransition` |
| Timer.NextKind | Pompom/Application/UseCases/TimerUseCase.swift:208-221 | a break is followed by work; work is followed by a long break iff counter >= threshold, and only then is the counter reset to 0 |
| Timer.ShouldAutoStart | Pompom/Application/UseCases/TimerUseCase.swift:223-231 | after work the next session starts by itself iff breaks auto-start; after a break iff pomodoros auto-start |
| Timer.AutoStartByNextKind | Pompom/Application/UseCases/TimerUseCase.swift:194-196 | after a completion, a following break is Running iff breaks auto-start, and a following work session iff pomodoros auto-start |
| Timer.NotificationContent | Pompom/Application/UseCases/TimerUseCase.swift:233-242 | every title and body is non-empty, and the work-complete title belongs to work alone |
| Timer.TimerUseCase.NextSessionType | Pompom/Application/UseCases/TimerUseCase.swift:208-221 | the kind and the counter side effect are exactly `NextKind` |
| Timer.NotificationTitlesDistinct | Pompom/Application/UseCases/TimerUseCase.swift:233-242 | each kind has its own non-empty notification title |
| Timer.OperationsKeepConsistent | Pompom/Application/UseCases/TimerUseCase.swift:86-206 | every operation keeps the invariant: ticking iff Running, never Completed, remaining <= duration, the session id already drawn |
| Timer.StrayTickIgnored | Pompom/Application/UseCases/TimerUseCase.swift:95-98 | with the tick source off, a tick changes nothing |
| Timer.ActiveAfterOperations | Pompom/Application/UseCases/TimerUseCase.swift:108-146 | a session is active after start or pause, inactive after stop, skip or reset, and the tick source runs only for an active session |
| Timer.TicksCountDown | Pompom/Application/UseCases/TimerUseCase.swift:95-106 | k ticks with more than k seconds left remove exactly k seconds and change nothing else |
| Timer.CompletesOnLastTick | Pompom/Application/UseCases/TimerUseCase.swift:95-106 | a Running session with r seconds left completes on tick max(1, r), and the earlier ticks record nothing |
| Timer.CompletionPhase | Pompom/Application/UseCases/TimerUseCase.swift:188-192 | one completion moves the kind and counter as `NextKind` says, with work counted first |
| Timer.CompletionCycle | Pompom/Application/UseCases/TimerUseCase.swift:188-221 | from work with a cleared counter, completions alternate work and breaks, and the counter is the number of work sessions since the last long break, mod n |
| Timer.WrapIsMod | Pompom/Application/UseCases/TimerUseCase.swift:208-221 | the counter before work session j is j mod n |
| Timer.LongBreakEveryNthWork | Pompom/Application/UseCases/TimerUseCase.swift:188-221 | the break after work session j (from 0) is long iff j mod n = n - 1: with n = 4 the 4th, 8th, ... work sessions earn a long break |
| TaskCoordinator.IndexOfId | Pompom/Application/UseCases/TaskUseCase.swift:71 | the first index with the id, or none when no task has it |
| TaskCoordinator.ReplaceById | Pompom/Application/UseCases/TaskUseCase.swift:69-73 | the length is kept; only the first match is replaced; with no match the list is unchanged |
| TaskCoordinator.WithoutIdMembers | Pompom/Application/UseCases/TaskUseCase.swift:80-83 | exactly the tasks with other ids survive; with no match the list is unchanged |
| TaskCoordinator.WithoutIdAppend | Pompom/Application/UseCases/TaskUseCase.swift:80-83 | removal keeps the survivors in order |
| TaskCoordinator.Pending | Pompom/Presentation/ViewModels/TaskViewModel.swift:15-17 | no longer than the list, and every task in it is not completed |
| TaskCoordinator.Completed | Pompom/Presentation/ViewModels/TaskViewModel.swift:19-21 | no longer than the list, and every task in it is completed |
| TaskCoordinator.PartitionMembers | Pompom/Presentation/ViewModels/TaskViewModel.swift:15-21 | the pending part holds exactly the uncompleted tasks and the completed part the others |
| TaskCoordinator.PartitionByCompletion | Pompom/Presentation/ViewModels/TaskViewModel.swift:15-21 | the two parts together are a permutation of the list |
| TaskCoordinator.PendingAppend | Pompom/Presentation/ViewModels/TaskViewModel.swift:15-17 | the pending filter keeps list order |
| TaskCoordinator.CompletedAppend | Pompom/Presentation/ViewModels/TaskViewModel.swift:19-21 | the completed filter keeps list order |
| TaskCoordinator.Move | Pompom/Application/UseCases/TaskUseCase.swift:104-108 | the length is kept; `MoveShape` says where the moved elements land and `MovePermutes` that nothing is lost |
| TaskCoordinator.MovePermutes | Pompom/Application/UseCases/TaskUseCase.swift:104-108 | reordering is a permutation of the list |
| TaskCoordinator.MoveShape | Pompom/Application/UseCases/TaskUseCase.swift:104-108 | the moved elements form one block in their original order, and the unmoved ones keep their order around it |
| TaskCoordinator.MoveOneDown | Pompom/Application/UseCases/TaskUseCase.swift:104-108 | moving the first of two elements to offset 2 swaps them |
| TaskCoordinator.SelectionAfterUpdate | Pompom/Application/UseCases/TaskUseCase.swift:75-77 | the selection is refreshed iff it has the task's id |
| TaskCoordinator.SelectionAfterDelete | Pompom/Application/UseCases/TaskUseCase.swift:85-87 | the selection is cleared iff it has the deleted id, otherwise kept |
| TaskCoordinator.SelectionAfterClear | Pompom/Application/UseCases/TaskUseCase.swift:112-119 | the selection is cleared iff its id is that of a completed task, otherwise kept |
| TaskCoordinator.IdBound | Pompom/Application/UseCases/TaskUseCase.swift:34-42 | every loaded id lies below the first identifier drawn, so new tasks never share an id |
| TaskCoordinator.TaskUseCase.constructor | Pompom/Application/UseCases/TaskUseCase.swift:34-42 | the list is what the store loads, nothing is selected, and the invariant holds |
| TaskCoordinator.TaskUseCase.Publish | Pompom/Application/UseCases/TaskUseCase.swift:44-51 | every published list is saved |
| TaskCoordinator.TaskUseCase.AddTask | Pompom/Application/UseCases/TaskUseCase.swift:53-61 | a blank title changes nothing; otherwise exactly one new task (trimmed title, estimate max(1, n), Medium, not completed, fresh id) is appended; the selection is kept |
| TaskCoordinator.TaskUseCase.AddTaskDirectly | Pompom/Application/UseCases/TaskUseCase.swift:63-67 | the given task is appended unchanged |
| TaskCoordinator.TaskUseCase.UpdateTask | Pompom/Application/UseCases/TaskUseCase.swift:69-78 | with no match nothing changes; otherwise `ReplaceById` and `SelectionAfterUpdate` |
| TaskCoordinator.TaskUseCase.DeleteTask | Pompom/Application/UseCases/TaskUseCase.swift:80-88 | `WithoutId` and `SelectionAfterDelete` |
| TaskCoordinator.TaskUseCase.ToggleTaskCompletion | Pompom/Application/UseCases/TaskUseCase.swift:90-93 | the update of the argument with its own flag flipped |
| TaskCoordinator.TaskUseCase.IncrementTaskPomodoro | Pompom/Application/UseCases/TaskUseCase.swift:95-98 | the update of the argument with one more pomodoro |
| TaskCoordinator.TaskUseCase.SelectTask | Pompom/Application/UseCases/TaskUseCase.swift:100-102 | any task, or none, is selected as given, without consulting the list |
| TaskCoordinator.TaskUseCase.ReorderTasks | Pompom/Application/UseCases/TaskUseCase.swift:104-108 | the list becomes `Move` of the old one; the selection is kept |
| TaskCoordinator.TaskUseCase.ClearCompletedTasks | Pompom/Application/UseCases/TaskUseCase.swift:110-120 | the list becomes the pending tasks in order; `SelectionAfterClear` |
| SettingsCoordinator.SettingsUseCase.constructor | Pompom/Application/UseCases/SettingsUseCase.swift:29-40 | the published statistics are what the store loads |
| SettingsCoordinator.SettingsUseCase.UpdateSettings | Pompom/Application/UseCases/SettingsUseCase.swift:42-44 | the store then loads exactly the given settings |
| SettingsCoordinator.SettingsUseCase.ResetSettings | Pompom/Application/UseCases/SettingsUseCase.swift:46-48 | the store then loads the defaults |
| SettingsCoordinator.SettingsUseCase.ResetStatistics | Pompom/Application/UseCases/SettingsUseCase.swift:50-53 | from any state, a stale subject included: the store and the published value are both the empty statistics, with zero streaks, and agree again |
| QuickAdd.Parse | Pompom/Presentation/Views/Components/QuickAddTask.swift:202-271 | the step-by-step parse equals `Parsed` |
| QuickAdd.Parsed | Pompom/Presentation/Views/Components/QuickAddTask.swift:202-271 | the count is always in [1, 20] and the title is single-spaced, with no leading or trailing space |
| QuickAdd.TakeNotes | Pompom/Presentation/Views/Components/QuickAddTask.swift:208-215 | the notes stage equals `WithNotes` |
| QuickAdd.WithNotes | Pompom/Presentation/Views/Components/QuickAddTask.swift:208-215 | only title and notes change, and without either marker nothing changes |
| QuickAdd.TakePriority | Pompom/Presentation/Views/Components/QuickAddTask.swift:217-236 | the priority loop equals `WithPriority` |
| QuickAdd.TakePomodoros | Pompom/Presentation/Views/Components/QuickAddTask.swift:238-258 | the pomodoro loop equals `WithPomodoros` |
| QuickAdd.WithPriority | Pompom/Presentation/Views/Components/QuickAddTask.swift:217-236 | the priority stage leaves the count and the notes alone |
| QuickAdd.FirstMatch | Pompom/Presentation/Views/Components/QuickAddTask.swift:247-249 | the leftmost match of a pattern, or none iff it matches nowhere |
| QuickAdd.WithPomodoros | Pompom/Presentation/Views/Components/QuickAddTask.swift:238-258 | priority and notes are kept, and a count in [1, 20] stays in [1, 20] |
| QuickAdd.Refined | Pompom/Presentation/Views/Components/QuickAddTask.swift:217-263 | after the priority, count and cleanup stages the count is in [1, 20], the title is single-spaced and the notes are kept |
| Strings.CollapseKeepsWords | Pompom/Presentation/Views/Components/QuickAddTask.swift:260-263 | the clean-up keeps the title's words, in order: splitting the cleaned title at blanks gives the same non-empty words as splitting the original |
| QuickAdd.BlankInput | Pompom/Presentation/Views/Components/QuickAddTask.swift:202-271 | blank input parses to an empty title, 1 pomodoro, Medium and no notes |
| QuickAdd.NotesAfterNote | Pompom/Presentation/Views/Components/QuickAddTask.swift:209-211 | the text after the leftmost "note:" becomes the trimmed notes; only the text before it is parsed further |
| QuickAdd.NotesAfterNotes | Pompom/Presentation/Views/Components/QuickAddTask.swift:212-214 | without "note:", the leftmost "notes:" splits the input the same way |
| QuickAdd.NoNotes | Pompom/Presentation/Views/Components/QuickAddTask.swift:206-215 | with neither marker the notes are empty and the whole input is parsed |
| QuickAdd.NotesIgnored | Pompom/Presentation/Views/Components/QuickAddTask.swift:217-263 | the notes never influence the title, count or priority |
| QuickAdd.FirstPriorityPattern | Pompom/Presentation/Views/Components/QuickAddTask.swift:230-236 | the first pattern in list order that occurs sets the priority, and only its leftmost occurrence is cut |
| QuickAdd.NoPriorityPattern | Pompom/Presentation/Views/Components/QuickAddTask.swift:217-236 | with no pattern present, priority and title stay |
| QuickAdd.HighWordsWin | Pompom/Presentation/Views/Components/QuickAddTask.swift:218-222 | a title containing "high", "!!" or "urgent" is High, whatever else it contains |
| QuickAdd.FirstPomodoroPattern | Pompom/Presentation/Views/Components/QuickAddTask.swift:246-258 | the first matching pattern is used: its leftmost match is cut either way, and its number is taken only when it is 1..20 |
| QuickAdd.NoPomodoroPattern | Pompom/Presentation/Views/Components/QuickAddTask.swift:238-258 | with no pattern matching, count and title stay |
| QuickAdd.TaskToAdd | Pompom/Presentation/Views/Components/QuickAddTask.swift:105-116 | a task is added iff there is a parse with a non-empty title, and it carries that title, notes, priority and count |
| QuickAdd.AddedEstimate | Pompom/Presentation/Views/Components/QuickAddTask.swift:105-116 | the added task's estimate is exactly the parsed count |
| Validation.ValidationResult.ErrorMessage | Pompom/Presentation/Extensions/ValidationExtensions.swift:63-80 | nil iff valid; otherwise the message |
| Validation.ValidateTaskTitle | Pompom/Presentation/Extensions/ValidationExtensions.swift:5-17 | valid iff the trimmed title is non-empty and at most 200 long, with the two messages |
| Validation.ValidateTaskNotes | Pompom/Presentation/Extensions/ValidationExtensions.swift:19-24 | valid iff at most 1000 long |
| Validation.ValidatePomodoros | Pompom/Presentation/Extensions/ValidationExtensions.swift:26-36 | valid iff in [1, 20], with the low and high messages |
| Validation.ValidateDuration | Pompom/Presentation/Extensions/ValidationExtensions.swift:38-48 | valid iff in [1, 120], with the low and high messages |
| Validation.ValidateDailyGoal | Pompom/Presentation/Extensions/ValidationExtensions.swift:50-60 | valid iff in [1, 30], with the low and high messages |
| Validation.IsValidTaskTitle | Pompom/Presentation/Extensions/ValidationExtensions.swift:83-85 | holds iff the trimmed title is non-empty and at most 200 long |
| Validation.TrimmedOrNil | Pompom/Presentation/Extensions/ValidationExtensions.swift:87-90 | nil iff blank; otherwise the non-empty slice of the text left when its leading and trailing whitespace is removed, with no whitespace at either end |
| Strings.Trim | Pompom/Presentation/Extensions/ValidationExtensions.swift:88 | the result is the slice of the text between its leading and its trailing whitespace, starts and ends with a non-whitespace character, is empty iff the text is blank, and is the text itself when nothing surrounds it |
| Validation.TrimmedOrNilIdempotent | Pompom/Presentation/Extensions/ValidationExtensions.swift:87-90 | applying it to its own result changes nothing |
| Validation.TruncatedAsWritten | Pompom/Presentation/Extensions/ValidationExtensions.swift:92-97 | the identity up to the length; otherwise the prefix followed by the three characters of the default as written |
| Validation.TruncatedAsWrittenTooLong | Pompom/Presentation/Extensions/ValidationExtensions.swift:92 | "abcdef" cut to 3 is six characters long, two more than a one-character ellipsis gives |
| Validation.Truncated | Pompom/Presentation/Extensions/ValidationExtensions.swift:92-97 | the identity up to the length; otherwise the prefix followed by "…", at most length + 1 long |
| Validation.TruncatedIdempotent | Pompom/Presentation/Extensions/ValidationExtensions.swift:92-97 | truncating a truncated text to the same length changes nothing, for every text and length |
| Validation.Clamped | Pompom/Presentation/Extensions/ValidationExtensions.swift:100-104 | the result lies in the range, is the value itself inside it, and the nearer bound outside |
| Validation.ClampedReal | Pompom/Presentation/Extensions/ValidationExtensions.swift:106-110 | the same for reals |
| Validation.ClampedIdempotent | Pompom/Presentation/Extensions/ValidationExtensions.swift:100-104 | clamping twice is clamping once |
| Validation.FormattedTimerReadsBack | Pompom/Presentation/Extensions/ValidationExtensions.swift:113-118 | under 100 minutes the text is MM:SS with seconds < 60, and it reads back as the whole seconds |
| Validation.DurationTextReadsBack | Pompom/Presentation/Extensions/ValidationExtensions.swift:121-131 | "N min" under an hour; otherwise "H hr" or "H hr M min" with 0 < M < 60, reading back as the minutes |
| Validation.FormattedDurationMinutes | Pompom/Presentation/Extensions/ValidationExtensions.swift:120-121 | the text is that of the whole minutes n, with 60n <= t < 60(n + 1) |
| TaskPresentation.HasCompletedTasks | Pompom/Presentation/ViewModels/TaskViewModel.swift:23-25 | holds iff some task is completed |
| TaskPresentation.TotalEstimatedPomodoros | Pompom/Presentation/ViewModels/TaskViewModel.swift:27-29 | the estimates of all tasks minus those of the completed ones |
| TaskPresentation.TotalCompletedPomodoros | Pompom/Presentation/ViewModels/TaskViewModel.swift:31-33 | the completed counts of the pending and of the completed tasks together |
| TaskPresentation.EstimatesAtLeastCount | Pompom/Presentation/ViewModels/TaskViewModel.swift:27-29 | with every estimate at least 1, the sum is at least the number of tasks |
| TaskPresentation.AddedTaskTotals | Pompom/Presentation/ViewModels/TaskViewModel.swift:27-62 | an added task raises the estimate total by max(1, n) and leaves the completed total and `hasCompletedTasks` alone |
| TaskPresentation.ClearedTotals | Pompom/Presentation/ViewModels/TaskViewModel.swift:23-29 | after clearing, nothing is completed and the estimate total is unchanged |
| TaskPresentation.TaskViewModel.constructor | Pompom/Presentation/ViewModels/TaskViewModel.swift:6-38 | an empty list, no selection and a blank form with one pomodoro |
| TaskPresentation.TaskViewModel.ReceiveTasks | Pompom/Presentation/ViewModels/TaskViewModel.swift:41-46 | the mirrored list is the one published |
| TaskPresentation.TaskViewModel.ReceiveSelection | Pompom/Presentation/ViewModels/TaskViewModel.swift:48-53 | the mirrored selection is the one published |
| TaskPresentation.TaskViewModel.AddTask | Pompom/Presentation/ViewModels/TaskViewModel.swift:56-62 | with a blank title nothing changes, the form included; otherwise one task is appended and the form is reset and closed |
| TaskPresentation.TaskViewModel.CancelAddTask | Pompom/Presentation/ViewModels/TaskViewModel.swift:88-92 | the form is reset and closed without touching the list |
| TaskPresentation.TaskViewModel.AddTaskDirectly | Pompom/Presentation/ViewModels/TaskViewModel.swift:94-96 | forwards: the task is appended unchanged |
| TaskPresentation.TaskViewModel.UpdateTask | Pompom/Presentation/ViewModels/TaskViewModel.swift:98-100 | forwards to the use case's update |
| TaskPresentation.TaskViewModel.DeleteTask | Pompom/Presentation/ViewModels/TaskViewModel.swift:64-66 | forwards to the use case's delete |
| TaskPresentation.TaskViewModel.ToggleCompletion | Pompom/Presentation/ViewModels/TaskViewModel.swift:68-70 | forwards to the use case's toggle |
| TaskPresentation.TaskViewModel.IncrementPomodoro | Pompom/Presentation/ViewModels/TaskViewModel.swift:72-74 | forwards to the use case's increment |
| TaskPresentation.TaskViewModel.SelectTask | Pompom/Presentation/ViewModels/TaskViewModel.swift:76-78 | forwards to the use case's selection |
| TaskPresentation.TaskViewModel.ReorderTasks | Pompom/Presentation/ViewModels/TaskViewModel.swift:80-82 | forwards to the use case's reorder |
| TaskPresentation.TaskViewModel.ClearCompletedTasks | Pompom/Presentation/ViewModels/TaskViewModel.swift:84-86 | forwards to the use case's clear |
| TimerPresentation.DisplayTimeReadsBack | Pompom/Presentation/ViewModels/TimerViewModel.swift:13-17 | under 100 minutes the clock is MM:SS and reads back as the remaining seconds |
| TimerPresentation.InitialDisplay | Pompom/Presentation/ViewModels/TimerViewModel.swift:13-17 | the initial default work session shows 25:00 |
| TimerPresentation.IsRunning | Pompom/Presentation/ViewModels/TimerViewModel.swift:31-33 | a running session is active, neither paused nor idle |
| TimerPresentation.IsPaused | Pompom/Presentation/ViewModels/TimerViewModel.swift:35-37 | a paused session is active and not idle |
| TimerPresentation.IsIdle | Pompom/Presentation/ViewModels/TimerViewModel.swift:39-41 | an idle session is inactive |
| TimerPresentation.CanStart | Pompom/Presentation/ViewModels/TimerViewModel.swift:43-45 | holds iff the session is idle or paused |
| TimerPresentation.CanPause | Pompom/Presentation/ViewModels/TimerViewModel.swift:47-49 | holds iff the session is running |
| TimerPresentation.ControlsFollowState | Pompom/Presentation/ViewModels/TimerViewModel.swift:31-49 | at most one of running, paused and idle; start and pause are never both offered; canStart iff idle or paused; only pause after a start and only start after a pause; idle after stop, skip and reset |
| TimerPresentation.Toggled | Pompom/Presentation/ViewModels/TimerViewModel.swift:109-115 | pause when the shown session is running, start otherwise; the kind, time left, statistics and history are kept |
| TimerPresentation.ToggleFlips | Pompom/Presentation/ViewModels/TimerViewModel.swift:109-115 | while the copy is in step, each toggle flips running, and two toggles restore it with the time left unchanged |
| TimerPresentation.TimerViewModel.constructor | Pompom/Presentation/ViewModels/TimerViewModel.swift:59-65 | the default settings and an Idle work session of 1500 s |
| TimerPresentation.TimerViewModel.ReceiveSession | Pompom/Presentation/ViewModels/TimerViewModel.swift:70-75 | the mirrored session is the one published |
| TimerPresentation.TimerViewModel.ReceiveSettings | Pompom/Presentation/ViewModels/TimerViewModel.swift:77-82 | the mirrored settings are the ones published |
| TimerPresentation.TimerViewModel.StartTimer | Pompom/Presentation/ViewModels/TimerViewModel.swift:85-87 | forwards: the engine reaches `AfterStart` |
| TimerPresentation.TimerViewModel.PauseTimer | Pompom/Presentation/ViewModels/TimerViewModel.swift:89-91 | forwards: the engine reaches `AfterPause` |
| TimerPresentation.TimerViewModel.ResumeTimer | Pompom/Presentation/ViewModels/TimerViewModel.swift:93-95 | forwards: the engine reaches `AfterStart` |
| TimerPresentation.TimerViewModel.StopTimer | Pompom/Presentation/ViewModels/TimerViewModel.swift:97-99 | forwards: the engine reaches `AfterStop` |
| TimerPresentation.TimerViewModel.SkipSession | Pompom/Presentation/ViewModels/TimerViewModel.swift:101-103 | forwards: the engine reaches `AfterSkip` |
| TimerPresentation.TimerViewModel.ResetSession | Pompom/Presentation/ViewModels/TimerViewModel.swift:105-107 | forwards: the engine reaches `AfterReset` |
| TimerPresentation.TimerViewModel.ToggleTimer | Pompom/Presentation/ViewModels/TimerViewModel.swift:109-115 | the engine reaches `Toggled`, decided on the view model's own copy of the session |
| BreakSuggestions.Suggest | Pompom/Presentation/Views/Components/SmartBreakSuggestion.swift:98-147 | shown iff sessions >= 4 or minutes >= 60; actions iff sessions >= 4 or minutes >= 120; the long-break card wins at 4 sessions whatever the minutes, with the count in its message; then the stretch card, with the whole hours in its message; then the eye-rest card, with its 20-20-20 message and without actions; hidden otherwise |
| BreakSuggestions.ActionsOnlyWhenShown | Pompom/Presentation/Views/Components/SmartBreakSuggestion.swift:98-147 | actions are offered only on a shown card |
| BreakSuggestions.SuggestMonotone | Pompom/Presentation/Views/Components/SmartBreakSuggestion.swift:98-147 | more sessions or minutes never hide a card or take its actions away |
| BreakSuggestions.StretchHours | Pompom/Presentation/Views/Components/SmartBreakSuggestion.swift:113-117 | the stretch message counts whole hours: 2 for 120..179 minutes |
| DataExport.StatusText | Pompom/Infrastructure/Services/DataExportService.swift:92 | "Completed" iff the task is completed, else "Pending" |
| DataExport.RowText | Pompom/Infrastructure/Services/DataExportService.swift:93-96 | the joined row is the source's interpolation, column by column |
| DataExport.Csv | Pompom/Infrastructure/Services/DataExportService.swift:89 | the text always starts with the header line and a newline |
| DataExport.ExportCsv | Pompom/Infrastructure/Services/DataExportService.swift:88-104 | the text built by the loop and the appends equals `Csv` |
| DataExport.AppendStatistics | Pompom/Infrastructure/Services/DataExportService.swift:99-104 | appends exactly the statistics block |
| DataExport.RowColumns | Pompom/Infrastructure/Services/DataExportService.swift:93-96 | with a comma-free date, every row has exactly 7 commas and splits back into its 8 columns, the status column saying "Completed" iff the task is completed |
| DataExport.CsvLinesShape | Pompom/Infrastructure/Services/DataExportService.swift:89-104 | the lines are the header, one row per task in list order, then the 7 statistics lines |
| DataExport.ExportLines | Pompom/Infrastructure/Services/DataExportService.swift:89-104 | with newline-free titles and dates, the text splits at newlines into the header, the rows in order and the statistics block |
| DataExport.StatisticsColumns | Pompom/Infrastructure/Services/DataExportService.swift:99-104 | an empty line, "Statistics", then sessions, work minutes, break minutes, current and longest streak, each as name,value |
| DataExport.NameValue | Pompom/Infrastructure/Services/DataExportService.swift:100-104 | a statistics line splits into its name and the value's text, which reads back as the value |

## Left out

- Sound, notifications and haptics: `completeSession` requests are recorded in the engine's effect log (`Timer.Effect`). Delivery is not modelled.
- The Combine plumbing: `receive(on:)`, `@MainActor` and `dropFirst`.
  - Subscriptions are explicit calls: `ReceiveSession`, `ReceiveSettings`, `ReceiveTasks`, `ReceiveSelection`, `HandleSettingsChange`, and `Publish`, which saves.
  - The settings store does not notify the engine by itself. A caller of `UpdateSettings` follows it with `HandleSettingsChange`.
- The tick source is the flag `ticking`. A delivered tick is a call of `Tick`, and the one-second schedule is not modelled.
- `Date()`, `Calendar` and `UUID()`:
  - the clock is a parameter;
  - the calendar is a fixed UTC offset with 86400-second days, so time-zone changes, daylight-saving days of 23 or 25 hours and leap seconds are not modelled; `thisWeekStats` counts days as consecutive integers;
  - identifiers come from counters. A reloaded task list starts its counter above the largest stored id.
- The persistence adapters' JSON encoding, UserDefaults and the failure of encoding or decoding: a store returns the last value saved.
- The JSON export and import, and the save panel of the CSV export. Only the CSV text is modelled.
- `requestNotificationPermission`: an asynchronous foreign call.
- User-interface values: icons, colours and session titles used only in views. `BreakSuggestion`'s card colours are kept.
- Floating-point times: durations and remaining times are whole seconds.
  - `Int(duration / 60)` truncation is written out.
  - Progress values are exact reals, not `Double`.
- `Int` overflow is not modelled. Integers are unbounded. A digit run too long for `Int` gives no number in the source and a number over 20 here; both leave the count unchanged.
- `Validation.ValidateTaskTitle`, `Validation.ValidateTaskNotes` and `Validation.Truncated` count Unicode scalars, not grapheme clusters as Swift's `count` does.
- `QuickAdd.Parsed` approximates ICU's case-insensitive matching by ASCII lower-casing, and `\d` by the ASCII digits. The keywords are ASCII, so only non-ASCII case pairs and non-ASCII digits differ.
- `TaskCoordinator.TaskUseCase.ReorderTasks` and `TaskPresentation.TaskViewModel.ReorderTasks` require every source offset below the list's length and the destination at most that length: Swift's `Array.move(fromOffsets:toOffset:)` traps outside those bounds, and the model does not describe a trap.
- The statistics that `SettingsUseCase` publishes are loaded once, at init, and replaced only by a reset. The timer saves every completion to the same statistics store without touching them, so they can be stale. The model keeps this: `SettingsCoordinator.SettingsUseCase.Valid` (published value equals stored value) holds after construction and after a reset, and is not an invariant.
- `Strings.Trim` uses a fixed set of whitespace and newline characters, not the full Unicode properties.
- `DataExport.ExportLines` needs newline-free titles and dates. The source does not escape newlines in titles, so a title holding one breaks its row over two lines.
- The date text of the export is a function parameter, because the date formatter is not part of this model.
- `Date` helpers `isToday`, `isYesterday`, `startOfDay` and `relativeFormatted`: calendar and locale formatting.
- The dependency wiring. `DependencyContainer.swift` calls the `TimerUseCase` initialiser without its `historyPersistence:` argument, which has no default value, so the wiring as written does not compile. The model builds the engine with a history store, as the initialiser demands.
- `Timer.TimerUseCase.FreshId` and `TaskCoordinator.TaskUseCase.AddTask` draw identifiers in order. That only promises distinctness, as `UUID()` does.

## Findings

| source | as written | input that shows it | evidently intended | confidence | as-written member | corrected member |
|---|---|---|---|---|---|---|
| Pompom/Presentation/Extensions/ValidationExtensions.swift:92 | the default trailing text of `truncated(to:)` is "â€¦", the UTF-8 bytes of "…" read as Windows-1252: three characters | `"abcdef".truncated(to: 3)` gives "abcâ€¦", six characters | a single HORIZONTAL ELLIPSIS, U+2026, so that a cut text is length + 1 long | not executed | Validation.TruncatedAsWritten, Validation.TruncatedAsWrittenTooLong | Validation.Truncated |
