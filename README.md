# ProcessManager scheduling and supervision core in Dafny

This project models the engine of ProcessManager, a small Python process
manager with two kinds of job:

- **Tasks** run on a timetable. A task has a start time, an optional stop
  time, allowed weekdays and an optional frequency. After each run it is
  rescheduled, and the tasks it names in `run_on_complete` are dispatched.
- **Programs** are long-running processes under supervision. A monitor
  loop restarts a program while retries remain. It stops the program
  outside its time window and keeps a JSON status document per job.

A scheduler loads the schedule document and sorts the tasks that have a
start time. It builds a name-to-task map, arms every task in order and
starts the programs due at startup. Around this sit several helpers:

- schedule lookup and the schedule-hash check;
- the IB trading-window predicate;
- a `ps`-line matcher that kills at most one process;
- a log file handler that keeps only the newest bytes.

The repository holds three drafts of the task and scheduler code and
three of the program supervisor. Each draft is modelled where it behaves
differently:

- `TaskDraft`:
  - `Current` is `processmanager/core/Task.py`;
  - `Older` is `processmanager/core/task.py`;
  - `Oldest` is `src/task.py`.
- The scheduler drafts map to the same constructors:
  - `processmanager/core/Scheduler.py`;
  - `processmanager/core/scheduler.py`;
  - `src/scheduler.py`.
- `ProgramDraft`:
  - `Current` is `processmanager/core/BaseProgram.py`;
  - `Standalone` is `processmanager/core/program_base.py`;
  - `Oldest` is `src/program_base.py`.
- `src/program.py` is the poll-based first supervisor, `LegacyProgram`.

Time is an integer count of microseconds from a Monday midnight. The day
is `t / 86_400_000_000` and the weekday is the day modulo 7. The ceiling
division of the frequency rule is exact integer arithmetic. The outcomes
Python has but a pure function does not are explicit values:

- an exception is `Raises`, `None`, `LoadRaised` or a `Crashed` loop;
- a `while True` day search that never returns is `Hangs`;
- a timer that is never armed is `Idle`.

Modules:

- `Clock` and `PyStr`: instants, and the string primitives Python provides
  (`lower`, `split`, `strip`, `int`).
- `TaskCalendar`: time strings, weekday names, day windows and task
  frequencies.
- `TaskSchedule` and `TaskScheduleProps`:
  - the next-allowed-date search;
  - `schedule()` and the reschedule step after a run.
- `TaskRun` and `TaskRunProps`: the run of a task, with its status update
  and dependent dispatch.
- `Job` and `StatusStore`:
  - the two-word frequency parser and the `HH:MM` / `hh:MM AM` parser;
  - `within_schedule`;
  - the status document.
- `Supervisor` and `SupervisorProps`:
  - `record_start`, `record_stop` and `disable_restart`;
  - one pass of the monitor loop, as a class with an event trace.
- `LegacyProgram`: the first supervisor's `start` and poll loop.
- `Utils`:
  - `get_job_sched` and `load_schedules` with its hash file and hash path;
  - `check_ib_valid_time` and `list_and_kill_process`.
- `TaskQueue`: the stable insertion sort behind `sorted(...)`.
- `Orchestrator` and `OrchestratorProps`:
  - the `Scheduler` class with `initialize`, `schedule_tasks` and startup;
  - the oldest draft's loaders.
- `LogSetup`: the truncating file handler and the two logger-setup
  functions, over a `Disk` of byte files.

## Model

| member | source | states |
|---|---|---|
| TaskCalendar.TargetTime | processmanager/core/Task.py:43-61 | `get_target_datetime`: defined exactly when the time string reads. The result lies on the given day, at that time of day with zero seconds. |
| TaskCalendar.ClockTime | processmanager/core/Task.py:47-61 | The time of day, when defined, is a minute within the day (0 .. 24·60-1). |
| TaskCalendar.ClockTimeOf12 | processmanager/core/Task.py:47-60 | The meridiem rule on zero-padded lower-case "HH:MM am" / "HH:MM pm" text, for every 12-hour hour and minute: "12 am" is hour 0, "12 pm" is 12, and pm adds 12 to other hours. Other spellings go through `ClockTimeOfTokens` and `ClockOfTwoTokens`. |
| TaskCalendar.WordsTokens | processmanager/core/Task.py:47 | Lower-casing, removing "pst" and splitting a clock token plus meridiem gives exactly those two words. |
| TaskCalendar.HourMinuteOf | processmanager/core/Task.py:48-55 | An "H:MM" token reads as that hour and minute. |
| TaskCalendar.NoMeridiemRaises | processmanager/core/Task.py:56 | A time string without a meridiem word is outside the domain: `parts[1]` raises. |
| TaskCalendar.ClockTimeOfTokens | processmanager/core/Task.py:47 | The time depends only on the words `split()` produces. |
| TaskCalendar.ClockOfTwoTokens | processmanager/core/Task.py:56-61 | A clock token and a meridiem word give the converted hour times 60 plus the minute. |
| TaskCalendar.SuffixFrequencyOf | processmanager/core/Task.py:63-76 | "<n>m", "<n>s" and "<n>h" give n·60, n and n·3600 seconds. Any other suffix gives None. |
| TaskCalendar.DayOfName | processmanager/core/Task.py:83-85 | A recognised day name, in any case, maps into 0..6. |
| TaskCalendar.DayNumbersMembers | processmanager/core/Task.py:85 | A weekday is in the list iff some configured name maps to it. Unknown names are dropped. |
| TaskCalendar.AllowedDaysMembers | processmanager/core/Task.py:78-86 | A missing or empty list allows exactly 0..6. Otherwise a weekday is allowed iff a configured name maps to it. Only 0..6 can be allowed. |
| TaskCalendar.DayWindow | processmanager/core/Task.py:88-97 | `get_day_window`: the start and stop lie on the given day. It is defined iff both time strings read. Without a stop time, the stop is 23:59:59 of that day. |
| TaskCalendar.PlanOf | processmanager/core/Task.py:88-97 | A task's readable strings give a plan whose times of day lie within a day. |
| TaskCalendar.DayWindowOfPlan | processmanager/core/Task.py:88-97 | `get_day_window(day)` is the plan's window on every day. It raises on every day when it raises on one. |
| TaskCalendar.PlanReadsAs | processmanager/core/Task.py:78-97 | The plan carries the task's allowed days, its windows on every day and its frequency. |
| TaskCalendar.WindowOnDay | processmanager/core/Task.py:92-96 | A plan's window on a day starts and stops on that day. |
| TaskSchedule.Search | processmanager/core/Task.py:99-108 | The day search from `days_ahead = k` finds the first allowed date in k..7 days ahead. When it finds none, none of those days is allowed. |
| TaskSchedule.NextAllowedDay | processmanager/core/Task.py:99-108 | `get_next_allowed_date`: a result exists iff some weekday is allowed. The result is strictly after the input date, at most a week ahead, allowed, and no allowed date is skipped. |
| TaskSchedule.SearchWholeWeek | processmanager/core/Task.py:104-108 | The search fails iff the allowed list holds no weekday, which is when the Python loop never returns. |
| TaskSchedule.WeekCovers | processmanager/core/Task.py:104-108 | Every weekday is reached within 1..7 days. |
| TaskSchedule.GetNextAllowedDate | processmanager/core/Task.py:99-108 | The `while True` loop over `days_ahead` returns the next allowed date. |
| TaskSchedule.Schedule | processmanager/core/Task.py:110-148 | `schedule()` as a method with local reassignments. The timer it arms is the one the scheduling specification gives, in each draft. |
| TaskSchedule.ChooseRun | processmanager/core/Task.py:124-140 | The frequency, before-window and otherwise branches, once the candidate day is fixed. |
| TaskSchedule.RollOver | processmanager/core/Task.py:131-133 | Rolling over gives the next allowed date's start. |
| TaskSchedule.RollOverOfPlan | processmanager/core/Task.py:131-133 | Rolling over, read through the task's strings, is the plan's next-day start. |
| TaskSchedule.Reschedule | processmanager/core/Task.py:210-238 | `_schedule_next_run` as a method. Its timer is the rescheduling specification's, in each draft. |
| TaskSchedule.Rearm | processmanager/core/task.py:157-170 | The rescheduling branches once today's window is known. |
| TaskScheduleProps.NextDayStartIsLater | processmanager/core/Task.py:131-133 | The next-day start never raises. It hangs iff no weekday is allowed, and otherwise lies on a later allowed day. |
| TaskScheduleProps.ScheduleOutcomes | processmanager/core/Task.py:115-140 | `schedule()` on a readable task never raises and hangs iff no weekday is allowed. Only the oldest draft can leave the timer unarmed. |
| TaskScheduleProps.ScheduleFailures | processmanager/core/Task.py:115-140 | `schedule()` raises iff a time string is unreadable. Otherwise it hangs iff no weekday is allowed. |
| TaskScheduleProps.ScheduleInWindow | processmanager/core/Task.py:126-133 | For f>0 on an allowed day with start ≤ now < stop, next_run is start + ceil((now-start)/f)·f. That satisfies now ≤ next_run < now+f. When it passes the stop (strictly), next_run is the next allowed date's start. |
| TaskScheduleProps.InWindowNotBefore | processmanager/core/Task.py:127-129 | The ceiling multiple is at least now. It equals now iff now-start is an exact multiple of f. |
| TaskScheduleProps.ScheduleNotBeforeNow | processmanager/core/Task.py:115-140 | With a non-negative frequency, an armed timer is at or after now, on an allowed weekday. It equals now only on an exact multiple of the frequency. |
| TaskScheduleProps.ArmForWindowNotBefore | processmanager/core/Task.py:126-140 | The per-window choice never arms before now on a day not before today. |
| TaskScheduleProps.NextDayStartAfter | processmanager/core/Task.py:131-133 | A rollover from today or later lands strictly after now. |
| TaskScheduleProps.InWindowDay | processmanager/core/Task.py:126 | An instant inside a day's window lies on that day. |
| TaskScheduleProps.NegativeFrequencyArmsInPast | processmanager/core/Task.py:126-129 | A negative frequency such as "-5m" arms a timer at or before now inside the window. |
| TaskScheduleProps.NegativeMultiple | processmanager/core/Task.py:127-129 | With f<0 the ceiling multiple is at most now. |
| TaskScheduleProps.ScheduleDrafts | processmanager/core/task.py:98-133 | The current and older drafts' `schedule()` compute the same timer. The oldest computes that timer too, or arms none. |
| TaskScheduleProps.RescheduleAfterNow | processmanager/core/Task.py:210-230 | With no frequency or a positive one, the rescheduled timer is strictly after now. |
| TaskScheduleProps.RescheduleWithoutFrequency | processmanager/core/Task.py:226-230 | Without a frequency, the timer is today's start when now < start, else the next allowed date's start; today's weekday is not checked. The oldest draft never reschedules (src/task.py:166-211). |
| TaskScheduleProps.RescheduleWithFrequency | processmanager/core/Task.py:219-225 | With a non-zero frequency f, every draft sets next_run = now+f, unless now ≥ stop or now+f > stop; then it is the next allowed date's start. An unparsable frequency raises in the current and older drafts and leaves the oldest draft unarmed. A zero frequency arms at once in the current draft (the next allowed start once the window has closed). In the older draft it raises, because `next_run` is never bound (processmanager/core/task.py:157-172). The oldest draft stays unarmed. |
| TaskScheduleProps.RescheduleFailures | processmanager/core/Task.py:210-230 | Rescheduling raises exactly when the oldest draft's own check does not leave it idle and either a time string is unreadable, the frequency is unparsable, or the older draft has a zero frequency. Only the oldest draft leaves a timer unarmed. |
| TaskRun.TriggerDependents | src/task.py:215-228 | The dependent loop, as a method, yields exactly the dispatch list that the dispatch specification gives for the names in order. |
| TaskRun.Task.RunWorker | processmanager/core/Task.py:156-203 | The worker's effect on the task is the worker specification's. That includes a `Popen` that raises outside any `try`, which ends the worker with the status untouched. |
| TaskRun.Task.RunOlder | processmanager/core/task.py:134-190 | `run()` of the two older drafts follows its specification. For the older draft, the dependent lookup is either as written, raising on the first dependent, or through the registry. |
| TaskRun.Task.Finish | processmanager/core/Task.py:200-203 | Rescheduling and then dispatching follow their specification. |
| TaskRunProps.WorkerStatusUpdate | processmanager/core/Task.py:162-196 | If the log file cannot be opened, nothing happens. A `Popen` that raises, or an unreadable status, ends the worker before any write. Otherwise exactly one key is stamped with the finishing instant: "last-ran" for exit code 0, "last-err" for every other outcome, a failed wait included. All other keys are kept. |
| TaskRunProps.AfterRunKeepsFiles | processmanager/core/Task.py:200-203 | Rescheduling and dispatch leave the status and output files alone. |
| TaskRunProps.RescheduleFailureStopsDependents | processmanager/core/Task.py:200-203 | A reschedule that raises or hangs ends the run before any dependent is dispatched. |
| TaskRunProps.DispatchesInOrder | src/task.py:215-228 | Dependents are dispatched in list order, each by its own lookup. A missing one does not stop the loop; only a `schedule()` that raises or hangs does. This is the oldest draft's loop and the loop the newer drafts intend. |
| TaskRunProps.AllDependentsDispatched | src/task.py:215-228 | When no dependent's scheduling fails, each dependent is dispatched exactly once, in order, and the run finishes. |
| TaskRunProps.DependentsAsWrittenCrash | processmanager/core/Task.py:240-253 | As written, the current and older drafts raise on the first dependent and dispatch nothing, with the new timer already armed. With a registry lookup, that dependent is dispatched. |
| TaskRunProps.OlderRunAsWrittenCrash | processmanager/core/task.py:177-181 | As written, a run of the older draft with dependents ends in an exception after its output is appended and its timer armed, and dispatches nothing. With a registry lookup, the first dependent is dispatched. |
| TaskRunProps.OldestRunDispatches | src/task.py:166-228 | Without a non-zero parsed frequency the oldest draft arms no timer, yet still dispatches its dependents. |
| TaskRunProps.RunOutput | processmanager/core/task.py:140-150 | The older draft appends printed output to its file only when the function returned and printed something. The oldest draft only logs it. |
| TaskRunProps.RunTimerInFuture | processmanager/core/Task.py:210-238 | With no frequency or a positive one, a run arms at most one timer, and that timer is strictly after now. |
| Job.ParseFrequencyOf | processmanager/core/Job.py:35-44 | "<n> <unit>", with a unit starting with m, s or h in any case, gives n·60, n or n·3600. |
| Job.OneWordIsDefault | processmanager/core/Job.py:37 | A single word, such as the task form "5m", gives the default of 60. |
| Job.ParseFrequencyDefault | processmanager/core/Job.py:35-47 | Every input gives 60 except two words whose first is an integer v and whose second starts with m, s or h in any case; those give v times the unit's seconds. This covers no string, zero words, three or more words, a non-integer count and an unknown unit. |
| Job.DefaultCheckAliveFrequency | src/program.py:12 | The default "1 m" is 60 seconds. |
| Job.ParseTimeStr | processmanager/core/Job.py:49-57 | `parse_time_str` gives a minute of the day: the 24-hour form when it reads, else the 12-hour form, else None. |
| Job.Match24 | processmanager/core/Job.py:51 | `%H:%M` accepts only an hour 0..23 and a minute 0..59. |
| Job.Match12 | processmanager/core/Job.py:54 | `%I:%M %p` accepts only an hour 1..12 and a minute 0..59 followed by am or pm. |
| Job.ParseTime24 | processmanager/core/Job.py:49-51 | "HH:MM" reads as that time. |
| Job.ParseTime12 | processmanager/core/Job.py:53-54 | "hh:MM am/pm" reads with 12 am as midnight and pm adding twelve hours. |
| Job.ParseTimeRejectsLateMeridiem | processmanager/core/Job.py:49-57 | "13:00 pm" and other hours past 12 with a meridiem give None. |
| Job.ParsersAgreeOn12 | processmanager/core/Job.py:49-57 | On padded 12-hour text the program parser and the task parser (processmanager/core/Task.py:43-61) give the same time. |
| Job.WithinInclusive | processmanager/core/Job.py:60-64 | The window includes both ends and excludes the instants just outside. |
| Job.WithinInverted | processmanager/core/Job.py:64 | With start > end the window never holds. |
| Job.WithinUnbounded | processmanager/core/Job.py:61-62 | A missing bound makes every instant fall within the schedule. |
| StatusStore.WriteThenRead | processmanager/core/Job.py:67-85 | A document written with `write_status` reads back exactly in every draft, whatever the file held before. |
| StatusStore.ReadModesAgree | processmanager/core/program_base.py:114-120 | The drafts read every file alike except a missing one: {} in `Job`, None in processmanager/core/program_base.py:114-120 and src/program_base.py:96-104. A corrupt file gives None in every draft. |
| StatusStore.ReadOrEmpty | processmanager/core/BaseProgram.py:152 | `read_status() or {}` is the stored document, or empty when there is none. |
| Supervisor.StoredPid | processmanager/core/BaseProgram.py:82-84 | The pid `record_start` kills is the stored one, and only when it is truthy. |
| Supervisor.Program.RecordStart | processmanager/core/BaseProgram.py:80-103 | `record_start` changes the program as its specification says. |
| Supervisor.Program.RecordStop | processmanager/core/BaseProgram.py:113-123 | `record_stop` changes the program as its specification says. |
| Supervisor.Program.DisableRestart | processmanager/core/BaseProgram.py:64-67 | `ok` holds iff the read-modify-write succeeds, and then only the status changes. A failure writes nothing. |
| Supervisor.Program.MonitorTick | processmanager/core/BaseProgram.py:150-188 | One pass of `monitor()` changes the program as the pass specification says, for the draft's read mode. |
| Supervisor.Program.Proceed | processmanager/core/BaseProgram.py:163-186 | The schedule gate, probe, keep-alive and retry steps of a pass. |
| SupervisorProps.RecordStartEffects | processmanager/core/BaseProgram.py:80-103 | A truthy stored pid is killed right before the start. A truthy new pid replaces the status with exactly pid, time_started, num_retries=retries and "running", dropping every other key. A falsy pid leaves the status alone. |
| SupervisorProps.StopThenStartKillsNothing | processmanager/core/BaseProgram.py:113-123 | `record_stop` writes pid 0, time_started None and num_retries, so a following start kills nothing. |
| SupervisorProps.RestartKillsPrevious | processmanager/core/BaseProgram.py:82-94 | A second start kills the pid the first one stored. |
| SupervisorProps.DisableRestartEffects | processmanager/core/BaseProgram.py:64-67 | `disable_restart(b)` succeeds iff a document can be read, and the draft defines it. It sets only "disable_restart" and keeps every other key. |
| SupervisorProps.DisabledTickIsIdle | processmanager/core/BaseProgram.py:152-158 | A pass that finds the disable flag writes nothing, starts and stops nothing and keeps retries. |
| SupervisorProps.DisableHaltsSupervision | processmanager/core/BaseProgram.py:64-67 | After a successful `disable_restart(True)`, any number of passes change nothing. |
| SupervisorProps.StaysIdle | processmanager/core/BaseProgram.py:150-158 | A disabled program stays untouched over any number of passes. |
| SupervisorProps.OutsideScheduleTick | processmanager/core/BaseProgram.py:160-168 | "last_checkup" is stamped first. Outside the window, stop is called only on a live handle, the probe is skipped and retries are unchanged. |
| SupervisorProps.ProbeOutcomes | processmanager/core/BaseProgram.py:170-186 | A falsy probe resets retries to 0. A truthy probe without keep_alive ends the loop without a start. With keep_alive, retries go up by one. |
| SupervisorProps.TickRestarts | processmanager/core/BaseProgram.py:175-179 | With retries to spare, a pass starts once more and keeps the program enabled. |
| SupervisorProps.TickGivesUp | processmanager/core/BaseProgram.py:180-183 | Exceeding max_retries sends one failure notice, starts nothing and ends the loop. |
| SupervisorProps.RetryPolicy | processmanager/core/BaseProgram.py:175-183 | From retries r, an always-failing probe calls start exactly max_retries-r times, then notifies once and ends. |
| SupervisorProps.StartKeepsEnabled | processmanager/core/BaseProgram.py:94-103 | A start never writes "disable_restart". |
| SupervisorProps.StartCounts | processmanager/core/BaseProgram.py:80-103 | A start adds exactly one start event and no notice. |
| SupervisorProps.NoticeCounts | processmanager/core/BaseProgram.py:179 | A restart notice adds no start and no failure notice. |
| SupervisorProps.RestartCrashes | processmanager/core/BaseProgram.py:175-179 | As written, the first restart starts the program and then crashes the monitor loop. |
| SupervisorProps.DefaultProbeInverted | processmanager/core/BaseProgram.py:48-62 | The default probe is true when the pid exists, and the loop reads true as "needs restart" (line 170). So a live process is restarted, and a dead one counts as healthy. |
| SupervisorProps.CorrectedProbe | processmanager/core/BaseProgram.py:170-177 | With a probe that answers "needs restart" exactly when the stored pid has no running process, a live program is left alone with its retries cleared, and a dead one counts as a restart attempt. |
| SupervisorProps.CountAppend | processmanager/core/BaseProgram.py:150-188 | Event counts add over concatenated traces. |
| LegacyProgram.Program.constructor | src/program.py:7-16 | `__init__` with the logger set up before the frequency is parsed: no process, no retries, and the parsed "check_alive_freq" as the polling interval ("1 m" when the key is absent). |
| LegacyProgram.Program.Create | src/program.py:7-33 | `Program(config)` as written fails exactly where parsing "check_alive_freq" raises. Otherwise it is a fresh program with no process and no retries, polling at the parsed interval. |
| LegacyProgram.InitAsWrittenRaises | src/program.py:12-32 | "5m", "x m" and a non-string value make `__init__` raise, although the parser alone would give 60. "5 x" only falls through to 60. |
| LegacyProgram.CorrectedInterval | src/program.py:18-33 | With the logger in place, every input on which `__init__` raises as written gets the default of 60. Every other input keeps its as-written interval, and an absent key gives 60 seconds. |
| LegacyProgram.Program.Start | src/program.py:35-45 | A successful spawn replaces the handle and, with keep_alive, adds a monitor thread. A failed spawn changes nothing. |
| LegacyProgram.Program.MonitorTick | src/program.py:51-60 | One poll: a running process changes nothing. An exit increments retries and restarts while retries ≤ max_retries, else the loop ends. Polling with no handle raises. |
| LegacyProgram.PollMonotone | src/program.py:53-57 | A pass never lowers retries or forgets a launch, and a running process changes nothing. |
| LegacyProgram.RetriesNeverDecrease | src/program.py:51-60 | Over any number of passes retries never decrease and launches only grow. |
| LegacyProgram.StoppedLoopIsFinal | src/program.py:58-60 | Once the loop has ended, later passes change nothing. |
| LegacyProgram.LegacyRetryPolicy | src/program.py:51-60 | A process that has exited at every poll is restarted max_retries-r times, and the loop then ends with retries = max_retries+1. |
| Utils.FirstMatch | processmanager/core/utils.py:23-26 | The index of the first entry whose type and name both match. None means no entry matches. |
| Utils.FindSchedule | processmanager/core/utils.py:22-28 | The lookup loop returns the first match and fails exactly when none exists. |
| Utils.GetJobSched | processmanager/core/utils.py:18-30 | `get_job_sched` fails on an unreadable or non-object file. On a document it finds an entry exactly when one has that type and name, and then returns the first such entry in file order. It fails (ValueError) only when none matches. |
| Utils.ScheduleStore.LoadSchedules | processmanager/core/utils.py:33-79 | `load_schedules` returns and writes what its specification says, and raises on a non-object document. |
| Utils.HashRoundTrip | processmanager/core/utils.py:55-77 | After a load with write_hash=True, reloading the unchanged file reports valid_hash True. |
| Utils.ChangedScheduleInvalid | processmanager/core/utils.py:59-79 | After the hash was written for one digest, loading a schedule with a different digest reports valid_hash False. Without a readable hash file, a load reports False and returns the entries. |
| Utils.HashPathParts | processmanager/core/utils.py:55-57 | The hash file lies in the schedule file's directory and is named after its root plus ".hash". |
| Utils.JoinParts | processmanager/core/utils.py:57 | `os.path.join` splits back into that directory and name. |
| Utils.RootOfExtension | processmanager/core/utils.py:55 | `splitext` drops exactly the last extension. |
| Utils.RootWithoutDot | processmanager/core/utils.py:55 | A name without a dot keeps its whole name. |
| Utils.Basename | processmanager/core/utils.py:55 | A basename holds no slash. |
| Utils.IbValidTime | processmanager/core/utils.py:92-100 | `check_ib_valid_time` is true iff now ≤ 20:30 or now ≥ 21:30. |
| Utils.IbBounds | processmanager/core/utils.py:97-98 | The two literals parse as 20:30 and 21:30. |
| Utils.FirstNaming | processmanager/core/utils.py:111-115 | The first `ps` line whose second field equals the name exactly. |
| Utils.ListAndKillProcess | processmanager/core/utils.py:102-122 | It kills at most one process: the pid of the first naming line, and nothing when no line names it. |
| Utils.PsLineSplits | processmanager/core/utils.py:112-114 | A padded "pid command" line splits into that pid and that command. |
| TaskQueue.SortProps | processmanager/core/Scheduler.py:71-74 | The sort is ordered by key, a permutation, and stable: each key's tasks keep their order. |
| TaskQueue.InsertSorted | processmanager/core/Scheduler.py:71-74 | Inserting into a sorted queue keeps it sorted. |
| TaskQueue.InsertMultiset | processmanager/core/Scheduler.py:71-74 | Insertion adds exactly the new element. |
| TaskQueue.InsertWithKey | processmanager/core/Scheduler.py:71-74 | Insertion puts an element after the others with its key. |
| TaskQueue.SortTasksMultiset | processmanager/core/Scheduler.py:71-74 | The sorted tasks are a permutation of the keyed tasks. |
| Orchestrator.Scheduler.constructor | processmanager/core/Scheduler.py:22-29 | No programs, no tasks, an empty queue and an empty map. |
| Orchestrator.Scheduler.Initialize | processmanager/core/Scheduler.py:37-82 | `initialize` keeps the loadable programs and the tasks in document order. It succeeds iff the sort does not raise, and then sets the queue and the name map; the oldest draft also sets `Scheduler.instance` (src/scheduler.py:85). |
| Orchestrator.Scheduler.ScheduleTasks | processmanager/core/Scheduler.py:84-88 | `schedule_tasks` arms each queued task in order, up to the first `schedule()` that raises or hangs. A None queue arms nothing. |
| Orchestrator.Scheduler.StartPrograms | processmanager/core/Scheduler.py:97-105 | The startup loop starts what the startup specification lists. |
| Orchestrator.BuildTaskDict | processmanager/core/Scheduler.py:79 | The dictionary comprehension gives the name map. |
| Orchestrator.KeysOf | processmanager/core/Scheduler.py:69-74 | The sort keys are today's start instants, one per task in order. They fail to exist only when some task's start time raises. |
| Orchestrator.WithStart | processmanager/core/Scheduler.py:69 | Only tasks with a start string are queued. |
| Orchestrator.UpToHaltProps | processmanager/core/Scheduler.py:86-88 | The loop's results are a prefix of the per-task results. Nothing halts before the last, and it stops early only at a halt. |
| Orchestrator.LoadStatusesOldest | src/scheduler.py:41-48 | `load_statuses` reads the status document as `read_status() or {}` does in every draft: the document, or {} on any error. |
| Orchestrator.LoadStatusesAfterWrite | src/scheduler.py:41-48 | A document written to the status file loads back exactly. A load gives {} exactly when the read fails or finds an empty document. |
| OrchestratorProps.LoadedProgramsMembers | processmanager/core/Scheduler.py:43-61 | An entry is a program iff its type is "program" and its class loads. Bad entries are skipped and loading goes on. |
| OrchestratorProps.LoadedProgramsAppend | processmanager/core/Scheduler.py:41-61 | Programs load entry by entry, in document order. |
| OrchestratorProps.TaskEntriesMembers | processmanager/core/Scheduler.py:63-66 | A task is kept iff its entry's type is "task", and other types are ignored. |
| OrchestratorProps.TaskEntriesAppend | processmanager/core/Scheduler.py:63-66 | Tasks are appended in document order. |
| OrchestratorProps.WithStartMembers | processmanager/core/Scheduler.py:69 | The start-time filter keeps exactly the tasks with a start string, in order. |
| OrchestratorProps.NoQueueWithoutStarts | processmanager/core/Scheduler.py:70-77 | The queue is None iff no task has a start string. |
| OrchestratorProps.QueueRaises | processmanager/core/Scheduler.py:71-74 | The sort raises iff some queued task's start string does not read. |
| OrchestratorProps.QueueIsSort | processmanager/core/Scheduler.py:71-74 | The queue is the stable sort of the keyed tasks. |
| OrchestratorProps.QueueMembers | processmanager/core/Scheduler.py:69-74 | The queue is non-empty and a permutation of the tasks with a start string. |
| OrchestratorProps.QueueKeys | processmanager/core/Scheduler.py:73 | Each queued task is keyed by today's start instant. |
| OrchestratorProps.QueueSorted | processmanager/core/Scheduler.py:71-74 | The queue ascends by today's start instant. |
| OrchestratorProps.QueueStable | processmanager/core/Scheduler.py:71-74 | Tasks with the same start keep their document order. |
| OrchestratorProps.TaskDictKeys | processmanager/core/Scheduler.py:79 | The map's keys are exactly the task names. |
| OrchestratorProps.TaskDictLastWins | processmanager/core/Scheduler.py:79 | Each name maps to the last task bearing it. |
| OrchestratorProps.ScheduleInOrder | processmanager/core/Scheduler.py:84-88 | Each queued task is scheduled exactly once, in queue order, until a `schedule()` raises or hangs. |
| OrchestratorProps.StartupMembers | processmanager/core/Scheduler.py:97-105 | A program starts at startup iff it is loaded, has `run_on_start` and is within its schedule. The oldest draft starts none at startup. |
| OrchestratorProps.EntriesAcrossDrafts | src/scheduler.py:31-39 | Every draft reads a document the same way. An unreadable file gives no entries. A non-object document raises in the newer drafts and gives [] in the oldest. |
| LogSetup.Truncated | processmanager/core/logger_setup.py:25-35 | Up to maxBytes bytes (exactly maxBytes included) stay unchanged. A larger file becomes exactly its last maxBytes bytes, and a non-positive limit empties it. The result is always a suffix. |
| LogSetup.TruncatingFileHandler.constructor | processmanager/core/logger_setup.py:13-15 | Opening the handler creates a missing file and changes no other. |
| LogSetup.TruncatingFileHandler.TruncateIfNeeded | processmanager/core/logger_setup.py:25-41 | The file becomes its truncation, and no other file changes. |
| LogSetup.TruncatingFileHandler.Emit | processmanager/core/logger_setup.py:17-23 | The record is appended and the file then truncated. No other file changes. |
| LogSetup.EmitBounds | processmanager/core/logger_setup.py:17-21 | After an emit the file holds at most maxBytes bytes. It ends with the record when the record fits. |
| LogSetup.TruncateKeepsNewest | src/logger_setup.py:23-33 | Truncation keeps the newest bytes in order. |
| LogSetup.TruncateIdempotent | processmanager/core/logger_setup.py:25-37 | A second truncation check changes nothing. |
| LogSetup.HeaderBytes | processmanager/core/logger_setup.py:77 | The restart header's bytes are its ASCII characters, one byte each. |
| LogSetup.SetupBaseLogging | processmanager/core/logger_setup.py:58-89 | The level is always set. Only a root logger without handlers gets the optional header, a 4 KiB truncating handler and a console handler. |
| LogSetup.SetupLogger | src/logger_setup.py:41-72 | The level is always set. Only a logger without handlers gets the header and one 10 MiB truncating handler. |
| LogSetup.SetupIdempotent | processmanager/core/logger_setup.py:66 | Setting up again duplicates no handler and writes no second header. |
| LogSetup.HeaderIff | processmanager/core/logger_setup.py:66-77 | The header is appended iff the logger had no handlers, mark_restart holds and the file exists non-empty. For src/logger_setup.py:50-65, the condition is the same without mark_restart. No other file changes. |

## Left out

- Threads, `threading.Timer`, daemon threads and sleeps are not modelled.
  - A timer is the instant it is armed for.
  - A dependent "run now" is a recorded dispatch. Its run is not followed.
  - A monitor pass is one step, and the nested monitor threads that `src/program.py:42-43` spawns are a counter.
- `datetime.now()` is not modelled: the several clock readings inside one call are taken as one instant `now`, an input.
- Daylight-saving changes and `timestamp()` are not modelled.
- Floating-point `total_seconds()` and `math.ceil` become exact integer arithmetic.
- Subprocesses, `os.kill`, `subprocess.run(['kill', ...])`, e-mail (`send_mail_msg`) and `importlib` are not modelled.
  - Exit codes, spawn results, `ps` output lines and probe answers are inputs.
  - Kills, starts, stops and notices are recorded events.
  - Whether a program class loads is the entry's `loads` flag.
- SHA-256 and `json.dumps` canonicalisation are not modelled. The digest of the loaded entries is an input of hexadecimal text.
- JSON values are cut down to the scalars the core writes.
  - A status file holding JSON other than an object is `Corrupt`.
  - The oldest `load_statuses` returns an object or {}.
- Log record formatting, `asctime`, logger levels and filtering, the console stream and `get_logger` are not modelled.
  - A record is its bytes.
  - A failed write inside `emit` (`handleError`) and a failed header write are not modelled.
  - Directory creation (`os.makedirs`) is not modelled.
- Swallowed `write_status` failures and `os.makedirs` in the status store are not modelled: every write succeeds. A failed hash-file write is the `writable` input.
- `PyStr.PyInt`: accepts ASCII digits with an optional sign and surrounding whitespace. Underscores and non-ASCII digits, which Python's `int()` also accepts, are not modelled.
- `Job.MeridiemAfter`: `%p` is read as "am"/"pm" in any case, the English locale. Other locales are not modelled.
- `TaskScheduleProps.ScheduleNotBeforeNow`: stated for a non-negative frequency. A negative frequency arms a timer in the past, which `TaskScheduleProps.NegativeFrequencyArmsInPast` states separately.
- `TaskScheduleProps.RescheduleAfterNow`: stated for no frequency or a positive one, for the same reason.
- `Supervisor.Program.MonitorTick`: the process handle's liveness and the probe's answer are inputs. The default probe is related to the status by `SupervisorProps.DefaultProbeInverted`.
- Program adapters, task bodies, the command-line tools, entry points and configuration loading are not part of this model.
- Imports of logger-setup names that processmanager/core/logger_setup.py does not define are not modelled. It defines only `setup_base_logging` and `get_logger`, yet four core files import other names:
  - processmanager/core/Scheduler.py:5 imports `setup_pm_logging`;
  - processmanager/core/scheduler.py:5 and processmanager/core/program_base.py:12 import `setup_logger`;
  - processmanager/core/task.py:7 imports `setup_process_manager_logger`.
  Each of these modules fails at import as written. The model assumes the imports resolve, and likewise the local `from scheduler import Scheduler` of the task drafts.
- `PyStr.IsSpace`, `PyStr.Lower`, `PyStr.Strip`, `PyStr.SplitWs`, `Job.Field` and `Job.SpaceRun`: only ASCII whitespace, ASCII letters and ASCII digits are modelled. Python's `split()`, `strip()` and `lower()`, and the `\s` and `\d` of `strptime`, also accept Unicode whitespace such as U+00A0, U+2000-200A and U+3000, other Unicode capitals, and Unicode digits. So "9:00\u00a0pm" reads as 21:00 in the source but not in the model.
- `Supervisor.Program.constructor`: the polling interval `check_alive_freq` is not part of the supervisor state, because sleeps are not modelled. processmanager/core/program_base.py:33-43 parses the frequency and time strings before `prog_logger` is set at line 51, so there a parse error also makes `__init__` raise. Only `LegacyProgram.Program.Create` models that failure, for src/program.py.

## Findings

| source | as written | input that shows it | evidently intended | confidence | as-written member | corrected member |
|---|---|---|---|---|---|---|
| processmanager/core/Task.py:240-253 | Each dependent is looked up with `get_job_sched`. That returns the schedule dictionary, or raises `ValueError` when the name is missing. `.start_time_str` is then read from a dict, so the first dependent always raises and ends the worker. | A task with `run_on_complete = ["b"]`, after a successful reschedule. | Look up the dependent task object by name, as the oldest draft does through `Scheduler.instance.task_dict` (src/task.py:217). Run it at once without a start, schedule it otherwise, log it when missing, and go on with the rest. | not executed | TaskRunProps.DependentsAsWrittenCrash | TaskRunProps.DispatchesInOrder |
| processmanager/core/task.py:177-181 | The dependent loop reads `Scheduler.instance.task_dict`. The schedulers of this package never set `instance`: it is commented out at processmanager/core/scheduler.py:18 and :72, and at processmanager/core/Scheduler.py:20 and :80. The first dependent raises `AttributeError` and ends the run. | A task with `run_on_complete = ["b"]`, after a successful reschedule. | Look the dependent up in the scheduler's `task_dict`, as src/scheduler.py:19 and :85 make possible, and dispatch every dependent in order. | not executed | TaskRunProps.OlderRunAsWrittenCrash | TaskRunProps.DispatchesInOrder |
| src/program.py:12-16 | `__init__` calls `parse_frequency` at line 12, but sets `self.logger` only at line 16. An input whose parse raises reaches `self.logger.error` at line 32, which raises `AttributeError`, so constructing the program fails. processmanager/core/program_base.py calls it at line 33 and sets `prog_logger` only at line 51, the same order. | `check_alive_freq` of "5m", "x m" or null. | Log the error and poll every 60 seconds, as the parser's own default says. | not executed | LegacyProgram.InitAsWrittenRaises | LegacyProgram.CorrectedInterval |
| processmanager/core/BaseProgram.py:48-62 | `default_monitor` returns True when the stored pid names a running process. The loop at line 170 reads True from `monitor_func()` as "needs restart". So a healthy program is restarted while retries last, and a program whose process died counts as healthy. | keep_alive true, within the schedule window, and a status whose pid is running. | Answer "needs restart" only when no process with the stored pid is running. | not executed | SupervisorProps.DefaultProbeInverted | SupervisorProps.CorrectedProbe |
| processmanager/core/BaseProgram.py:179 | After a restart, the monitor calls `self.notify_restart`, which neither `BaseProgram` nor `Job` defines. The `AttributeError` ends the monitor loop after the first restart. | keep_alive true, max_retries ≥ 1 and a truthy probe inside the schedule window. | Send a restart notice and keep monitoring, so that an always-failing probe is restarted max_retries times before the single failure notice. | not executed | SupervisorProps.RestartCrashes | SupervisorProps.RetryPolicy |
