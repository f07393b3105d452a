/** The scheduler of the three drafts (`processmanager/core/Scheduler.py`,
    `processmanager/core/scheduler.py`, `src/scheduler.py`): `initialize`
    splits the schedule entries into programs and tasks, builds the sorted
    task queue and the name → task map; `schedule_tasks` arms the sorted
    tasks; `run` starts the programs due at startup. The drafts use the task
    draft of the same age, so `TaskDraft` names the scheduler draft too. */
module Orchestrator {
  import opened PyStr
  import opened Clock
  import opened StatusStore
  import opened TaskCalendar
  import opened TaskSchedule
  import opened Supervisor
  import opened Utils
  import opened TaskQueue

  /** A program entry that becomes a program object: its "program_class" is
      given and loads; every other program entry is logged and skipped. */
  predicate LoadsProgram(e: Entry) {
    e.kind == Some("program") && Given(e.programClass) && e.loads
  }

  predicate IsTask(e: Entry) {
    e.kind == Some("task")
  }

  /** The program objects `initialize` appends, in entry order. */
  function LoadedPrograms(schedules: seq<Entry>): seq<Entry>
    decreases |schedules|
  {
    if schedules == [] then []
    else
      var last := schedules[|schedules| - 1];
      LoadedPrograms(schedules[..|schedules| - 1]) + (if LoadsProgram(last) then [last] else [])
  }

  /** The task objects `initialize` appends, in entry order. */
  function TaskEntries(schedules: seq<Entry>): seq<TaskConfig>
    decreases |schedules|
  {
    if schedules == [] then []
    else
      var last := schedules[|schedules| - 1];
      TaskEntries(schedules[..|schedules| - 1]) + (if IsTask(last) then [TaskOf(last)] else [])
  }

  /** `[t for t in tasks if t.start_time_str]`. */
  function WithStart(tasks: seq<TaskConfig>): (r: seq<TaskConfig>)
    ensures forall i :: 0 <= i < |r| ==> Given(r[i].start)
    decreases |tasks|
  {
    if tasks == [] then []
    else
      var last := tasks[|tasks| - 1];
      WithStart(tasks[..|tasks| - 1]) + (if Given(last.start) then [last] else [])
  }

  /** The sort keys: each task's start time today; `None` where reading one
      of them raises, which aborts `initialize`. */
  function KeysOf(tasks: seq<TaskConfig>, today: int): (r: Option<seq<Keyed>>)
    ensures r.Some? ==> |r.value| == |tasks|
    ensures r.Some? ==> forall i :: 0 <= i < |tasks| ==>
      r.value[i].task == tasks[i] && TargetTime(tasks[i].start, today) == Some(r.value[i].key)
    ensures r.None? ==> exists i :: 0 <= i < |tasks| && TargetTime(tasks[i].start, today).None?
    decreases |tasks|
  {
    if tasks == [] then Some([])
    else
      var last := tasks[|tasks| - 1];
      match (KeysOf(tasks[..|tasks| - 1], today), TargetTime(last.start, today))
      case (Some(ks), Some(t)) => Some(ks + [Keyed(t, last)])
      case (None, _) => None
      case (_, None) => None
  }

  /** The sorted task queue: `None` (Python's `None`) when no task has a
      start, otherwise the tasks with a start sorted by today's start; the
      outer `None` is a sort that raised. */
  function SortedQueue(tasks: seq<TaskConfig>, today: int): Option<Option<seq<TaskConfig>>> {
    var starts := WithStart(tasks);
    if starts == [] then Some(None)
    else
      match KeysOf(starts, today)
      case None => None
      case Some(ks) => Some(Some(Tasks(Sort(ks))))
  }

  /** `{task.name: task for task in tasks}`: a later task of the same name
      replaces an earlier one. */
  function TaskDict(tasks: seq<TaskConfig>): map<Option<string>, TaskConfig>
    decreases |tasks|
  {
    if tasks == [] then map[]
    else
      var last := tasks[|tasks| - 1];
      TaskDict(tasks[..|tasks| - 1])[last.name := last]
  }

  /** A `schedule()` that raised or never returned: it ends `schedule_tasks`. */
  predicate Halted(a: Arm) {
    a.Raises? || a.Hangs?
  }

  /** The outcomes up to and including the first that halts. */
  function UpToHalt(arms: seq<Arm>): seq<Arm>
    decreases |arms|
  {
    if arms == [] then []
    else if Halted(arms[0]) then [arms[0]]
    else [arms[0]] + UpToHalt(arms[1..])
  }

  /** A prefix of the outcomes, non-empty when they are, that stops only at
      the first halting one. */
  lemma {:induction false} UpToHaltProps(arms: seq<Arm>)
    ensures var r := UpToHalt(arms);
      && |r| <= |arms| && r == arms[..|r|]
      && (arms != [] ==> r != [])
      && (forall i :: 0 <= i < |r| - 1 ==> !Halted(r[i]))
      && (|r| < |arms| ==> r != [] && Halted(r[|r| - 1]))
    decreases |arms|
  {
    if arms != [] && !Halted(arms[0]) {
      UpToHaltProps(arms[1..]);
      var rest := UpToHalt(arms[1..]);
      assert forall i :: 1 <= i < |rest| + 1 ==> ([arms[0]] + rest)[i] == rest[i - 1];
      assert [arms[0]] + arms[1..][..|rest|] == arms[..|rest| + 1];
    }
  }

  /** One step of `UpToHalt`. */
  lemma UpToHaltStep(arms: seq<Arm>, a: Arm)
    requires arms != [] && arms[0] == a
    ensures UpToHalt(arms) == if Halted(a) then [a] else [a] + UpToHalt(arms[1..])
  {
  }

  /** What `schedule()` gives for each queued task, one call each. */
  function ArmsOf(draft: TaskDraft, queue: seq<TaskConfig>, now: int): (r: seq<Arm>)
    ensures |r| == |queue| && forall i :: 0 <= i < |queue| ==> r[i] == ScheduleOf(draft, queue[i], now)
  {
    seq(|queue|, i requires 0 <= i < |queue| => ScheduleOf(draft, queue[i], now))
  }

  /** `schedule_tasks()`: `schedule()` on each queued task in order, until one
      raises or never returns. */
  function ScheduleAll(draft: TaskDraft, queue: seq<TaskConfig>, now: int): seq<Arm> {
    UpToHalt(ArmsOf(draft, queue, now))
  }

  /** Whether `run` starts a program at startup: `run_on_start` and
      `within_schedule()` both hold. */
  predicate DueAtStart(e: Entry, now: int) {
    e.program.runOnStart && WithinAt(e.program, now)
  }

  /** The programs `run` starts at startup; the oldest draft starts none (its
      monitors do). A program whose start raises is logged and the loop goes
      on, so the attempts do not depend on the outcomes. */
  function StartupStarts(draft: TaskDraft, programs: seq<Entry>, now: int): seq<Entry>
    decreases |programs|
  {
    if draft == TaskDraft.Oldest || programs == [] then []
    else
      var last := programs[|programs| - 1];
      StartupStarts(draft, programs[..|programs| - 1], now) + (if DueAtStart(last, now) then [last] else [])
  }

  class Scheduler {
    const draft: TaskDraft
    var programs: seq<Entry>
    var tasks: seq<TaskConfig>
    var unsorted: seq<TaskConfig>
    var sortedQueue: Option<seq<TaskConfig>>
    var taskDict: map<Option<string>, TaskConfig>
    /** Whether `Scheduler.instance` refers to this scheduler (oldest draft). */
    var isInstance: bool

    constructor(draft: TaskDraft)
      ensures this.draft == draft
      ensures programs == [] && tasks == [] && unsorted == []
      ensures sortedQueue == Some([]) && taskDict == map[] && !isInstance
    {
      this.draft := draft;
      programs := [];
      tasks := [];
      unsorted := [];
      sortedQueue := Some([]);
      taskDict := map[];
      isInstance := false;
    }

    /** `initialize()` over the loaded entries at instant `now`; `ok` is false
        where reading a start time for the sort raises, which leaves the map
        and the instance reference unset. */
    method Initialize(schedules: seq<Entry>, now: int) returns (ok: bool)
      modifies this
      ensures programs == old(programs) + LoadedPrograms(schedules)
      ensures tasks == old(tasks) + TaskEntries(schedules)
      ensures unsorted == old(unsorted) + TaskEntries(schedules)
      ensures ok <==> SortedQueue(tasks, DayOf(now)).Some?
      ensures ok ==> sortedQueue == SortedQueue(tasks, DayOf(now)).value
      ensures ok ==> taskDict == TaskDict(tasks) && isInstance == (draft == TaskDraft.Oldest || old(isInstance))
      ensures !ok ==> sortedQueue == old(sortedQueue) && taskDict == old(taskDict) && isInstance == old(isInstance)
    {
      var i := 0;
      while i < |schedules|
        invariant 0 <= i <= |schedules|
        invariant programs == old(programs) + LoadedPrograms(schedules[..i])
        invariant tasks == old(tasks) + TaskEntries(schedules[..i])
        invariant unsorted == old(unsorted) + TaskEntries(schedules[..i])
        invariant sortedQueue == old(sortedQueue) && taskDict == old(taskDict) && isInstance == old(isInstance)
        decreases |schedules| - i
      {
        var e := schedules[i];
        assert schedules[..i + 1][..i] == schedules[..i];
        if e.kind == Some("program") {
          if Given(e.programClass) && e.loads {
            programs := programs + [e];
          }
        } else if e.kind == Some("task") {
          tasks := tasks + [TaskOf(e)];
          unsorted := unsorted + [TaskOf(e)];
        }
        i := i + 1;
      }
      assert schedules[..i] == schedules;
      var queue := SortedQueue(tasks, DayOf(now));
      if queue.None? {
        return false;
      }
      sortedQueue := queue.value;
      taskDict := BuildTaskDict(tasks);
      if draft == TaskDraft.Oldest {
        isInstance := true;
      }
      ok := true;
    }

    /** `schedule_tasks()`: the timers armed, in queue order. */
    method ScheduleTasks(now: int) returns (arms: seq<Arm>)
      ensures arms == (if sortedQueue.Some? then ScheduleAll(draft, sortedQueue.value, now) else [])
    {
      arms := [];
      if sortedQueue.None? {
        return;
      }
      var queue := sortedQueue.value;
      ghost var all := ArmsOf(draft, queue, now);
      var i := 0;
      while i < |queue|
        invariant 0 <= i <= |queue|
        invariant UpToHalt(all) == arms + UpToHalt(all[i..])
        decreases |queue| - i
      {
        var a := ScheduleStep(draft, queue, i, now);
        UpToHaltStep(all[i..], a);
        assert all[i..][1..] == all[i + 1..];
        arms := arms + [a];
        if Halted(a) {
          return;
        }
        i := i + 1;
      }
      assert all[i..] == [];
    }

    /** The startup loop of `run()`: the programs it starts. */
    method StartPrograms(now: int) returns (started: seq<Entry>)
      ensures started == StartupStarts(draft, programs, now)
    {
      started := [];
      if draft == TaskDraft.Oldest {
        return;
      }
      var i := 0;
      while i < |programs|
        invariant 0 <= i <= |programs|
        invariant started == StartupStarts(draft, programs[..i], now)
        decreases |programs| - i
      {
        assert programs[..i + 1][..i] == programs[..i];
        if programs[i].program.runOnStart && WithinAt(programs[i].program, now) {
          started := started + [programs[i]];
        }
        i := i + 1;
      }
      assert programs[..i] == programs;
    }
  }

  /** The body of the `schedule_tasks` loop for the `i`-th queued task. */
  method ScheduleStep(draft: TaskDraft, queue: seq<TaskConfig>, i: nat, now: int) returns (a: Arm)
    requires i < |queue|
    ensures a == ArmsOf(draft, queue, now)[i]
  {
    a := Schedule(draft, queue[i], now);
  }

  /** The dictionary comprehension, one task at a time. */
  method BuildTaskDict(tasks: seq<TaskConfig>) returns (d: map<Option<string>, TaskConfig>)
    ensures d == TaskDict(tasks)
  {
    d := map[];
    var i := 0;
    while i < |tasks|
      invariant 0 <= i <= |tasks|
      invariant d == TaskDict(tasks[..i])
      decreases |tasks| - i
    {
      assert tasks[..i + 1][..i] == tasks[..i];
      d := d[tasks[i].name := tasks[i]];
      i := i + 1;
    }
    assert tasks[..i] == tasks;
  }

  /** The entries `initialize` iterates over, or `None` where loading raises:
      the two later drafts call `load_schedules(write_hash=True)` from the
      utilities, the oldest its own `load_schedules`. */
  function EntriesFor(draft: TaskDraft, file: ScheduleFile, h: HashFile, digest: Digest, writable: bool): Option<seq<Entry>> {
    if draft == TaskDraft.Oldest then Some(LoadSchedulesOldest(file))
    else
      match LoadSpec(file, h, true, digest, writable).0
      case LoadRaised => None
      case Loaded(entries, _) => Some(entries)
  }

  /** `load_statuses` of the oldest scheduler: the status document, or an
      empty one when it cannot be read or parsed. */
  function LoadStatusesOldest(f: FileState): (d: Doc)
    ensures f.Present? ==> d == f.doc
    ensures !f.Present? ==> d == map[]
    ensures d == ReadOrEmpty(MissingIsNone, f) && d == ReadOrEmpty(MissingIsEmpty, f)
  {
    if f.Present? then f.doc else map[]
  }

  /** A written status document loads back exactly; anything else loads as
      the empty document, as `read_status() or {}` reads it. */
  lemma LoadStatusesAfterWrite(d: Doc, f: FileState)
    ensures LoadStatusesOldest(WriteStatus(d)) == d
    ensures LoadStatusesOldest(f) == map[] <==> ReadStatus(MissingIsEmpty, f) in {None, Some(map[])}
  {
    WriteThenRead(MissingIsNone, d);
  }

  /** `load_schedules` of the oldest scheduler: any read or parse error,
      including a document that is not an object, gives no entries. */
  function LoadSchedulesOldest(file: ScheduleFile): (r: seq<Entry>)
    ensures file.Document? && file.schedules.Some? ==> r == file.schedules.value
    ensures !(file.Document? && file.schedules.Some?) ==> r == []
  {
    match file
    case Document(Some(entries)) => entries
    case _ => []
  }
}
