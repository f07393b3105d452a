/** What `initialize`, `schedule_tasks` and the startup loop of `run`
    guarantee: every entry is classified on its own, the queue holds exactly
    the tasks with a start time, sorted by it and stable, the task map keeps
    the last task of each name, and scheduling stops only at a failure. */
module OrchestratorProps {
  import opened PyStr
  import opened TaskCalendar
  import opened TaskSchedule
  import opened Utils
  import opened TaskQueue
  import opened Orchestrator

  /** Entries are classified one by one: a program entry that fails to load
      does not keep later entries from loading. */
  lemma {:induction false} LoadedProgramsAppend(a: seq<Entry>, b: seq<Entry>)
    ensures LoadedPrograms(a + b) == LoadedPrograms(a) + LoadedPrograms(b)
    decreases |b|
  {
    if b == [] {
      assert a + b == a;
    } else {
      var init, last := b[..|b| - 1], b[|b| - 1];
      LoadedProgramsAppend(a, init);
      assert (a + b)[..|a + b| - 1] == a + init;
    }
  }

  /** The program objects are exactly the program entries that load. */
  lemma {:induction false} LoadedProgramsMembers(s: seq<Entry>)
    ensures forall e :: e in LoadedPrograms(s) <==> e in s && LoadsProgram(e)
    decreases |s|
  {
    if s != [] {
      var init, last := s[..|s| - 1], s[|s| - 1];
      LoadedProgramsMembers(init);
      assert s == init + [last];
    }
  }

  lemma {:induction false} TaskEntriesAppend(a: seq<Entry>, b: seq<Entry>)
    ensures TaskEntries(a + b) == TaskEntries(a) + TaskEntries(b)
    decreases |b|
  {
    if b == [] {
      assert a + b == a;
    } else {
      var init, last := b[..|b| - 1], b[|b| - 1];
      TaskEntriesAppend(a, init);
      assert (a + b)[..|a + b| - 1] == a + init;
    }
  }

  /** The task objects are exactly those built from the "task" entries. */
  lemma {:induction false} TaskEntriesMembers(s: seq<Entry>)
    ensures forall t :: t in TaskEntries(s) <==> exists e :: e in s && IsTask(e) && TaskOf(e) == t
    decreases |s|
  {
    if s != [] {
      var init, last := s[..|s| - 1], s[|s| - 1];
      TaskEntriesMembers(init);
      assert s == init + [last];
      forall t | t in TaskEntries(s)
        ensures exists e :: e in s && IsTask(e) && TaskOf(e) == t
      {
        if t in TaskEntries(init) {
          var e :| e in init && IsTask(e) && TaskOf(e) == t;
          assert e in s;
        } else {
          assert last in s;
        }
      }
    }
  }

  /** The tasks with a start time. */
  lemma {:induction false} WithStartMembers(tasks: seq<TaskConfig>)
    ensures forall t :: t in WithStart(tasks) <==> t in tasks && Given(t.start)
    decreases |tasks|
  {
    if tasks != [] {
      var init, last := tasks[..|tasks| - 1], tasks[|tasks| - 1];
      WithStartMembers(init);
      assert tasks == init + [last];
    }
  }

  /** The tasks with a start time of `ts` whose start today is instant `k`,
      in order. */
  function StartingAt(ts: seq<TaskConfig>, today: int, k: int): seq<TaskConfig>
    decreases |ts|
  {
    if ts == [] then []
    else
      var last := ts[|ts| - 1];
      StartingAt(ts[..|ts| - 1], today, k) + (if TargetTime(last.start, today) == Some(k) then [last] else [])
  }

  /** Every key is its task's start today. */
  predicate KeysMatch(ks: seq<Keyed>, today: int) {
    forall i :: 0 <= i < |ks| ==> TargetTime(ks[i].task.start, today) == Some(ks[i].key)
  }

  lemma {:induction false} TasksOfKeys(ts: seq<TaskConfig>, today: int)
    requires KeysOf(ts, today).Some?
    ensures Tasks(KeysOf(ts, today).value) == ts
    ensures KeysMatch(KeysOf(ts, today).value, today)
  {
    var ks := KeysOf(ts, today).value;
    assert |Tasks(ks)| == |ts|;
    assert forall i :: 0 <= i < |ts| ==> Tasks(ks)[i] == ts[i];
  }

  lemma {:induction false} SortKeysMatch(ks: seq<Keyed>, today: int)
    requires KeysMatch(ks, today)
    ensures KeysMatch(Sort(ks), today)
  {
    SortProps(ks);
    forall i | 0 <= i < |Sort(ks)|
      ensures TargetTime(Sort(ks)[i].task.start, today) == Some(Sort(ks)[i].key)
    {
      var x := Sort(ks)[i];
      assert x in multiset(Sort(ks));
      assert x in multiset(ks);
      var j :| 0 <= j < |ks| && ks[j] == x;
    }
  }

  /** With matching keys, selecting a key commutes with dropping the keys. */
  lemma {:induction false} WithKeyTasks(ks: seq<Keyed>, today: int, k: int)
    requires KeysMatch(ks, today)
    ensures Tasks(WithKey(ks, k)) == StartingAt(Tasks(ks), today, k)
    decreases |ks|
  {
    if ks != [] {
      var init, last := ks[..|ks| - 1], ks[|ks| - 1];
      WithKeyTasks(init, today, k);
      var ts := Tasks(ks);
      assert ts[..|ts| - 1] == Tasks(init);
      assert Tasks(WithKey(init, k) + [last]) == Tasks(WithKey(init, k)) + [last.task];
      assert Tasks(WithKey(init, k) + []) == Tasks(WithKey(init, k));
    }
  }

  /** `sorted_task_queue` is `None` exactly when no task has a start time. */
  lemma NoQueueWithoutStarts(tasks: seq<TaskConfig>, today: int)
    ensures SortedQueue(tasks, today) == Some(None) <==> forall t :: t in tasks ==> !Given(t.start)
  {
    WithStartMembers(tasks);
    if WithStart(tasks) != [] {
      assert WithStart(tasks)[0] in WithStart(tasks);
    }
  }

  /** Building the queue raises exactly when some task's start time does not
      read as a clock time. */
  lemma QueueRaises(tasks: seq<TaskConfig>, today: int)
    ensures SortedQueue(tasks, today).None? <==>
      exists t :: t in tasks && Given(t.start) && TargetTime(t.start, today).None?
  {
    WithStartMembers(tasks);
    var starts := WithStart(tasks);
    if starts != [] && KeysOf(starts, today).Some? {
      var ks := KeysOf(starts, today).value;
      forall t | t in tasks && Given(t.start)
        ensures TargetTime(t.start, today).Some?
      {
        var i :| 0 <= i < |starts| && starts[i] == t;
      }
    }
  }

  /** The queue as the sort of today's keys. */
  lemma QueueIsSort(tasks: seq<TaskConfig>, today: int, q: seq<TaskConfig>)
    requires SortedQueue(tasks, today) == Some(Some(q))
    ensures WithStart(tasks) != [] && KeysOf(WithStart(tasks), today).Some?
    ensures q == Tasks(Sort(KeysOf(WithStart(tasks), today).value))
  {
  }

  /** The queue holds the tasks with a start time, each as often as it
      occurs among the tasks. */
  lemma QueueMembers(tasks: seq<TaskConfig>, today: int, q: seq<TaskConfig>)
    requires SortedQueue(tasks, today) == Some(Some(q))
    ensures q != []
    ensures multiset(q) == multiset(WithStart(tasks))
    ensures forall i :: 0 <= i < |q| ==> Given(q[i].start)
  {
    QueueIsSort(tasks, today, q);
    var starts := WithStart(tasks);
    var ks := KeysOf(starts, today).value;
    TasksOfKeys(starts, today);
    SortTasksMultiset(ks);
    assert starts[0] in multiset(starts);
    forall i | 0 <= i < |q|
      ensures Given(q[i].start)
    {
      assert q[i] in multiset(starts);
      var j :| 0 <= j < |starts| && starts[j] == q[i];
    }
  }

  /** Each queued task comes with its start today as the sort key. */
  lemma QueueKeys(tasks: seq<TaskConfig>, today: int, q: seq<TaskConfig>)
    requires SortedQueue(tasks, today) == Some(Some(q))
    ensures var sorted := Sort(KeysOf(WithStart(tasks), today).value);
      && SortedByKey(sorted) && |q| == |sorted|
      && forall i :: 0 <= i < |q| ==> TargetTime(q[i].start, today) == Some(sorted[i].key)
  {
    QueueIsSort(tasks, today, q);
    var starts := WithStart(tasks);
    var ks := KeysOf(starts, today).value;
    TasksOfKeys(starts, today);
    SortProps(ks);
    SortKeysMatch(ks, today);
  }

  /** The queue is ordered by each task's start today. */
  lemma QueueSorted(tasks: seq<TaskConfig>, today: int, q: seq<TaskConfig>)
    requires SortedQueue(tasks, today) == Some(Some(q))
    ensures forall i :: 0 <= i < |q| ==> TargetTime(q[i].start, today).Some?
    ensures forall i, j :: 0 <= i < j < |q| ==> TargetTime(q[i].start, today).value <= TargetTime(q[j].start, today).value
  {
    QueueKeys(tasks, today, q);
  }

  /** Tasks starting at the same instant keep their original order in the
      queue (`sorted` is stable). */
  lemma QueueStable(tasks: seq<TaskConfig>, today: int, q: seq<TaskConfig>)
    requires SortedQueue(tasks, today) == Some(Some(q))
    ensures forall k :: StartingAt(q, today, k) == StartingAt(WithStart(tasks), today, k)
  {
    QueueIsSort(tasks, today, q);
    var starts := WithStart(tasks);
    var ks := KeysOf(starts, today).value;
    TasksOfKeys(starts, today);
    SortProps(ks);
    SortKeysMatch(ks, today);
    forall k ensures StartingAt(q, today, k) == StartingAt(starts, today, k) {
      WithKeyTasks(ks, today, k);
      WithKeyTasks(Sort(ks), today, k);
    }
  }

  /** The task map holds exactly the names of the tasks. */
  lemma {:induction false} TaskDictKeys(tasks: seq<TaskConfig>)
    ensures forall n :: n in TaskDict(tasks) <==> exists i :: 0 <= i < |tasks| && tasks[i].name == n
    decreases |tasks|
  {
    if tasks != [] {
      var init, last := tasks[..|tasks| - 1], tasks[|tasks| - 1];
      TaskDictKeys(init);
      forall n | n in TaskDict(tasks)
        ensures exists i :: 0 <= i < |tasks| && tasks[i].name == n
      {
        if n != last.name {
          assert n in TaskDict(init);
          var i :| 0 <= i < |init| && init[i].name == n;
          assert tasks[i] == init[i];
        }
      }
      forall n | exists i :: 0 <= i < |tasks| && tasks[i].name == n
        ensures n in TaskDict(tasks)
      {
        var i :| 0 <= i < |tasks| && tasks[i].name == n;
        if i < |init| {
          assert init[i] == tasks[i];
        }
      }
    }
  }

  /** Each name maps to the last task of that name. */
  lemma {:induction false} TaskDictLastWins(tasks: seq<TaskConfig>)
    ensures forall i :: 0 <= i < |tasks| && (forall j :: i < j < |tasks| ==> tasks[j].name != tasks[i].name) ==>
      tasks[i].name in TaskDict(tasks) && TaskDict(tasks)[tasks[i].name] == tasks[i]
    decreases |tasks|
  {
    if tasks != [] {
      var init, last := tasks[..|tasks| - 1], tasks[|tasks| - 1];
      TaskDictLastWins(init);
      forall i | 0 <= i < |tasks| && (forall j :: i < j < |tasks| ==> tasks[j].name != tasks[i].name)
        ensures tasks[i].name in TaskDict(tasks) && TaskDict(tasks)[tasks[i].name] == tasks[i]
      {
        if i < |init| {
          assert tasks[i] == init[i];
          assert forall j :: i < j < |init| ==> init[j] == tasks[j];
          assert tasks[i].name != last.name;
        }
      }
    }
  }

  /** `schedule_tasks()` schedules the queued tasks in order, one call each;
      it stops early only after a task whose scheduling raised or never
      returned, and never goes on past one. */
  lemma ScheduleInOrder(draft: TaskDraft, queue: seq<TaskConfig>, now: int)
    ensures var arms := ScheduleAll(draft, queue, now);
      && |arms| <= |queue|
      && (queue != [] ==> arms != [])
      && (forall i :: 0 <= i < |arms| ==> arms[i] == ScheduleOf(draft, queue[i], now))
      && (forall i :: 0 <= i < |arms| - 1 ==> !Halted(arms[i]))
      && (|arms| < |queue| ==> arms != [] && Halted(arms[|arms| - 1]))
  {
    var all := ArmsOf(draft, queue, now);
    UpToHaltProps(all);
  }

  /** At startup the two later drafts start exactly the programs with
      `run_on_start` that are inside their schedule, in order; the oldest
      starts none. */
  lemma {:induction false} StartupMembers(draft: TaskDraft, programs: seq<Entry>, now: int)
    ensures draft == TaskDraft.Oldest ==> StartupStarts(draft, programs, now) == []
    ensures draft != TaskDraft.Oldest ==>
      forall e :: e in StartupStarts(draft, programs, now) <==> e in programs && DueAtStart(e, now)
    decreases |programs|
  {
    if programs != [] && draft != TaskDraft.Oldest {
      var init, last := programs[..|programs| - 1], programs[|programs| - 1];
      StartupMembers(draft, init, now);
      assert programs == init + [last];
    }
  }

  /** The drafts read the same entries from a JSON object; an unreadable file
      gives none in every draft; a document that is not an object raises in
      the two later drafts and gives none in the oldest. */
  lemma EntriesAcrossDrafts(file: ScheduleFile, h: HashFile, digest: Digest, writable: bool)
    ensures forall d1: TaskDraft, d2: TaskDraft :: file.Document? ==>
      EntriesFor(d1, file, h, digest, writable) == EntriesFor(d2, file, h, digest, writable)
    ensures forall d: TaskDraft :: file.Unreadable? ==> EntriesFor(d, file, h, digest, writable) == Some([])
    ensures forall d: TaskDraft :: file.NotAnObject? ==>
      (EntriesFor(d, file, h, digest, writable).None? <==> d != TaskDraft.Oldest)
    ensures EntriesFor(TaskDraft.Oldest, file, h, digest, writable).Some?
  {
  }
}
