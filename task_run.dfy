/** What a task does once it has run: the status update of the current draft's
    worker, the rescheduling step, and the dispatch of the tasks named in
    `run_on_complete`. Running the task itself (a subprocess or a function
    call) is an input: its exit code, or the output it printed. */
module TaskRun {
  import opened PyStr
  import opened StatusStore
  import opened TaskCalendar
  import opened TaskSchedule

  /** What became of one dependent: started at once on a thread (no start
      time), scheduled (with the timer that `schedule()` armed), or not found
      and logged. */
  datatype Dispatch = RanNow(name: string) | Scheduled(name: string, arm: Arm) | NotFound(name: string)

  /** How a run ends: normally, by an exception out of the run, or in a day
      search that never returns. */
  datatype Ending = Finished | Raised | Hung

  /** What a task object has done so far: its status file, the output file of
      the older draft, the instants its timers were armed for, and its
      dispatches. */
  datatype TaskState = TaskState(status: FileState, output: string, timers: seq<int>, dispatched: seq<Dispatch>)

  datatype Run = Run(state: TaskState, ending: Ending)

  /** The name → task map the dependents are looked up in. */
  type Registry = map<Option<string>, TaskConfig>

  /** The status key a finished subprocess stamps: "last-ran" for exit code 0,
      "last-err" for any other code and for a wait that raised. */
  function StatusKey(exit: Option<int>): (key: string)
    ensures key == "last-ran" <==> exit == Some(0)
    ensures key == "last-ran" || key == "last-err"
  {
    if exit == Some(0) then "last-ran" else "last-err"
  }

  /** The worker's read-modify-write of the status document; `None` where the
      read gives `None` and the item assignment raises. */
  function RecordOutcome(f: FileState, exit: Option<int>, now: int): Option<FileState> {
    match ReadStatus(MissingIsEmpty, f)
    case None => None
    case Some(d) => Some(WriteStatus(d[StatusKey(exit) := Stamp(now)]))
  }

  /** One dependent, looked up in the registry. */
  function DispatchOne(draft: TaskDraft, registry: Registry, dep: string, now: int): (d: Dispatch)
    ensures d.name == dep
    ensures d.NotFound? <==> Some(dep) !in registry
    ensures d.RanNow? <==> Some(dep) in registry && !Given(registry[Some(dep)].start)
    ensures d.Scheduled? ==> d.arm == ScheduleOf(draft, registry[Some(dep)], now)
  {
    if Some(dep) !in registry then NotFound(dep)
    else if !Given(registry[Some(dep)].start) then RanNow(dep)
    else Scheduled(dep, ScheduleOf(draft, registry[Some(dep)], now))
  }

  /** A dispatch that ends the loop: a `schedule()` that raised or never
      returned. */
  predicate Halts(d: Dispatch) {
    d.Scheduled? && (d.arm.Raises? || d.arm.Hangs?)
  }

  /** The dependents in list order, up to and including the first one whose
      scheduling halts. */
  function DispatchesOf(draft: TaskDraft, registry: Registry, deps: seq<string>, now: int): seq<Dispatch>
    decreases |deps|
  {
    if deps == [] then []
    else
      var d := DispatchOne(draft, registry, deps[0], now);
      if Halts(d) then [d] else [d] + DispatchesOf(draft, registry, deps[1..], now)
  }

  /** How the dependent loop ends, given what it dispatched. */
  function EndingOf(ds: seq<Dispatch>): Ending {
    if ds != [] && Halts(ds[|ds| - 1]) then
      (if ds[|ds| - 1].arm.Raises? then Raised else Hung)
    else Finished
  }

  /** The rescheduling step, then the dependents. As written (`asWritten`),
      the lookup of the two newer drafts cannot succeed, so the first
      dependent always ends the run with an exception: the current draft's
      `get_job_sched` returns the schedule dictionary or raises, and the older
      draft reads `Scheduler.instance`, which its scheduler never defines.
      The oldest draft looks its dependents up in a registry that exists. */
  function AfterRun(draft: TaskDraft, asWritten: bool, cfg: TaskConfig, registry: Registry, s: TaskState, now: int): Run {
    match RescheduleOf(draft, cfg, now)
    case Raises => Run(s, Raised)
    case Hangs => Run(s, Hung)
    case Idle => Dependents(draft, asWritten, cfg, registry, s, now)
    case Armed(t) => Dependents(draft, asWritten, cfg, registry, s.(timers := s.timers + [t]), now)
  }

  function Dependents(draft: TaskDraft, asWritten: bool, cfg: TaskConfig, registry: Registry, s: TaskState, now: int): Run {
    if asWritten && draft != Oldest then
      Run(s, if cfg.runOnComplete == [] then Finished else Raised)
    else
      var ds := DispatchesOf(draft, registry, cfg.runOnComplete, now);
      Run(s.(dispatched := s.dispatched + ds), EndingOf(ds))
  }

  /** The current draft's worker: nothing happens when the log file cannot be
      opened; a `Popen` that raises (it sits outside any `try`) ends the
      worker before the status is read; otherwise the status is stamped, the
      task rescheduled and the dependents dispatched. */
  function WorkerSpec(asWritten: bool, cfg: TaskConfig, registry: Registry, s: TaskState,
                      logOpens: bool, spawns: bool, exit: Option<int>, now: int): Run {
    if !logOpens then Run(s, Finished)
    else if !spawns then Run(s, Raised)
    else
      match RecordOutcome(s.status, exit, now)
      case None => Run(s, Raised)
      case Some(f) => AfterRun(Current, asWritten, cfg, registry, s.(status := f), now)
  }

  /** `run` of the two older drafts: the task function either raises (`None`,
      caught and logged) or returns having printed `printed`; the older draft
      appends non-empty output to its output file. */
  function RunSpec(draft: TaskDraft, asWritten: bool, cfg: TaskConfig, registry: Registry, s: TaskState,
                   printed: Option<string>, now: int): Run
    requires draft != Current
  {
    var s1 := if draft == Older && printed.Some? && printed.value != [] then s.(output := s.output + printed.value) else s;
    AfterRun(draft, asWritten, cfg, registry, s1, now)
  }

  /** The dependent loop as the drafts write it, with the registry lookup. */
  method TriggerDependents(draft: TaskDraft, registry: Registry, deps: seq<string>, now: int)
    returns (ds: seq<Dispatch>)
    ensures ds == DispatchesOf(draft, registry, deps, now)
  {
    ds := [];
    var i := 0;
    while i < |deps|
      invariant 0 <= i <= |deps|
      invariant DispatchesOf(draft, registry, deps, now) == ds + DispatchesOf(draft, registry, deps[i..], now)
      decreases |deps| - i
    {
      var d := DispatchStep(draft, registry, deps[i], now);
      DispatchesStep(draft, registry, deps[i..], now);
      assert deps[i..][1..] == deps[i + 1..];
      if Halts(d) {
        return ds + [d];
      }
      ds := ds + [d];
      i := i + 1;
    }
  }

  /** One step of `DispatchesOf`. */
  lemma DispatchesStep(draft: TaskDraft, registry: Registry, deps: seq<string>, now: int)
    requires deps != []
    ensures var d := DispatchOne(draft, registry, deps[0], now);
      DispatchesOf(draft, registry, deps, now) == if Halts(d) then [d] else [d] + DispatchesOf(draft, registry, deps[1..], now)
  {
  }

  /** The body of the dependent loop for one name. */
  method DispatchStep(draft: TaskDraft, registry: Registry, dep: string, now: int) returns (d: Dispatch)
    ensures d == DispatchOne(draft, registry, dep, now)
  {
    if Some(dep) !in registry {
      d := NotFound(dep);
    } else if !Given(registry[Some(dep)].start) {
      d := RanNow(dep);
    } else {
      var arm := Schedule(draft, registry[Some(dep)], now);
      d := Scheduled(dep, arm);
    }
  }

  /** A task object of one of the drafts, with what it has done so far. */
  class Task {
    const draft: TaskDraft
    const cfg: TaskConfig
    var status: FileState
    var output: string
    var timers: seq<int>
    var dispatched: seq<Dispatch>

    function State(): TaskState
      reads this
    {
      TaskState(status, output, timers, dispatched)
    }

    constructor(draft: TaskDraft, cfg: TaskConfig, status: FileState)
      ensures this.draft == draft && this.cfg == cfg
      ensures State() == TaskState(status, [], [], [])
    {
      this.draft := draft;
      this.cfg := cfg;
      this.status := status;
      this.output := [];
      this.timers := [];
      this.dispatched := [];
    }

    /** The current draft's worker: `logOpens` says whether the log file
        opened, `spawns` whether `Popen` returned, `exit` is the wait's exit
        code (`None` when the wait raised). `asWritten` selects the dependent lookup as
        the draft writes it rather than through `registry`. */
    method RunWorker(asWritten: bool, registry: Registry, logOpens: bool, spawns: bool, exit: Option<int>, now: int)
      returns (ending: Ending)
      requires draft == Current
      modifies this
      ensures Run(State(), ending) == WorkerSpec(asWritten, cfg, registry, old(State()), logOpens, spawns, exit, now)
    {
      if !logOpens {
        return Finished;
      }
      if !spawns {
        return Raised;
      }
      var current := ReadStatus(MissingIsEmpty, status);
      if current.None? {
        return Raised;
      }
      var key := if exit == Some(0) then "last-ran" else "last-err";
      status := WriteStatus(current.value[key := Stamp(now)]);
      ending := Finish(asWritten, registry, now);
    }

    /** `run` of the older drafts after the task function; `asWritten`
        selects the older draft's dependent lookup as written. */
    method RunOlder(asWritten: bool, registry: Registry, printed: Option<string>, now: int) returns (ending: Ending)
      requires draft != Current
      modifies this
      ensures Run(State(), ending) == RunSpec(draft, asWritten, cfg, registry, old(State()), printed, now)
    {
      if draft == Older && printed.Some? && printed.value != [] {
        output := output + printed.value;
      }
      ending := Finish(asWritten, registry, now);
    }

    /** Reschedule, then dispatch the dependents. */
    method Finish(asWritten: bool, registry: Registry, now: int) returns (ending: Ending)
      modifies this
      ensures Run(State(), ending) == AfterRun(draft, asWritten, cfg, registry, old(State()), now)
    {
      var arm := Reschedule(draft, cfg, now);
      match arm {
        case Raises => return Raised;
        case Hangs => return Hung;
        case Idle =>
        case Armed(t) => timers := timers + [t];
      }
      if asWritten && draft != Oldest {
        return if cfg.runOnComplete == [] then Finished else Raised;
      }
      var ds := TriggerDependents(draft, registry, cfg.runOnComplete, now);
      dispatched := dispatched + ds;
      ending := EndingOf(ds);
    }
  }
}
