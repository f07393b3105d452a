/** The program supervisor of the three `BaseProgram` drafts: the
    `record_start` / `record_stop` wrappers around an adapter's start and
    stop, `disable_restart`, and one pass of the `monitor` loop. Starting,
    stopping, killing and e-mail notices are recorded as events; the adapter's
    start result, the process handle's liveness and the monitor probe are
    inputs. */
module Supervisor {
  import opened PyStr
  import opened Clock
  import opened StatusStore
  import opened Job
  import opened TaskCalendar

  /** `processmanager/core/BaseProgram.py` (current),
      `processmanager/core/program_base.py` (standalone) and
      `src/program_base.py` (oldest). */
  datatype ProgramDraft = Current | Standalone | Oldest

  /** The current draft reads through `Job.read_status`; the other two
      return `None` for a missing file. */
  function ReadModeOf(draft: ProgramDraft): ReadMode {
    if draft == Current then MissingIsEmpty else MissingIsNone
  }

  /** Whether the draft defines `notify_restart`: the current draft calls it
      but neither `BaseProgram` nor `Job` defines it. */
  predicate DefinesNotifyRestart(draft: ProgramDraft) {
    draft != Current
  }

  /** A program entry of the schedule document, as `__init__` keeps it. */
  datatype ProgramConfig = ProgramConfig(
    keepAlive: bool,
    maxRetries: int,
    runOnStart: bool,
    startTime: Option<string>,
    start: Option<string>,
    endTime: Option<string>,
    end: Option<string>)

  /** Python's `a or b` on two optional strings. */
  function Either(a: Option<string>, b: Option<string>): Option<string> {
    if Given(a) then a else b
  }

  /** `within_schedule()` of a program at instant `now`: its start and end
      come from "start_time" or "start" and "end_time" or "end". */
  function WithinAt(cfg: ProgramConfig, now: int): bool {
    WithinSchedule(Bound(Either(cfg.startTime, cfg.start)), Bound(Either(cfg.endTime, cfg.end)), TimeOfDay(now))
  }

  datatype Event = Killed(pid: Value) | Started | Stopped | NotifiedRestart | NotifiedFailure

  /** The monitor loop: still looping, left by `break`, or ended by an
      exception. */
  datatype Loop = Running | Ended | Crashed

  /** What the supervisor of one program has done so far. */
  datatype Supervision = Supervision(status: FileState, retries: int, events: seq<Event>, loop: Loop)

  /** `status and status.get("pid", 0)`: the stored pid when it is truthy. */
  function StoredPid(mode: ReadMode, f: FileState): (r: Option<Value>)
    ensures r.Some? ==> Truthy(r.value)
  {
    match ReadStatus(mode, f)
    case None => None
    case Some(d) => if "pid" in d && Truthy(d["pid"]) then Some(d["pid"]) else None
  }

  /** The document `record_start` writes; the oldest draft has no "status". */
  function StartDoc(draft: ProgramDraft, pid: Value, now: int, retries: int): Doc {
    var d := map["pid" := pid, "time_started" := Stamp(now), "num_retries" := Int(retries)];
    if draft == Oldest then d else d["status" := Str("running")]
  }

  /** The document `record_stop` writes; the oldest draft has no "status". */
  function StopDoc(draft: ProgramDraft, retries: int): Doc {
    var d := map["pid" := Int(0), "time_started" := Null, "num_retries" := Int(retries)];
    if draft == Oldest then d else d["status" := Str("stopped")]
  }

  /** `record_start` around an adapter start that returns `pid`: kill the
      stored pid if any, start, and replace the status on a truthy pid. */
  function RecordStartSpec(draft: ProgramDraft, s: Supervision, pid: Value, now: int): Supervision {
    var kill := match StoredPid(ReadModeOf(draft), s.status)
      case None => []
      case Some(p) => [Killed(p)];
    var status := if Truthy(pid) then WriteStatus(StartDoc(draft, pid, now, s.retries)) else s.status;
    s.(status := status, events := s.events + kill + [Started])
  }

  /** `record_stop` around an adapter stop: stop, then replace the status. */
  function RecordStopSpec(draft: ProgramDraft, s: Supervision): Supervision {
    s.(status := WriteStatus(StopDoc(draft, s.retries)), events := s.events + [Stopped])
  }

  /** The "disable_restart" flag as the monitor reads it. */
  predicate Disabled(mode: ReadMode, f: FileState) {
    Truthy(Get(ReadOrEmpty(mode, f), "disable_restart", Bool(false)))
  }

  /** The status file after `disable_restart(flag)`; `None` where it raises:
      no such method in the oldest draft, or no document to update. */
  function DisableSpec(draft: ProgramDraft, f: FileState, flag: bool): Option<FileState> {
    if draft == Oldest then None
    else
      match ReadStatus(ReadModeOf(draft), f)
      case None => None
      case Some(d) => Some(WriteStatus(d["disable_restart" := Bool(flag)]))
  }

  /** The status file once a monitor pass has stamped "last_checkup"; the
      oldest draft does not stamp it. */
  function CheckedUp(draft: ProgramDraft, f: FileState, now: int): FileState {
    if draft == Oldest then f
    else WriteStatus(ReadOrEmpty(ReadModeOf(draft), f)["last_checkup" := Stamp(now)])
  }

  /** What one pass of the loop observes: whether the process handle is
      alive, what the monitor probe answers, the pid the adapter's start
      would return, and the clock. */
  datatype Observation = Observation(alive: bool, probe: bool, pid: Value, now: int)

  /** One pass of `monitor()`. `notify` says whether `notify_restart` exists. */
  function TickSpec(draft: ProgramDraft, notify: bool, cfg: ProgramConfig, s: Supervision, o: Observation): Supervision {
    if s.loop != Running then s
    else if draft != Oldest && Disabled(ReadModeOf(draft), s.status) then s
    else
      Respond(draft, notify, cfg, s.(status := CheckedUp(draft, s.status, o.now)), WithinAt(cfg, o.now), o)
  }

  /** The rest of a pass once "last_checkup" is stamped; `within` is the
      answer of `within_schedule()`. */
  function Respond(draft: ProgramDraft, notify: bool, cfg: ProgramConfig, s: Supervision, within: bool, o: Observation): Supervision {
    if !within then (if o.alive then RecordStopSpec(draft, s) else s)
    else if !o.probe then s.(retries := 0)
    else if !cfg.keepAlive then s.(loop := Ended)
    else RetrySpec(draft, notify, cfg, s.(retries := s.retries + 1), o)
  }

  /** The restart-or-give-up step once `retries` has been incremented. */
  function RetrySpec(draft: ProgramDraft, notify: bool, cfg: ProgramConfig, s: Supervision, o: Observation): Supervision {
    if s.retries <= cfg.maxRetries then
      var started := RecordStartSpec(draft, s, o.pid, o.now);
      if notify then started.(events := started.events + [NotifiedRestart])
      else started.(loop := Crashed)
    else s.(events := s.events + [NotifiedFailure], loop := Ended)
  }

  /** Successive passes of the loop. */
  function RunTicks(draft: ProgramDraft, notify: bool, cfg: ProgramConfig, s: Supervision, obs: seq<Observation>): Supervision
    decreases |obs|
  {
    if obs == [] then s else RunTicks(draft, notify, cfg, TickSpec(draft, notify, cfg, s, obs[0]), obs[1..])
  }

  /** `default_monitor()`: true when the status names a truthy pid and a
      process with that pid exists (`pidExists`, the answer of `os.kill(pid, 0)`). */
  function DefaultMonitor(mode: ReadMode, f: FileState, pidExists: bool): bool {
    StoredPid(mode, f).Some? && pidExists
  }

  /** How often `e` occurs in `events`. */
  function Count(events: seq<Event>, e: Event): nat {
    if events == [] then 0
    else Count(events[..|events| - 1], e) + (if events[|events| - 1] == e then 1 else 0)
  }

  /** A supervised program: its status file, retry counter, event trace and
      loop state. */
  class Program {
    const draft: ProgramDraft
    const notifyRestart: bool
    const cfg: ProgramConfig
    var status: FileState
    var retries: int
    var events: seq<Event>
    var loop: Loop

    function Snapshot(): Supervision
      reads this
    {
      Supervision(status, retries, events, loop)
    }

    /** A program as `__init__` leaves it: no retries yet. `notifyRestart`
        says whether `notify_restart` exists, which it does not in the
        current draft as written. */
    constructor(draft: ProgramDraft, notifyRestart: bool, cfg: ProgramConfig, status: FileState)
      ensures this.draft == draft && this.notifyRestart == notifyRestart && this.cfg == cfg
      ensures Snapshot() == Supervision(status, 0, [], Running)
    {
      this.draft := draft;
      this.notifyRestart := notifyRestart;
      this.cfg := cfg;
      this.status := status;
      this.retries := 0;
      this.events := [];
      this.loop := Running;
    }

    /** `record_start` wrapped around an adapter start returning `pid`. */
    method RecordStart(pid: Value, now: int)
      modifies this
      ensures Snapshot() == RecordStartSpec(draft, old(Snapshot()), pid, now)
    {
      var current := ReadStatus(ReadModeOf(draft), status);
      if current.Some? && "pid" in current.value && Truthy(current.value["pid"]) {
        events := events + [Killed(current.value["pid"])];
      }
      events := events + [Started];
      if Truthy(pid) {
        var doc := map["pid" := pid, "time_started" := Stamp(now), "num_retries" := Int(retries)];
        if draft != Oldest {
          doc := doc["status" := Str("running")];
        }
        status := WriteStatus(doc);
      }
    }

    /** `record_stop` wrapped around an adapter stop. */
    method RecordStop()
      modifies this
      ensures Snapshot() == RecordStopSpec(draft, old(Snapshot()))
    {
      events := events + [Stopped];
      var doc := map["pid" := Int(0), "time_started" := Null, "num_retries" := Int(retries)];
      if draft != Oldest {
        doc := doc["status" := Str("stopped")];
      }
      status := WriteStatus(doc);
    }

    /** `disable_restart(flag)`: read, set one key, write back; `ok` is false
        where the call raises and nothing is written. */
    method DisableRestart(flag: bool) returns (ok: bool)
      modifies this
      ensures ok <==> DisableSpec(draft, old(status), flag).Some?
      ensures ok ==> status == DisableSpec(draft, old(status), flag).value
      ensures !ok ==> status == old(status)
      ensures retries == old(retries) && events == old(events) && loop == old(loop)
    {
      if draft == Oldest {
        return false;
      }
      var current := ReadStatus(ReadModeOf(draft), status);
      if current.None? {
        return false;
      }
      status := WriteStatus(current.value["disable_restart" := Bool(flag)]);
      ok := true;
    }

    /** One pass of `monitor()` at instant `now`; the sleep that ends a pass
        is not modelled. */
    method MonitorTick(alive: bool, probe: bool, pid: Value, now: int)
      modifies this
      ensures Snapshot() == TickSpec(draft, notifyRestart, cfg, old(Snapshot()), Observation(alive, probe, pid, now))
    {
      if loop != Running {
        return;
      }
      if draft != Oldest {
        var current := ReadOrEmpty(ReadModeOf(draft), status);
        if Truthy(Get(current, "disable_restart", Bool(false))) {
          return;
        }
        status := WriteStatus(current["last_checkup" := Stamp(now)]);
      }
      var within := WithinAt(cfg, now);
      Proceed(within, alive, probe, pid, now);
    }

    /** The rest of a pass once "last_checkup" is stamped. */
    method Proceed(within: bool, alive: bool, probe: bool, pid: Value, now: int)
      modifies this
      ensures Snapshot() == Respond(draft, notifyRestart, cfg, old(Snapshot()), within, Observation(alive, probe, pid, now))
    {
      if !within {
        if alive {
          RecordStop();
        }
        return;
      }
      if !probe {
        retries := 0;
        return;
      }
      if !cfg.keepAlive {
        loop := Ended;
        return;
      }
      retries := retries + 1;
      if retries <= cfg.maxRetries {
        RecordStart(pid, now);
        if notifyRestart {
          events := events + [NotifiedRestart];
        } else {
          loop := Crashed;
        }
      } else {
        events := events + [NotifiedFailure];
        loop := Ended;
      }
    }
  }
}
