/** What the supervisor's wrappers and monitor pass guarantee, and what the
    retry policy adds up to over many passes. */
module SupervisorProps {
  import opened PyStr
  import opened StatusStore
  import opened Supervisor

  lemma {:induction false} CountAppend(a: seq<Event>, b: seq<Event>, e: Event)
    ensures Count(a + b, e) == Count(a, e) + Count(b, e)
    decreases |b|
  {
    if b == [] {
      assert a + b == a;
    } else {
      var b' := b[..|b| - 1];
      assert (a + b)[..|a + b| - 1] == a + b';
      CountAppend(a, b', e);
    }
  }

  lemma CountOne(x: Event, e: Event)
    ensures Count([x], e) == if x == e then 1 else 0
  {
    assert [x][..0] == [];
  }

  /** `record_start`: the stored pid, if truthy, is killed right before the
      adapter starts; a truthy new pid replaces the whole status with exactly
      the start keys (so "disable_restart" and "last_checkup" are dropped),
      a falsy one leaves the status alone. */
  lemma RecordStartEffects(draft: ProgramDraft, s: Supervision, pid: Value, now: int)
    ensures var r := RecordStartSpec(draft, s, pid, now);
      && r.retries == s.retries && r.loop == s.loop
      && |r.events| > |s.events| && r.events[..|s.events|] == s.events
      && r.events[|r.events| - 1] == Started
      && Count(r.events, Started) == Count(s.events, Started) + 1
      && (StoredPid(ReadModeOf(draft), s.status).None? ==> |r.events| == |s.events| + 1)
      && (StoredPid(ReadModeOf(draft), s.status).Some? ==>
            |r.events| == |s.events| + 2
            && r.events[|s.events|] == Killed(StoredPid(ReadModeOf(draft), s.status).value))
      && (!Truthy(pid) ==> r.status == s.status)
      && (Truthy(pid) ==>
            (&& r.status.Present?
             && r.status.doc["pid"] == pid && r.status.doc["num_retries"] == Int(s.retries)
             && r.status.doc.Keys == (if draft == Oldest then {"pid", "time_started", "num_retries"}
                                      else {"pid", "time_started", "num_retries", "status"})))
  {
    var r := RecordStartSpec(draft, s, pid, now);
    var kill := if StoredPid(ReadModeOf(draft), s.status).Some?
      then [Killed(StoredPid(ReadModeOf(draft), s.status).value)] else [];
    assert r.events == s.events + kill + [Started];
    assert r.events[..|s.events|] == s.events;
    CountAppend(s.events + kill, [Started], Started);
    CountAppend(s.events, kill, Started);
    CountOne(Started, Started);
    if kill != [] {
      CountOne(kill[0], Started);
    }
  }

  /** `record_stop` writes pid 0, so a start that follows kills nothing. */
  lemma StopThenStartKillsNothing(draft: ProgramDraft, s: Supervision, pid: Value, now: int)
    ensures var stopped := RecordStopSpec(draft, s);
      && stopped.retries == s.retries && stopped.loop == s.loop
      && stopped.status.Present? && stopped.status.doc["pid"] == Int(0)
      && stopped.status.doc["time_started"] == Null
      && stopped.status.doc["num_retries"] == Int(s.retries)
      && StoredPid(ReadModeOf(draft), stopped.status) == None
      && RecordStartSpec(draft, stopped, pid, now).events == stopped.events + [Started]
  {
  }

  /** Two starts in a row: the second kills the pid the first one stored. */
  lemma RestartKillsPrevious(draft: ProgramDraft, s: Supervision, first: Value, second: Value, now: int, later: int)
    requires Truthy(first)
    ensures var r := RecordStartSpec(draft, RecordStartSpec(draft, s, first, now), second, later);
      r.events[|r.events| - 2..] == [Killed(first), Started]
  {
    var mid := RecordStartSpec(draft, s, first, now);
    assert StoredPid(ReadModeOf(draft), mid.status) == Some(first);
  }

  /** `disable_restart(flag)` sets that one key of the stored document and
      keeps every other key; it raises (no write) on a corrupt file, on a
      missing file except in the current draft (where the document starts
      empty), and in the oldest draft, which has no such method. */
  lemma DisableRestartEffects(draft: ProgramDraft, f: FileState, flag: bool)
    ensures DisableSpec(draft, f, flag).Some? <==>
      draft != Oldest && (f.Present? || (f.Missing? && draft == Current))
    ensures DisableSpec(draft, f, flag).Some? ==>
      var g := DisableSpec(draft, f, flag).value;
      && g.Present?
      && g.doc.Keys == ReadOrEmpty(ReadModeOf(draft), f).Keys + {"disable_restart"}
      && (forall k :: k in ReadOrEmpty(ReadModeOf(draft), f) && k != "disable_restart" ==>
            g.doc[k] == ReadOrEmpty(ReadModeOf(draft), f)[k])
      && (Disabled(ReadModeOf(draft), g) <==> flag)
  {
  }

  /** A pass that finds the disable flag set writes nothing, starts and stops
      nothing and leaves the retry count alone. */
  lemma DisabledTickIsIdle(draft: ProgramDraft, notify: bool, cfg: ProgramConfig, s: Supervision, o: Observation)
    requires draft != Oldest && Disabled(ReadModeOf(draft), s.status)
    ensures TickSpec(draft, notify, cfg, s, o) == s
  {
  }

  /** Once `disable_restart(True)` has succeeded, any number of passes change
      nothing at all. */
  lemma {:induction false} DisableHaltsSupervision(draft: ProgramDraft, notify: bool, cfg: ProgramConfig,
                                                   s: Supervision, obs: seq<Observation>)
    requires DisableSpec(draft, s.status, true).Some?
    ensures var t := s.(status := DisableSpec(draft, s.status, true).value);
      RunTicks(draft, notify, cfg, t, obs) == t
    decreases |obs|
  {
    var t := s.(status := DisableSpec(draft, s.status, true).value);
    DisableRestartEffects(draft, s.status, true);
    if obs != [] {
      DisabledTickIsIdle(draft, notify, cfg, t, obs[0]);
      StaysIdle(draft, notify, cfg, t, obs[1..]);
    }
  }

  lemma {:induction false} StaysIdle(draft: ProgramDraft, notify: bool, cfg: ProgramConfig,
                                     s: Supervision, obs: seq<Observation>)
    requires draft != Oldest && Disabled(ReadModeOf(draft), s.status)
    ensures RunTicks(draft, notify, cfg, s, obs) == s
    decreases |obs|
  {
    if obs != [] {
      DisabledTickIsIdle(draft, notify, cfg, s, obs[0]);
      StaysIdle(draft, notify, cfg, s, obs[1..]);
    }
  }

  /** Outside the schedule a pass stamps "last_checkup" (not in the oldest
      draft), stops the program only when its handle is alive, never starts
      it, and leaves the retry count and the loop alone. */
  lemma OutsideScheduleTick(draft: ProgramDraft, notify: bool, cfg: ProgramConfig, s: Supervision, o: Observation)
    requires s.loop == Running && (draft == Oldest || !Disabled(ReadModeOf(draft), s.status))
    requires !WithinAt(cfg, o.now)
    ensures var r := TickSpec(draft, notify, cfg, s, o);
      && r.retries == s.retries && r.loop == Running
      && r.events == s.events + (if o.alive then [Stopped] else [])
      && (o.alive ==> r.status == WriteStatus(StopDoc(draft, s.retries)))
      && (!o.alive && draft != Oldest ==> r.status.Present? && r.status.doc["last_checkup"] == Stamp(o.now))
  {
  }

  /** Inside the schedule, a probe that does not ask for a restart resets the
      retry count; one that does, with `keep_alive` off, ends the loop without
      a start. */
  lemma ProbeOutcomes(draft: ProgramDraft, notify: bool, cfg: ProgramConfig, s: Supervision, o: Observation)
    requires s.loop == Running && (draft == Oldest || !Disabled(ReadModeOf(draft), s.status))
    requires WithinAt(cfg, o.now)
    ensures !o.probe ==> TickSpec(draft, notify, cfg, s, o).retries == 0
    ensures !o.probe ==> TickSpec(draft, notify, cfg, s, o).loop == Running
    ensures !o.probe || !cfg.keepAlive ==> TickSpec(draft, notify, cfg, s, o).events == s.events
    ensures o.probe && !cfg.keepAlive ==> TickSpec(draft, notify, cfg, s, o).loop == Ended
    ensures o.probe && cfg.keepAlive ==> TickSpec(draft, notify, cfg, s, o).retries == s.retries + 1
  {
  }

  /** Whether the monitor still reads the program as enabled. */
  predicate Enabled(draft: ProgramDraft, f: FileState) {
    draft == Oldest || !Disabled(ReadModeOf(draft), f)
  }

  /** A restart pass with retries to spare: one more retry, one start, the
      loop goes on (given a defined `notify_restart`), the flag stays clear. */
  lemma TickRestarts(draft: ProgramDraft, cfg: ProgramConfig, s: Supervision, o: Observation)
    requires s.loop == Running && Enabled(draft, s.status)
    requires WithinAt(cfg, o.now) && o.probe && cfg.keepAlive && s.retries < cfg.maxRetries
    ensures var r := TickSpec(draft, true, cfg, s, o);
      && r.loop == Running && r.retries == s.retries + 1 && Enabled(draft, r.status)
      && Count(r.events, Started) == Count(s.events, Started) + 1
      && Count(r.events, NotifiedFailure) == Count(s.events, NotifiedFailure)
  {
    var s1 := s.(status := CheckedUp(draft, s.status, o.now), retries := s.retries + 1);
    CheckUpKeepsEnabled(draft, s.status, o.now);
    assert TickSpec(draft, true, cfg, s, o) == RetrySpec(draft, true, cfg, s1, o);
    RetryRestarts(draft, cfg, s1, o);
  }

  /** Stamping "last_checkup" leaves the disable flag as it was. */
  lemma CheckUpKeepsEnabled(draft: ProgramDraft, f: FileState, now: int)
    requires Enabled(draft, f)
    ensures Enabled(draft, CheckedUp(draft, f, now))
  {
    if draft != Oldest {
      var d := ReadOrEmpty(ReadModeOf(draft), f);
      assert Get(d["last_checkup" := Stamp(now)], "disable_restart", Bool(false)) == Get(d, "disable_restart", Bool(false));
    }
  }

  /** The restart step with retries to spare. */
  lemma RetryRestarts(draft: ProgramDraft, cfg: ProgramConfig, s: Supervision, o: Observation)
    requires Enabled(draft, s.status) && s.retries <= cfg.maxRetries
    ensures var r := RetrySpec(draft, true, cfg, s, o);
      && r.loop == s.loop && r.retries == s.retries && Enabled(draft, r.status)
      && Count(r.events, Started) == Count(s.events, Started) + 1
      && Count(r.events, NotifiedFailure) == Count(s.events, NotifiedFailure)
  {
    var started := RecordStartSpec(draft, s, o.pid, o.now);
    StartKeepsEnabled(draft, s, o.pid, o.now);
    StartCounts(draft, s, o.pid, o.now);
    NoticeCounts(started.events);
  }

  lemma NoticeCounts(events: seq<Event>)
    ensures Count(events + [NotifiedRestart], Started) == Count(events, Started)
    ensures Count(events + [NotifiedRestart], NotifiedFailure) == Count(events, NotifiedFailure)
  {
    assert (events + [NotifiedRestart])[..|events|] == events;
  }

  /** A start never writes "disable_restart", so it cannot disable the program. */
  lemma StartKeepsEnabled(draft: ProgramDraft, s: Supervision, pid: Value, now: int)
    requires Enabled(draft, s.status)
    ensures Enabled(draft, RecordStartSpec(draft, s, pid, now).status)
  {
    if Truthy(pid) && draft != Oldest {
      assert "disable_restart" !in StartDoc(draft, pid, now, s.retries);
    }
  }

  lemma StartCounts(draft: ProgramDraft, s: Supervision, pid: Value, now: int)
    ensures Count(RecordStartSpec(draft, s, pid, now).events, Started) == Count(s.events, Started) + 1
    ensures Count(RecordStartSpec(draft, s, pid, now).events, NotifiedFailure) == Count(s.events, NotifiedFailure)
    ensures Count(RecordStartSpec(draft, s, pid, now).events, NotifiedRestart) == Count(s.events, NotifiedRestart)
  {
    var kill := match StoredPid(ReadModeOf(draft), s.status)
      case None => []
      case Some(p) => [Killed(p)];
    assert RecordStartSpec(draft, s, pid, now).events == (s.events + kill) + [Started];
    assert (s.events + kill + [Started])[..|s.events + kill|] == s.events + kill;
    if kill != [] {
      assert (s.events + kill)[..|s.events|] == s.events;
    } else {
      assert s.events + kill == s.events;
    }
  }

  /** The pass that exceeds `max_retries`: one failure notice, no start, and
      the loop ends. */
  lemma TickGivesUp(draft: ProgramDraft, notify: bool, cfg: ProgramConfig, s: Supervision, o: Observation)
    requires s.loop == Running && Enabled(draft, s.status)
    requires WithinAt(cfg, o.now) && o.probe && cfg.keepAlive && s.retries >= cfg.maxRetries
    ensures var r := TickSpec(draft, notify, cfg, s, o);
      && r.loop == Ended && r.retries == s.retries + 1
      && Count(r.events, Started) == Count(s.events, Started)
      && Count(r.events, NotifiedFailure) == Count(s.events, NotifiedFailure) + 1
  {
    var r := TickSpec(draft, notify, cfg, s, o);
    assert r.events == s.events + [NotifiedFailure];
    CountAppend(s.events, [NotifiedFailure], Started);
    CountAppend(s.events, [NotifiedFailure], NotifiedFailure);
    CountOne(NotifiedFailure, Started);
    CountOne(NotifiedFailure, NotifiedFailure);
  }

  /** The retry policy with `notify_restart` defined: a probe that asks for a
      restart on every pass, starting from `retries` = r <= `max_retries`,
      starts the program exactly `max_retries - r` times, then sends one
      failure notice and ends the loop after `max_retries - r + 1` passes.
      From a fresh program (r = 0) that is exactly `max_retries` starts. */
  lemma {:induction false} RetryPolicy(draft: ProgramDraft, cfg: ProgramConfig, s: Supervision, obs: seq<Observation>)
    requires s.loop == Running && Enabled(draft, s.status)
    requires cfg.keepAlive && 0 <= s.retries <= cfg.maxRetries
    requires |obs| == cfg.maxRetries - s.retries + 1
    requires forall i :: 0 <= i < |obs| ==> obs[i].probe && WithinAt(cfg, obs[i].now)
    ensures var t := RunTicks(draft, true, cfg, s, obs);
      && t.loop == Ended && t.retries == cfg.maxRetries + 1
      && Count(t.events, Started) == Count(s.events, Started) + cfg.maxRetries - s.retries
      && Count(t.events, NotifiedFailure) == Count(s.events, NotifiedFailure) + 1
    decreases |obs|
  {
    var next := TickSpec(draft, true, cfg, s, obs[0]);
    if s.retries == cfg.maxRetries {
      TickGivesUp(draft, true, cfg, s, obs[0]);
      assert obs[1..] == [];
    } else {
      TickRestarts(draft, cfg, s, obs[0]);
      assert forall i :: 0 <= i < |obs[1..]| ==> obs[1..][i] == obs[i + 1];
      RetryPolicy(draft, cfg, next, obs[1..]);
    }
  }

  /** The current draft as written: the first restart pass starts the program
      and then dies calling the undefined `notify_restart`, so the monitor
      never makes a second attempt. */
  lemma RestartCrashes(cfg: ProgramConfig, s: Supervision, o: Observation)
    requires s.loop == Running && Enabled(Current, s.status)
    requires WithinAt(cfg, o.now) && o.probe && cfg.keepAlive && s.retries < cfg.maxRetries
    ensures var r := TickSpec(Current, DefinesNotifyRestart(Current), cfg, s, o);
      && r.loop == Crashed
      && Count(r.events, Started) == Count(s.events, Started) + 1
      && Count(r.events, NotifiedRestart) == Count(s.events, NotifiedRestart)
  {
    var s1 := s.(status := CheckedUp(Current, s.status, o.now), retries := s.retries + 1);
    StartCounts(Current, s1, o.pid, o.now);
  }

  /** The default probe composed with the loop, as written: the probe is
      true when the stored pid is alive, and the loop reads true as "needs a
      restart". So a program whose stored pid is alive is restarted, while one
      whose process has died is counted healthy and never restarted. */
  lemma DefaultProbeInverted(draft: ProgramDraft, notify: bool, cfg: ProgramConfig, s: Supervision,
                             alive: bool, pid: Value, now: int, pidExists: bool)
    requires s.loop == Running && Enabled(draft, s.status)
    requires WithinAt(cfg, now) && cfg.keepAlive
    requires StoredPid(ReadModeOf(draft), s.status).Some?
    ensures var probe := DefaultMonitor(ReadModeOf(draft), CheckedUp(draft, s.status, now), pidExists);
      var r := TickSpec(draft, notify, cfg, s, Observation(alive, probe, pid, now));
      && (pidExists ==> r.retries == s.retries + 1)
      && (!pidExists ==> r.retries == 0 && r.events == s.events && r.loop == Running)
  {
    assert StoredPid(ReadModeOf(draft), CheckedUp(draft, s.status, now)).Some?;
  }

  /** The probe the loop expects: "needs a restart" exactly when no process
      with the stored pid is running. */
  function NeedsRestart(mode: ReadMode, f: FileState, pidExists: bool): bool {
    !DefaultMonitor(mode, f, pidExists)
  }

  /** With the probe answering "needs a restart" for a dead process, a
      running program is left alone and its retry count cleared, while a
      program whose process has died is counted as a restart attempt. */
  lemma CorrectedProbe(draft: ProgramDraft, notify: bool, cfg: ProgramConfig, s: Supervision,
                       alive: bool, pid: Value, now: int, pidExists: bool)
    requires s.loop == Running && Enabled(draft, s.status)
    requires WithinAt(cfg, now) && cfg.keepAlive
    requires StoredPid(ReadModeOf(draft), s.status).Some?
    ensures var probe := NeedsRestart(ReadModeOf(draft), CheckedUp(draft, s.status, now), pidExists);
      var r := TickSpec(draft, notify, cfg, s, Observation(alive, probe, pid, now));
      && (!pidExists ==> r.retries == s.retries + 1)
      && (pidExists ==> r.retries == 0 && r.events == s.events && r.loop == Running)
  {
    assert StoredPid(ReadModeOf(draft), CheckedUp(draft, s.status, now)).Some?;
  }
}
