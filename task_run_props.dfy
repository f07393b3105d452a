/** What a run of a task leaves behind: the one status key it stamps, the
    order in which dependents are dispatched, and what stops the dispatch. */
module TaskRunProps {
  import opened PyStr
  import opened StatusStore
  import opened TaskCalendar
  import opened TaskSchedule
  import opened TaskRun
  import TaskScheduleProps

  /** Rescheduling and dispatching never touch the status or output files. */
  lemma AfterRunKeepsFiles(draft: TaskDraft, asWritten: bool, cfg: TaskConfig, registry: Registry, s: TaskState, now: int)
    ensures var r := AfterRun(draft, asWritten, cfg, registry, s, now);
      r.state.status == s.status && r.state.output == s.output
  {
  }

  /** The worker's status update: no log file, nothing happens; a spawn that
      raises or an unreadable status document ends the worker before
      anything is written; otherwise exactly one key is stamped with the
      finishing instant, "last-ran" for exit code 0 and "last-err" for every
      other outcome, and every other key is kept. */
  lemma WorkerStatusUpdate(asWritten: bool, cfg: TaskConfig, registry: Registry, s: TaskState,
                           logOpens: bool, spawns: bool, exit: Option<int>, now: int)
    ensures !logOpens ==> WorkerSpec(asWritten, cfg, registry, s, logOpens, spawns, exit, now) == Run(s, Finished)
    ensures logOpens && (!spawns || s.status.Corrupt?) ==>
      WorkerSpec(asWritten, cfg, registry, s, logOpens, spawns, exit, now) == Run(s, Raised)
    ensures logOpens && spawns && !s.status.Corrupt? ==>
      var d := ReadOrEmpty(MissingIsEmpty, s.status);
      var key := if exit == Some(0) then "last-ran" else "last-err";
      var other := if exit == Some(0) then "last-err" else "last-ran";
      var r := WorkerSpec(asWritten, cfg, registry, s, logOpens, spawns, exit, now);
      && r.state.status.Present?
      && r.state.status.doc.Keys == d.Keys + {key}
      && r.state.status.doc[key] == Stamp(now)
      && (other in r.state.status.doc <==> other in d)
      && (forall k :: k in d && k != key ==> r.state.status.doc[k] == d[k])
  {
    if logOpens && spawns && !s.status.Corrupt? {
      var d := ReadOrEmpty(MissingIsEmpty, s.status);
      var f := WriteStatus(d[StatusKey(exit) := Stamp(now)]);
      assert RecordOutcome(s.status, exit, now) == Some(f);
      AfterRunKeepsFiles(Current, asWritten, cfg, registry, s.(status := f), now);
    }
  }

  /** A rescheduling step that raises or never returns ends the run before
      any dependent is dispatched. */
  lemma RescheduleFailureStopsDependents(draft: TaskDraft, asWritten: bool, cfg: TaskConfig, registry: Registry,
                                         s: TaskState, now: int)
    requires RescheduleOf(draft, cfg, now).Raises? || RescheduleOf(draft, cfg, now).Hangs?
    ensures AfterRun(draft, asWritten, cfg, registry, s, now).state == s
    ensures AfterRun(draft, asWritten, cfg, registry, s, now).ending != Finished
  {
  }

  /** The dependents are dispatched in list order, each by its own lookup: a
      name missing from the registry is logged and the loop goes on, a task
      without a start time runs at once, one with a start time is scheduled.
      The loop stops early only at a dependent whose `schedule()` raises or
      never returns. */
  lemma {:induction false} DispatchesInOrder(draft: TaskDraft, registry: Registry, deps: seq<string>, now: int)
    ensures var ds := DispatchesOf(draft, registry, deps, now);
      && |ds| <= |deps|
      && (forall i :: 0 <= i < |ds| ==> ds[i] == DispatchOne(draft, registry, deps[i], now))
      && (forall i :: 0 <= i < |ds| - 1 ==> !Halts(ds[i]))
      && (|ds| < |deps| ==> ds != [] && Halts(ds[|ds| - 1]))
    decreases |deps|
  {
    if deps != [] {
      var d := DispatchOne(draft, registry, deps[0], now);
      if !Halts(d) {
        DispatchesInOrder(draft, registry, deps[1..], now);
        var rest := DispatchesOf(draft, registry, deps[1..], now);
        assert DispatchesOf(draft, registry, deps, now) == [d] + rest;
        forall i | 1 <= i < |rest| + 1
          ensures ([d] + rest)[i] == DispatchOne(draft, registry, deps[i], now)
        {
          assert ([d] + rest)[i] == rest[i - 1];
          assert deps[1..][i - 1] == deps[i];
        }
      }
    }
  }

  /** When no dependent's scheduling fails, every dependent is dispatched
      exactly once, in order, and the run finishes normally. */
  lemma {:induction false} AllDependentsDispatched(draft: TaskDraft, registry: Registry, deps: seq<string>, now: int)
    requires forall i :: 0 <= i < |deps| ==> !Halts(DispatchOne(draft, registry, deps[i], now))
    ensures |DispatchesOf(draft, registry, deps, now)| == |deps|
    ensures EndingOf(DispatchesOf(draft, registry, deps, now)) == Finished
    ensures forall i :: 0 <= i < |deps| ==>
      DispatchesOf(draft, registry, deps, now)[i].name == deps[i]
  {
    DispatchesInOrder(draft, registry, deps, now);
    var ds := DispatchesOf(draft, registry, deps, now);
    if ds != [] {
      assert !Halts(DispatchOne(draft, registry, deps[|ds| - 1], now));
    }
  }

  /** The two newer drafts as written: once the task has been rescheduled,
      with its timer left armed, a non-empty `run_on_complete` ends the run
      with an exception on the first dependent and nothing is dispatched;
      looked up in a registry, the first dependent is dispatched. */
  lemma DependentsAsWrittenCrash(draft: TaskDraft, cfg: TaskConfig, registry: Registry, s: TaskState, now: int)
    requires draft != Oldest
    requires RescheduleOf(draft, cfg, now).Armed? || RescheduleOf(draft, cfg, now).Idle?
    requires cfg.runOnComplete != []
    ensures AfterRun(draft, true, cfg, registry, s, now).ending == Raised
    ensures AfterRun(draft, true, cfg, registry, s, now).state.dispatched == s.dispatched
    ensures AfterRun(draft, true, cfg, registry, s, now).state.timers ==
      s.timers + (if RescheduleOf(draft, cfg, now).Armed? then [RescheduleOf(draft, cfg, now).at] else [])
    ensures var r := AfterRun(draft, false, cfg, registry, s, now);
      && |r.state.dispatched| > |s.dispatched|
      && r.state.dispatched[|s.dispatched|] == DispatchOne(draft, registry, cfg.runOnComplete[0], now)
  {
    var ds := DispatchesOf(draft, registry, cfg.runOnComplete, now);
    DispatchesInOrder(draft, registry, cfg.runOnComplete, now);
    assert |ds| > 0;
  }

  /** `run` of the older draft as written: whatever the task function did,
      a rescheduled task with dependents ends in the exception that reading
      `Scheduler.instance` raises, after its output was appended and its
      timer armed; with the registry lookup the first dependent is
      dispatched instead. */
  lemma OlderRunAsWrittenCrash(cfg: TaskConfig, registry: Registry, s: TaskState, printed: Option<string>, now: int)
    requires RescheduleOf(Older, cfg, now).Armed? || RescheduleOf(Older, cfg, now).Idle?
    requires cfg.runOnComplete != []
    ensures var r := RunSpec(Older, true, cfg, registry, s, printed, now);
      && r.ending == Raised
      && r.state.dispatched == s.dispatched
      && r.state.output == (if printed.Some? then s.output + printed.value else s.output)
      && |r.state.timers| == |s.timers| + (if RescheduleOf(Older, cfg, now).Armed? then 1 else 0)
    ensures var r := RunSpec(Older, false, cfg, registry, s, printed, now);
      && |r.state.dispatched| > |s.dispatched|
      && r.state.dispatched[|s.dispatched|] == DispatchOne(Older, registry, cfg.runOnComplete[0], now)
  {
    var s1 := if printed.Some? && printed.value != [] then s.(output := s.output + printed.value) else s;
    DependentsAsWrittenCrash(Older, cfg, registry, s1, now);
    AfterRunKeepsFiles(Older, true, cfg, registry, s1, now);
    if printed.Some? && printed.value == [] {
      assert s.output + printed.value == s.output;
    }
  }

  /** The oldest draft reschedules only with a non-zero parsed frequency, and
      dispatches its dependents either way. */
  lemma OldestRunDispatches(asWritten: bool, cfg: TaskConfig, registry: Registry, s: TaskState, printed: Option<string>, now: int)
    requires !NonZeroFreq(FreqOf(cfg))
    ensures var r := RunSpec(Oldest, asWritten, cfg, registry, s, printed, now);
      && r.state.timers == s.timers
      && r.state.dispatched == s.dispatched + DispatchesOf(Oldest, registry, cfg.runOnComplete, now)
      && r.state.output == s.output
  {
  }

  /** The older draft appends what the task function printed to its output
      file, and only when it returned and printed something; the oldest draft
      only logs it. */
  lemma RunOutput(draft: TaskDraft, asWritten: bool, cfg: TaskConfig, registry: Registry, s: TaskState, printed: Option<string>, now: int)
    requires draft != Current
    ensures RunSpec(draft, asWritten, cfg, registry, s, printed, now).state.output ==
      if draft == Older && printed.Some? then s.output + printed.value else s.output
  {
    var s1 := if draft == Older && printed.Some? && printed.value != [] then s.(output := s.output + printed.value) else s;
    AfterRunKeepsFiles(draft, asWritten, cfg, registry, s1, now);
    if draft == Older && printed.Some? && printed.value == [] {
      assert s.output + printed.value == s.output;
    }
  }

  /** The timer a run arms is strictly in the future when the task's
      frequency, if any, is positive. */
  lemma RunTimerInFuture(draft: TaskDraft, asWritten: bool, cfg: TaskConfig, registry: Registry, s: TaskState, now: int)
    requires FreqOf(cfg).NoFreq? || (FreqOf(cfg).Every? && FreqOf(cfg).seconds > 0)
    ensures var r := AfterRun(draft, asWritten, cfg, registry, s, now);
      |r.state.timers| <= |s.timers| + 1
      && r.state.timers[..|s.timers|] == s.timers
      && (|r.state.timers| > |s.timers| ==> r.state.timers[|s.timers|] > now)
  {
    if RescheduleOf(draft, cfg, now).Armed? {
      var p := PlanOf(cfg).value;
      PlanReadsAs(cfg);
      TaskScheduleProps.RescheduleAfterNow(draft, p, now);
    }
  }
}
