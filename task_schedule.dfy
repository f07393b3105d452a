/** When a task's timer is armed: `get_next_allowed_date`, `schedule` and the
    rescheduling step that follows a run, for the three task drafts. An armed
    timer is the instant it fires at; `Raises` stands for an exception out of
    the time-string parse (or, rescheduling in the current draft, a frequency
    that does not parse); `Hangs` for the day search that never ends when no
    weekday is allowed; `Idle` for the oldest draft's "no timer at all". */
module TaskSchedule {
  import opened PyStr
  import opened Clock
  import opened TaskCalendar

  /** The three task drafts: `processmanager/core/Task.py` (current),
      `processmanager/core/task.py` (older) and `src/task.py` (oldest). */
  datatype TaskDraft = Current | Older | Oldest

  datatype Arm = Armed(at: int) | Idle | Raises | Hangs

  predicate AllowedOn(allowed: seq<int>, day: int) {
    Weekday(day) in allowed
  }

  predicate HasAllowedWeekday(allowed: seq<int>) {
    exists w :: w in allowed && 0 <= w < 7
  }

  /** Some day among the seven after `day` falls on weekday `w`. */
  lemma WeekCovers(day: int, w: int) returns (k: int)
    requires 0 <= w < 7
    ensures 1 <= k <= 7 && Weekday(day + k) == w
  {
    var q, r := (w - day - 1) / 7, (w - day - 1) % 7;
    k := r + 1;
    assert day + k == w - 7 * q;
  }

  /** The first allowed day among `day + k`, ..., `day + 7`. */
  function Search(day: int, k: int, allowed: seq<int>): (r: Option<int>)
    requires 1 <= k
    ensures r.Some? ==> day + k <= r.value <= day + 7 && AllowedOn(allowed, r.value)
    ensures r.Some? ==> forall d :: day + k <= d < r.value ==> !AllowedOn(allowed, d)
    ensures r.None? ==> forall d :: day + k <= d <= day + 7 ==> !AllowedOn(allowed, d)
    decreases 8 - k
  {
    if k > 7 then None
    else if AllowedOn(allowed, day + k) then Some(day + k)
    else Search(day, k + 1, allowed)
  }

  /** What `get_next_allowed_date(day)` returns: the first day strictly after
      `day` whose weekday is allowed, at most a week ahead; `None` exactly when
      no weekday is allowed, where the Python loop never ends. */
  function NextAllowedDay(day: int, allowed: seq<int>): (r: Option<int>)
    ensures r.Some? <==> HasAllowedWeekday(allowed)
    ensures r.Some? ==> day < r.value <= day + 7 && AllowedOn(allowed, r.value)
    ensures r.Some? ==> forall d :: day < d < r.value ==> !AllowedOn(allowed, d)
  {
    SearchWholeWeek(day, allowed);
    Search(day, 1, allowed)
  }

  /** The search over a whole week fails only when no weekday is allowed. */
  lemma SearchWholeWeek(day: int, allowed: seq<int>)
    ensures Search(day, 1, allowed).None? <==> !HasAllowedWeekday(allowed)
  {
    if Search(day, 1, allowed).None? && HasAllowedWeekday(allowed) {
      var w :| w in allowed && 0 <= w < 7;
      var k := WeekCovers(day, w);
      assert AllowedOn(allowed, day + k);
    }
  }

  /** `get_next_allowed_date`: count days ahead until an allowed weekday. */
  method GetNextAllowedDate(current: int, allowed: seq<int>) returns (next: int)
    requires HasAllowedWeekday(allowed)
    ensures NextAllowedDay(current, allowed) == Some(next)
  {
    var daysAhead := 1;
    while !AllowedOn(allowed, current + daysAhead)
      invariant 1 <= daysAhead <= 7
      invariant Search(current, daysAhead, allowed) == NextAllowedDay(current, allowed)
      decreases 7 - daysAhead
    {
      daysAhead := daysAhead + 1;
    }
    next := current + daysAhead;
  }

  /** The timer that targets the start of the next allowed day after `day`. */
  function NextDayStart(p: Plan, day: int): Arm {
    match NextAllowedDay(day, p.allowed)
    case None => Hangs
    case Some(d) => Armed(WindowOn(p, d).start)
  }

  /** The first instant at or after `now` that lies a whole number of periods
      `f` after `start` (for a positive `f` and `start <= now`). */
  function NextMultiple(start: int, now: int, f: int): int
    requires f != 0
  {
    start + CeilDiv(now - start, f) * f
  }

  /** The choice `schedule` makes once the candidate day is fixed: the next
      multiple of the frequency inside that day's window, the window's start
      when it lies ahead, otherwise the next allowed day's start (the oldest
      draft arms nothing in that last case). */
  function ArmForWindow(draft: TaskDraft, p: Plan, now: int, day: int): Arm {
    var w := WindowOn(p, day);
    var f := FreqUs(p.freq);
    if f.Some? && f.value != 0 && w.start <= now < w.stop then
      var next := NextMultiple(w.start, now, f.value);
      if next > w.stop then NextDayStart(p, day) else Armed(next)
    else if now < w.start then Armed(w.start)
    else if draft == Oldest then Idle
    else NextDayStart(p, day)
  }

  /** The timer `schedule()` arms at instant `now`: today is the candidate
      unless its weekday is not allowed or its window has closed, in which case
      the candidate is the next allowed day. */
  function ScheduleSpec(draft: TaskDraft, p: Plan, now: int): Arm {
    var today := DayOf(now);
    if !AllowedOn(p.allowed, today) || now >= WindowOn(p, today).stop then
      match NextAllowedDay(today, p.allowed)
      case None => Hangs
      case Some(d) => ArmForWindow(draft, p, now, d)
    else ArmForWindow(draft, p, now, today)
  }

  /** `schedule()` of a task: it raises when a time string cannot be read. */
  function ScheduleOf(draft: TaskDraft, cfg: TaskConfig, now: int): Arm {
    match PlanOf(cfg)
    case None => Raises
    case Some(p) => ScheduleSpec(draft, p, now)
  }

  /** `schedule()`, step by step as the drafts write it. */
  method Schedule(draft: TaskDraft, cfg: TaskConfig, now: int) returns (arm: Arm)
    ensures arm == ScheduleOf(draft, cfg, now)
  {
    var allowed := AllowedDays(cfg.days);
    var candidate := DayOf(now);
    var window := DayWindow(cfg, candidate);
    if window.None? {
      return Raises;
    }
    ghost var p := PlanOf(cfg).value;
    PlanReadsAs(cfg);
    if !AllowedOn(allowed, candidate) || now >= window.value.stop {
      if !HasAllowedWeekday(allowed) {
        return Hangs;
      }
      candidate := GetNextAllowedDate(DayOf(now), allowed);
      window := DayWindow(cfg, candidate);
    }
    var freq := FreqUs(FreqOf(cfg));
    RollOverOfPlan(cfg, p, candidate);
    arm := ChooseRun(draft, cfg, p, freq, now, candidate, window.value);
  }

  /** The tail of `schedule()` once the candidate day and its window are fixed. */
  method ChooseRun(draft: TaskDraft, cfg: TaskConfig, ghost p: Plan, freq: Option<int>, now: int, day: int, w: Window)
    returns (arm: Arm)
    requires freq == FreqUs(p.freq) && w == WindowOn(p, day)
    requires RollOverOf(cfg, day) == NextDayStart(p, day)
    ensures arm == ArmForWindow(draft, p, now, day)
  {
    var start, stop := w.start, w.stop;
    var nextRun: int;
    if freq.Some? && freq.value != 0 && start <= now < stop {
      nextRun := NextMultiple(start, now, freq.value);
      if nextRun > stop {
        arm := RollOver(cfg, day);
        return;
      }
    } else if now < start {
      nextRun := start;
    } else if draft == Oldest {
      return Idle;
    } else {
      arm := RollOver(cfg, day);
      return;
    }
    arm := Armed(nextRun);
  }

  /** Moving on from `day` as the task's strings read: the start of the next
      allowed day, raising where that day's window cannot be read. */
  function RollOverOf(cfg: TaskConfig, day: int): Arm {
    match NextAllowedDay(day, AllowedDays(cfg.days))
    case None => Hangs
    case Some(d) => if DayWindow(cfg, d).None? then Raises else Armed(DayWindow(cfg, d).value.start)
  }

  /** A task whose strings read as plan `p` rolls over to the plan's next day. */
  lemma RollOverOfPlan(cfg: TaskConfig, p: Plan, day: int)
    requires ReadsAs(cfg, p)
    ensures RollOverOf(cfg, day) == NextDayStart(p, day)
  {
  }

  /** Move to the next allowed day after `day` and target its start. */
  method RollOver(cfg: TaskConfig, day: int) returns (arm: Arm)
    ensures arm == RollOverOf(cfg, day)
  {
    var allowed := AllowedDays(cfg.days);
    if !HasAllowedWeekday(allowed) {
      return Hangs;
    }
    var candidate := GetNextAllowedDate(day, allowed);
    var window := DayWindow(cfg, candidate);
    if window.None? {
      return Raises;
    }
    arm := Armed(window.value.start);
  }

  /** Whether the frequency makes the oldest draft reschedule at all. */
  predicate NonZeroFreq(f: Freq) {
    f.Every? && f.seconds != 0
  }

  /** The timer the rescheduling step after a run arms at instant `now`.
      With a frequency: `now + f`, or the next allowed day's start once the
      window has closed or `now + f` passes its stop. Without one: today's
      start if it lies ahead (today's weekday is not checked), otherwise the
      next allowed day's start. The drafts differ on a frequency that is
      missing, zero or unparsable. */
  function RescheduleSpec(draft: TaskDraft, p: Plan, now: int): Arm {
    var today := DayOf(now);
    var w := WindowOn(p, today);
    if draft == Oldest && !NonZeroFreq(p.freq) then Idle
    else
      match p.freq
      case NoFreq => if now >= w.start then NextDayStart(p, today) else Armed(w.start)
      case BadFreq => Raises
      case Every(n) =>
        if draft == Older && n == 0 then Raises
        else
          var next := now + SecondsUs(n);
          if now >= w.stop || next > w.stop then NextDayStart(p, today) else Armed(next)
  }

  /** The rescheduling step of a task; the oldest draft looks at the
      frequency before it reads any time string. */
  function RescheduleOf(draft: TaskDraft, cfg: TaskConfig, now: int): Arm {
    if draft == Oldest && !NonZeroFreq(FreqOf(cfg)) then Idle
    else
      match PlanOf(cfg)
      case None => Raises
      case Some(p) => RescheduleSpec(draft, p, now)
  }

  /** The rescheduling step after a run (`_schedule_next_run` in the current
      draft, the tail of `run` in the two older ones). */
  method Reschedule(draft: TaskDraft, cfg: TaskConfig, now: int) returns (arm: Arm)
    ensures arm == RescheduleOf(draft, cfg, now)
  {
    var f: Option<int> := None;
    if Given(cfg.freq) {
      f := ParseSuffixFrequency(cfg.freq.value);
    }
    if draft == Oldest && (f.None? || f.value == 0) {
      return Idle;
    }
    var window := DayWindow(cfg, DayOf(now));
    DayWindowOfPlan(cfg, DayOf(now));
    if window.None? {
      return Raises;
    }
    ghost var p := PlanOf(cfg).value;
    PlanReadsAs(cfg);
    RollOverOfPlan(cfg, p, DayOf(now));
    arm := Rearm(draft, cfg, p, Given(cfg.freq), f, now, DayOf(now), window.value);
  }

  /** The tail of the rescheduling step once today's window is read. */
  method Rearm(draft: TaskDraft, cfg: TaskConfig, ghost p: Plan, given: bool, f: Option<int>, now: int, today: int, w: Window)
    returns (arm: Arm)
    requires today == DayOf(now) && w == WindowOn(p, today)
    requires p.freq == if !given then NoFreq else if f.None? then BadFreq else Every(f.value)
    requires !(draft == Oldest && !NonZeroFreq(p.freq))
    requires RollOverOf(cfg, today) == NextDayStart(p, today)
    ensures arm == RescheduleSpec(draft, p, now)
  {
    var start, stop := w.start, w.stop;
    if given {
      if f.None? || (draft == Older && f.value == 0) {
        return Raises;
      }
      var nextRun := now + SecondsUs(f.value);
      if now >= stop || nextRun > stop {
        arm := RollOver(cfg, today);
      } else {
        arm := Armed(nextRun);
      }
    } else if now >= start {
      arm := RollOver(cfg, today);
    } else {
      arm := Armed(start);
    }
  }
}
