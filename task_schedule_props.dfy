/** What the task timer promises: it never fires in the past (for a
    non-negative frequency), always on an allowed weekday, at the next multiple
    of the frequency inside the window, and it raises or hangs only for a bad
    time string or an empty weekday list. */
module TaskScheduleProps {
  import opened PyStr
  import opened Clock
  import opened TaskCalendar
  import opened TaskSchedule

  /** Rolling over lands at the window start of the first allowed day after
      `day`, at most a week later. */
  lemma NextDayStartIsLater(p: Plan, day: int)
    requires ValidPlan(p)
    ensures NextDayStart(p, day).Hangs? <==> !HasAllowedWeekday(p.allowed)
    ensures !NextDayStart(p, day).Raises? && !NextDayStart(p, day).Idle?
    ensures NextDayStart(p, day).Armed? ==>
      var t := NextDayStart(p, day).at;
      day < DayOf(t) <= day + 7 && AllowedOn(p.allowed, DayOf(t))
      && (forall d :: day < d < DayOf(t) ==> !AllowedOn(p.allowed, d))
      && TimeOfDay(t) == p.startTod && At(day + 1, 0) <= t
  {
    var next := NextAllowedDay(day, p.allowed);
    if next.Some? {
      var d := next.value;
      AtDay(d, p.startTod);
      assert At(day + 1, 0) <= At(d, 0);
    }
  }

  /** On a readable plan `schedule()` never raises, hangs exactly when no
      weekday is allowed, and only the oldest draft can leave the task without
      a timer. */
  lemma ScheduleOutcomes(draft: TaskDraft, p: Plan, now: int)
    requires ValidPlan(p)
    ensures !ScheduleSpec(draft, p, now).Raises?
    ensures ScheduleSpec(draft, p, now).Hangs? <==> !HasAllowedWeekday(p.allowed)
    ensures ScheduleSpec(draft, p, now).Idle? ==> draft == Oldest
  {
    var today := DayOf(now);
    NextDayStartIsLater(p, today);
    if !HasAllowedWeekday(p.allowed) {
      assert !AllowedOn(p.allowed, today) by {
        assert 0 <= Weekday(today) < 7;
      }
    } else if !AllowedOn(p.allowed, today) || now >= WindowOn(p, today).stop {
      NextDayStartIsLater(p, NextAllowedDay(today, p.allowed).value);
    }
  }

  /** `schedule()` raises exactly when a time string of the task cannot be
      read, and hangs exactly when no weekday is allowed. */
  lemma ScheduleFailures(draft: TaskDraft, cfg: TaskConfig, now: int)
    ensures ScheduleOf(draft, cfg, now).Raises? <==> PlanOf(cfg).None?
    ensures ScheduleOf(draft, cfg, now).Hangs? <==>
      PlanOf(cfg).Some? && !HasAllowedWeekday(AllowedDays(cfg.days))
    ensures ScheduleOf(draft, cfg, now).Idle? ==> draft == Oldest
  {
    if PlanOf(cfg).Some? {
      PlanReadsAs(cfg);
      ScheduleOutcomes(draft, PlanOf(cfg).value, now);
    }
  }

  predicate NonNegativeFreq(f: Freq) {
    f.Every? ==> f.seconds >= 0
  }

  /** Inside the window with a positive frequency, the next run is the first
      multiple of the frequency counted from the window's start that is not
      before `now`: `now <= next < now + f`. It is kept when it does not pass
      the stop time and otherwise becomes the next allowed day's start. */
  lemma ScheduleInWindow(draft: TaskDraft, p: Plan, now: int)
    requires FreqUs(p.freq).Some? && FreqUs(p.freq).value > 0
    requires AllowedOn(p.allowed, DayOf(now))
    requires WindowOn(p, DayOf(now)).start <= now < WindowOn(p, DayOf(now)).stop
    ensures var w := WindowOn(p, DayOf(now));
      var f := FreqUs(p.freq).value;
      var next := NextMultiple(w.start, now, f);
      now <= next < now + f
      && (next == now <==> (now - w.start) % f == 0)
      && ScheduleSpec(draft, p, now) == if next > w.stop then NextDayStart(p, DayOf(now)) else Armed(next)
  {
    var w := WindowOn(p, DayOf(now));
    CeilDivBounds(now - w.start, FreqUs(p.freq).value);
  }

  /** Rolling over from a day that is not before `now`'s day lands strictly
      after `now`, on an allowed day. */
  lemma NextDayStartAfter(p: Plan, day: int, now: int)
    requires ValidPlan(p) && DayOf(now) <= day
    ensures NextDayStart(p, day).Armed? ==>
      now < NextDayStart(p, day).at && AllowedOn(p.allowed, DayOf(NextDayStart(p, day).at))
  {
    NextDayStartIsLater(p, day);
    if NextDayStart(p, day).Armed? && NextDayStart(p, day).at <= now {
      DayOfMonotone(NextDayStart(p, day).at, now);
    }
  }

  /** An instant inside a day's window lies on that day. */
  lemma InWindowDay(p: Plan, day: int, t: int)
    requires ValidPlan(p) && WindowOn(p, day).start <= t <= WindowOn(p, day).stop
    ensures DayOf(t) == day
  {
    WindowOnDay(p, day);
    DayOfMonotone(WindowOn(p, day).start, t);
    DayOfMonotone(t, WindowOn(p, day).stop);
  }

  /** Once the candidate day is fixed (today or later, allowed), the timer is
      not before `now`, on an allowed day, and exactly at `now` only on a
      whole number of periods past the window start. */
  lemma ArmForWindowNotBefore(draft: TaskDraft, p: Plan, now: int, day: int)
    requires ValidPlan(p) && NonNegativeFreq(p.freq)
    requires DayOf(now) <= day && AllowedOn(p.allowed, day)
    ensures ArmForWindow(draft, p, now, day).Armed? ==>
      var t := ArmForWindow(draft, p, now, day).at;
      var w := WindowOn(p, day);
      now <= t && AllowedOn(p.allowed, DayOf(t))
      && (t == now ==>
            (FreqUs(p.freq).Some? && FreqUs(p.freq).value > 0
             && w.start <= now && (now - w.start) % FreqUs(p.freq).value == 0))
  {
    var w := WindowOn(p, day);
    var f := FreqUs(p.freq);
    NextDayStartAfter(p, day, now);
    if f.Some? && f.value != 0 && w.start <= now < w.stop {
      var next := NextMultiple(w.start, now, f.value);
      InWindowNotBefore(w.start, now, f.value);
      if next <= w.stop {
        InWindowDay(p, day, next);
      }
    } else if now < w.start {
      WindowOnDay(p, day);
    }
  }

  /** The next multiple of a positive period counted from `start` is at or
      after `now`, and equal to it only on a whole number of periods. */
  lemma InWindowNotBefore(start: int, now: int, f: int)
    requires f > 0 && start <= now
    ensures now <= NextMultiple(start, now, f)
    ensures NextMultiple(start, now, f) == now <==> (now - start) % f == 0
  {
    CeilDivBounds(now - start, f);
  }

  /** The timer `schedule()` arms never lies before `now` when the frequency is
      not negative, always falls on an allowed weekday, and lies exactly at
      `now` only when `now` is the window start plus a whole number of
      frequency periods. */
  lemma ScheduleNotBeforeNow(draft: TaskDraft, p: Plan, now: int)
    requires ValidPlan(p) && NonNegativeFreq(p.freq)
    ensures ScheduleSpec(draft, p, now).Armed? ==>
      var t := ScheduleSpec(draft, p, now).at;
      now <= t && AllowedOn(p.allowed, DayOf(t))
      && (t == now ==>
            (FreqUs(p.freq).Some? && FreqUs(p.freq).value > 0
             && (now - WindowOn(p, DayOf(now)).start) % FreqUs(p.freq).value == 0))
  {
    var today := DayOf(now);
    if !AllowedOn(p.allowed, today) || now >= WindowOn(p, today).stop {
      var next := NextAllowedDay(today, p.allowed);
      if next.Some? {
        var d := next.value;
        ArmForWindowNotBefore(draft, p, now, d);
        // The candidate day is later than today, so its window starts after now.
        WindowOnDay(p, d);
        if WindowOn(p, d).start <= now {
          DayOfMonotone(WindowOn(p, d).start, now);
        }
      }
    } else {
      ArmForWindowNotBefore(draft, p, now, today);
    }
  }

  /** A negative frequency such as "-5m" parses, and inside the window the
      timer is then armed at or before `now`, strictly before it unless `now`
      is a whole number of periods past the start. */
  lemma NegativeFrequencyArmsInPast(draft: TaskDraft, p: Plan, now: int)
    requires FreqUs(p.freq).Some? && FreqUs(p.freq).value < 0
    requires AllowedOn(p.allowed, DayOf(now))
    requires WindowOn(p, DayOf(now)).start <= now < WindowOn(p, DayOf(now)).stop
    ensures ScheduleSpec(draft, p, now).Armed?
    ensures var t := ScheduleSpec(draft, p, now).at;
      t <= now && (t == now <==> (now - WindowOn(p, DayOf(now)).start) % FreqUs(p.freq).value == 0)
  {
    var w := WindowOn(p, DayOf(now));
    NegativeMultiple(w.start, now, FreqUs(p.freq).value);
  }

  /** With a negative period, the "next" multiple lies at or before `now`:
      `math.ceil` of a negative quotient rounds towards `start`. */
  lemma NegativeMultiple(start: int, now: int, f: int)
    requires f < 0 && start <= now
    ensures NextMultiple(start, now, f) <= now
    ensures NextMultiple(start, now, f) == now <==> (now - start) % f == 0
  {
    var e := now - start;
    var q := e / (-f);
    assert CeilDiv(e, f) * f == q * (-f);
    DivModUnique(e, -f, q, e % (-f));
    assert q >= 0;
    assert q * (-f) >= 0 by { MulNonNeg(q, -f); }
  }

  lemma MulNonNeg(a: int, b: int)
    requires a >= 0 && b >= 0
    ensures a * b >= 0
  {
  }

  /** The current and the older draft schedule alike; the oldest one differs
      only by arming nothing where the others roll over to the next day. */
  lemma ScheduleDrafts(p: Plan, now: int)
    ensures ScheduleSpec(Current, p, now) == ScheduleSpec(Older, p, now)
    ensures ScheduleSpec(Oldest, p, now) == ScheduleSpec(Current, p, now)
      || ScheduleSpec(Oldest, p, now) == Idle
  {
  }

  /** After a run with a positive frequency, or with none, the timer is armed
      strictly after `now`. */
  lemma RescheduleAfterNow(draft: TaskDraft, p: Plan, now: int)
    requires ValidPlan(p)
    requires p.freq.NoFreq? || (p.freq.Every? && p.freq.seconds > 0)
    ensures RescheduleSpec(draft, p, now).Armed? ==> RescheduleSpec(draft, p, now).at > now
  {
    NextDayStartIsLater(p, DayOf(now));
    InstantWithinDay(now);
  }

  /** Without a frequency, a run that ends before today's start is rescheduled
      for today's start even on a weekday the task does not allow; after the
      start it moves to the next allowed day; the oldest draft does not
      reschedule at all. */
  lemma RescheduleWithoutFrequency(draft: TaskDraft, p: Plan, now: int)
    requires p.freq.NoFreq?
    ensures draft == Oldest ==> RescheduleSpec(draft, p, now) == Idle
    ensures draft != Oldest && now < WindowOn(p, DayOf(now)).start ==>
      RescheduleSpec(draft, p, now) == Armed(WindowOn(p, DayOf(now)).start)
    ensures draft != Oldest && now >= WindowOn(p, DayOf(now)).start ==>
      RescheduleSpec(draft, p, now) == NextDayStart(p, DayOf(now))
  {
  }

  /** With a frequency of `n` seconds, the run is rescheduled `n` seconds
      later unless the window has closed or that passes its stop time. The
      drafts agree for a non-zero frequency and part ways on a zero or
      unreadable one. */
  lemma RescheduleWithFrequency(draft: TaskDraft, p: Plan, now: int)
    ensures p.freq.Every? && p.freq.seconds != 0 ==>
      var w := WindowOn(p, DayOf(now));
      var next := now + SecondsUs(p.freq.seconds);
      RescheduleSpec(draft, p, now) ==
        if now >= w.stop || next > w.stop then NextDayStart(p, DayOf(now)) else Armed(next)
    ensures p.freq.BadFreq? ==>
      RescheduleSpec(draft, p, now) == (if draft == Oldest then Idle else Raises)
    ensures p.freq == Every(0) ==>
      RescheduleSpec(draft, p, now) ==
        match draft
        case Oldest => Idle
        case Older => Raises
        case Current =>
          if now >= WindowOn(p, DayOf(now)).stop then NextDayStart(p, DayOf(now))
          else Armed(now)
  {
  }

  /** The rescheduling step raises when a time string cannot be read (the
      oldest draft only when it reschedules at all), on an unreadable
      frequency outside the oldest draft, and on a zero frequency in the
      older draft. */
  lemma RescheduleFailures(draft: TaskDraft, cfg: TaskConfig, now: int)
    ensures RescheduleOf(draft, cfg, now).Raises? <==>
      !(draft == Oldest && !NonZeroFreq(FreqOf(cfg)))
      && (PlanOf(cfg).None? || FreqOf(cfg).BadFreq? || (draft == Older && FreqOf(cfg) == Every(0)))
    ensures RescheduleOf(draft, cfg, now).Idle? ==> draft == Oldest
  {
    if PlanOf(cfg).Some? {
      PlanReadsAs(cfg);
      PlanRescheduleFailures(draft, PlanOf(cfg).value, now);
    }
  }

  /** The same for a plan already read: only an unusable frequency raises. */
  lemma PlanRescheduleFailures(draft: TaskDraft, p: Plan, now: int)
    requires ValidPlan(p)
    ensures RescheduleSpec(draft, p, now).Raises? <==>
      !(draft == Oldest && !NonZeroFreq(p.freq)) && (p.freq.BadFreq? || (draft == Older && p.freq == Every(0)))
    ensures RescheduleSpec(draft, p, now).Idle? ==> draft == Oldest
  {
    if p.freq.NoFreq? || p.freq.Every? {
      NextDayStartIsLater(p, DayOf(now));
    }
  }
}
