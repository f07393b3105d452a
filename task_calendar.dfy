/** The calendar helpers of a scheduled task: reading its time-of-day strings,
    its suffix-form frequency and its weekday list, and the day window they
    define. The three task drafts carry the same helpers. */
module TaskCalendar {
  import opened PyStr
  import opened Clock

  /** A task entry of the schedule document, as the task object keeps it. */
  datatype TaskConfig = TaskConfig(
    name: Option<string>,
    start: Option<string>,
    stop: Option<string>,
    freq: Option<string>,
    days: Option<seq<string>>,
    runOnComplete: seq<string>)

  /** Python truthiness of an optional string field: present and non-empty. */
  predicate Given(s: Option<string>) {
    s.Some? && s.value != []
  }

  /** The hour as written, with the minute: "H" or "H:M". */
  function HourMinute(token: string): Option<(int, int)> {
    if ':' in token then
      var pieces := SplitOn(token, ':');
      if |pieces| != 2 then None
      else
        var h := PyInt(pieces[0]);
        var m := PyInt(pieces[1]);
        if h.None? || m.None? then None else Some((h.value, m.value))
    else
      var h := PyInt(token);
      if h.None? then None else Some((h.value, 0))
  }

  /** The meridiem rule: "pm" adds twelve except to 12, "am" turns 12 into 0,
      any other word leaves the hour as written. */
  function Hour24(hour: int, meridiem: string): int {
    if meridiem == "pm" && hour != 12 then hour + 12
    else if meridiem == "am" && hour == 12 then 0
    else hour
  }

  /** The time of day named by a string such as "9:00 am" or "11 PM PST", in
      minutes since midnight; `None` where Python raises (no meridiem word,
      a malformed number, an hour or minute out of range). Removing surrounding
      whitespace before `split()` changes nothing and is not repeated here. */
  function ClockTime(s: string): (r: Option<int>)
    ensures r.Some? ==> 0 <= r.value < 24 * 60
  {
    ClockOfTokens(SplitWs(RemoveAll(Lower(s), "pst")))
  }

  /** The hour-and-minute token followed by the meridiem word. */
  function ClockOfTokens(parts: seq<string>): (r: Option<int>)
    ensures r.Some? ==> 0 <= r.value < 24 * 60
  {
    if |parts| == 0 then None
    else
      var hm := HourMinute(parts[0]);
      if hm.None? || |parts| < 2 then None
      else
        var hour := Hour24(hm.value.0, parts[1]);
        var minute := hm.value.1;
        if 0 <= hour <= 23 && 0 <= minute <= 59 then Some(hour * 60 + minute) else None
  }

  /** `get_target_datetime(time_str, date)`: that time of day on that date,
      seconds and microseconds zero. */
  function TargetTime(s: Option<string>, day: int): (r: Option<int>)
    ensures r.Some? <==> s.Some? && ClockTime(s.value).Some?
    ensures r.Some? ==> (DayOf(r.value) == day
      && TimeOfDay(r.value) == ClockTime(s.value).value * US_PER_MINUTE)
  {
    if s.None? then None
    else
      var minutes := ClockTime(s.value);
      if minutes.None? then None
      else
        MinuteWithinDay(minutes.value);
        AtDay(day, minutes.value * US_PER_MINUTE);
        Some(At(day, minutes.value * US_PER_MINUTE))
  }

  /** The meridiem word as typed in a configuration. */
  function Meridiem(pm: bool): string {
    if pm then "pm" else "am"
  }

  /** The "HH:MM" token, hour and minute zero-padded to two digits. */
  function ClockToken(hour: nat, minute: nat): string
    requires hour < 100 && minute < 100
  {
    TwoDigits(hour) + ":" + TwoDigits(minute)
  }

  /** 12-hour text "HH:MM am" or "HH:MM pm" as it is written in a task. */
  function Clock12(hour: nat, minute: nat, pm: bool): string
    requires hour < 100 && minute < 100
  {
    ClockToken(hour, minute) + " " + Meridiem(pm)
  }

  predicate NoUpper(s: string) {
    forall i :: 0 <= i < |s| ==> !('A' <= s[i] <= 'Z')
  }

  lemma {:induction false} LowerNoUpper(s: string)
    requires NoUpper(s)
    ensures Lower(s) == s
    decreases |s|
  {
    if s != [] {
      LowerNoUpper(s[1..]);
      assert [s[0]] + s[1..] == s;
    }
  }

  /** A clock token is one word: no spaces, no capitals, no letter 's'. */
  predicate PlainWord(token: string) {
    token != [] && HasNoSpace(token) && NoUpper(token) && 's' !in token
  }

  lemma ClockTokenIsPlain(hour: nat, minute: nat)
    requires hour < 100 && minute < 100
    ensures PlainWord(ClockToken(hour, minute))
  {
    var t := ClockToken(hour, minute);
    assert |t| == 5;
    assert t[0] == TwoDigits(hour)[0] && t[1] == TwoDigits(hour)[1] && t[2] == ':';
    assert t[3] == TwoDigits(minute)[0] && t[4] == TwoDigits(minute)[1];
    assert forall c :: c in t ==> c == ':' || IsDigit(c);
  }

  lemma HourMinuteOf(hour: nat, minute: nat)
    requires hour < 100 && minute < 100
    ensures HourMinute(ClockToken(hour, minute)) == Some((hour, minute))
  {
    var h, mm := TwoDigits(hour), TwoDigits(minute);
    var token := ClockToken(hour, minute);
    assert token == h + [':'] + mm;
    assert ':' in token by { assert token[2] == ':'; }
    SplitOnOne(h, mm, ':');
    PyIntOfDigits(h);
    PyIntOfDigits(mm);
    TwoDigitsValue(hour);
    TwoDigitsValue(minute);
  }

  /** A plain word followed by "am" or "pm" is left alone by lower-casing and
      by removing "pst", and splits into the two words. */
  lemma WordsTokens(token: string, mer: string)
    requires PlainWord(token)
    requires mer == "am" || mer == "pm"
    ensures SplitWs(RemoveAll(Lower(token + " " + mer), "pst")) == [token, mer]
    ensures ClockTime(token + " " + mer) == ClockOfTokens([token, mer])
  {
    var s := token + " " + mer;
    assert NoUpper(s) by {
      forall i | 0 <= i < |s| ensures !('A' <= s[i] <= 'Z') {
        if i >= |token| + 1 {
          assert s[i] == mer[i - |token| - 1];
        }
      }
    }
    LowerNoUpper(s);
    assert 's' !in s by {
      forall i | 0 <= i < |s| ensures s[i] != 's' {
        if i < |token| {
          assert s[i] == token[i];
        } else if i > |token| {
          assert s[i] == mer[i - |token| - 1];
        }
      }
    }
    RemoveWithoutChar(s, "pst", 1);
    SplitWsTwo(token, mer);
    ClockTimeOfTokens(s, [token, mer]);
  }

  /** `get_target_datetime` reads the words of the lower-cased text with any
      "pst" removed. */
  lemma ClockTimeOfTokens(s: string, parts: seq<string>)
    requires SplitWs(RemoveAll(Lower(s), "pst")) == parts
    ensures ClockTime(s) == ClockOfTokens(parts)
  {
  }

  /** An "H:M" token for a 12-hour clock hour followed by "am" or "pm" names
      the 24-hour time `Hour24` gives. */
  lemma ClockOfTwoTokens(token: string, meridiem: string, hour: int, minute: int)
    requires HourMinute(token) == Some((hour, minute))
    requires meridiem == "am" || meridiem == "pm"
    requires 1 <= hour <= 12 && 0 <= minute <= 59
    ensures ClockOfTokens([token, meridiem]) == Some(Hour24(hour, meridiem) * 60 + minute)
  {
    assert [token, meridiem][0] == token;
    assert 0 <= Hour24(hour, meridiem) <= 23;
  }

  /** Reading back "HH:MM am" / "HH:MM pm" for a 12-hour clock hour gives the
      24-hour time: 12 am is midnight, 12 pm is noon, other pm hours add 12. */
  lemma ClockTimeOf12(hour: nat, minute: nat, pm: bool)
    requires 1 <= hour <= 12 && minute <= 59
    ensures ClockTime(Clock12(hour, minute, pm)) == Some(Hour24(hour, Meridiem(pm)) * 60 + minute)
    ensures Hour24(hour, Meridiem(pm))
      == if pm then (if hour == 12 then 12 else hour + 12) else (if hour == 12 then 0 else hour)
  {
    var token, mer := ClockToken(hour, minute), Meridiem(pm);
    ClockTokenIsPlain(hour, minute);
    HourMinuteOf(hour, minute);
    ClockOfPlainWord(token, mer, hour, minute);
    Hour24Of12(hour, pm);
  }

  /** A plain "H:M" word for a 12-hour clock hour followed by "am" or "pm". */
  lemma ClockOfPlainWord(token: string, mer: string, hour: int, minute: int)
    requires PlainWord(token) && HourMinute(token) == Some((hour, minute))
    requires mer == "am" || mer == "pm"
    requires 1 <= hour <= 12 && 0 <= minute <= 59
    ensures ClockTime(token + " " + mer) == Some(Hour24(hour, mer) * 60 + minute)
  {
    WordsTokens(token, mer);
    ClockOfTwoTokens(token, mer, hour, minute);
  }

  lemma Hour24Of12(hour: int, pm: bool)
    ensures Hour24(hour, Meridiem(pm))
      == if pm then (if hour == 12 then 12 else hour + 12) else (if hour == 12 then 0 else hour)
  {
    assert Meridiem(pm) == "pm" <==> pm;
    assert Meridiem(pm) == "am" <==> !pm;
  }

  /** Without a meridiem word the time is outside `get_target_datetime`'s
      domain: reading `parts[1]` raises. */
  lemma NoMeridiemRaises(token: string)
    requires PlainWord(token)
    ensures ClockTime(token) == None
  {
    LowerNoUpper(token);
    RemoveWithoutChar(token, "pst", 1);
    SplitWsOne(token);
  }

  /** The weekday names understood, lower-case, Monday first. */
  function DayIndex(name: string): Option<int> {
    if name == "mon" then Some(0)
    else if name == "tue" then Some(1)
    else if name == "wed" then Some(2)
    else if name == "thu" then Some(3)
    else if name == "fri" then Some(4)
    else if name == "sat" then Some(5)
    else if name == "sun" then Some(6)
    else None
  }

  /** The weekday a configured name stands for, in any letter case. */
  function DayOfName(name: string): (r: Option<int>)
    ensures r.Some? ==> 0 <= r.value < 7
  {
    DayIndex(Lower(name))
  }

  function DayNumbers(names: seq<string>): seq<int> {
    if names == [] then []
    else
      var d := DayOfName(names[0]);
      (if d.Some? then [d.value] else []) + DayNumbers(names[1..])
  }

  /** `get_allowed_days()`: the weekday numbers of the configured names; a
      missing or empty list allows every day. */
  function AllowedDays(days: Option<seq<string>>): seq<int> {
    if days.None? || days.value == [] then [0, 1, 2, 3, 4, 5, 6]
    else DayNumbers(days.value)
  }

  lemma {:induction false} DayNumbersMembers(names: seq<string>, w: int)
    ensures w in DayNumbers(names)
      <==> exists i :: 0 <= i < |names| && DayOfName(names[i]) == Some(w)
  {
    if names != [] {
      DayNumbersMembers(names[1..], w);
      var d := DayOfName(names[0]);
      assert DayNumbers(names) == (if d.Some? then [d.value] else []) + DayNumbers(names[1..]);
      if w in DayNumbers(names) && d != Some(w) {
        var i :| 0 <= i < |names[1..]| && DayOfName(names[1..][i]) == Some(w);
        assert names[i + 1] == names[1..][i];
      }
      if exists i :: 0 <= i < |names| && DayOfName(names[i]) == Some(w) {
        var i :| 0 <= i < |names| && DayOfName(names[i]) == Some(w);
        if i > 0 {
          assert names[1..][i - 1] == names[i];
        }
      }
    }
  }

  /** A weekday is allowed exactly when no list (or an empty one) is configured
      or some configured name, in any letter case, is that day's name. Unknown
      names are dropped, and only 0..6 can ever be allowed. */
  lemma AllowedDaysMembers(days: Option<seq<string>>, w: int)
    ensures w in AllowedDays(days) <==>
      if days.None? || days.value == [] then 0 <= w < 7
      else exists i :: 0 <= i < |days.value| && DayOfName(days.value[i]) == Some(w)
    ensures w in AllowedDays(days) ==> 0 <= w < 7
  {
    if days.Some? && days.value != [] {
      DayNumbersMembers(days.value, w);
    }
  }

  /** A day window: the day's start instant and stop instant. */
  datatype Window = Window(start: int, stop: int)

  /** 23:59:59, the stop time of a task that names none. */
  const END_OF_DAY: int := 23 * US_PER_HOUR + 59 * US_PER_MINUTE + 59 * US_PER_SECOND

  /** `get_day_window(date)`: the start and stop instants of the task on that
      date; `None` where reading either time string raises. */
  function DayWindow(cfg: TaskConfig, day: int): (w: Option<Window>)
    ensures w.Some? ==> DayOf(w.value.start) == day && DayOf(w.value.stop) == day
    ensures w.Some? <==> (TargetTime(cfg.start, day).Some?
      && (!Given(cfg.stop) || TargetTime(cfg.stop, day).Some?))
    ensures w.Some? ==> TimeOfDay(w.value.start) == ClockTime(cfg.start.value).value * US_PER_MINUTE
    ensures w.Some? && !Given(cfg.stop) ==> w.value.stop == At(day, END_OF_DAY)
  {
    var s := TargetTime(cfg.start, day);
    var e := if Given(cfg.stop) then TargetTime(cfg.stop, day) else Some(At(day, END_OF_DAY));
    AtDay(day, END_OF_DAY);
    if s.None? || e.None? then None else Some(Window(s.value, e.value))
  }

  /** Frequency multipliers of the suffix form. */
  function SuffixSeconds(unit: char): Option<int> {
    if unit == 'm' then Some(60)
    else if unit == 's' then Some(1)
    else if unit == 'h' then Some(3600)
    else None
  }

  /** `parse_frequency` of the task drafts: "<int>m", "<int>s" or "<int>h" in
      seconds; `None` for any other suffix or a number `int()` refuses. */
  function ParseSuffixFrequency(s: string): Option<int> {
    if s == [] then None
    else
      var mult := SuffixSeconds(s[|s| - 1]);
      var n := PyInt(s[..|s| - 1]);
      if mult.None? || n.None? then None else Some(n.value * mult.value)
  }

  /** The frequency text as written reads back as that many minutes, seconds or
      hours; a frequency ending in anything else is no frequency. */
  lemma SuffixFrequencyOf(n: nat, unit: char)
    ensures ParseSuffixFrequency(NatToString(n) + [unit]) ==
      if unit == 'm' then Some(n * 60)
      else if unit == 's' then Some(n)
      else if unit == 'h' then Some(n * 3600)
      else None
  {
    var s := NatToString(n) + [unit];
    assert s[..|s| - 1] == NatToString(n);
    PyIntOfDigits(NatToString(n));
    NatToStringValue(n);
  }

  /** The task's `freq` as the scheduling code reads it: absent or empty,
      present but refused by `parse_frequency`, or a number of seconds. */
  datatype Freq = NoFreq | BadFreq | Every(seconds: int)

  function FreqOf(cfg: TaskConfig): Freq {
    if !Given(cfg.freq) then NoFreq
    else
      var f := ParseSuffixFrequency(cfg.freq.value);
      if f.None? then BadFreq else Every(f.value)
  }

  /** The frequency in microseconds, as `schedule` uses it. */
  function FreqUs(f: Freq): Option<int> {
    if f.Every? then Some(SecondsUs(f.seconds)) else None
  }

  /** What the scheduling code needs of a task once its strings are read: the
      start and stop times of day, the allowed weekdays and the frequency. */
  datatype Plan = Plan(startTod: int, stopTod: int, allowed: seq<int>, freq: Freq)

  predicate ValidPlan(p: Plan) {
    0 <= p.startTod < US_PER_DAY && 0 <= p.stopTod < US_PER_DAY
  }

  /** The plan of a task; `None` exactly when `get_day_window` raises, which
      does not depend on the date. */
  function PlanOf(cfg: TaskConfig): (p: Option<Plan>)
    ensures p.Some? ==> ValidPlan(p.value)
  {
    var start := if cfg.start.Some? then ClockTime(cfg.start.value) else None;
    var stop := if Given(cfg.stop) then ClockTime(cfg.stop.value) else Some(0);
    if start.None? || stop.None? then None
    else
      MinuteWithinDay(start.value);
      MinuteWithinDay(stop.value);
      var stopTod := if Given(cfg.stop) then stop.value * US_PER_MINUTE else END_OF_DAY;
      Some(Plan(start.value * US_PER_MINUTE, stopTod, AllowedDays(cfg.days), FreqOf(cfg)))
  }

  /** The window of a plan on a given day. */
  function WindowOn(p: Plan, day: int): Window {
    Window(At(day, p.startTod), At(day, p.stopTod))
  }

  /** `get_day_window(day)` is the plan's window on that day. */
  lemma DayWindowOfPlan(cfg: TaskConfig, day: int)
    ensures DayWindow(cfg, day) ==
      if PlanOf(cfg).None? then None else Some(WindowOn(PlanOf(cfg).value, day))
  {
  }

  /** `p` is what the task's day strings and time strings read as: its
      weekdays and its window on every day. */
  ghost predicate ReadsAs(cfg: TaskConfig, p: Plan) {
    p.allowed == AllowedDays(cfg.days)
    && forall day :: DayWindow(cfg, day) == Some(WindowOn(p, day))
  }

  lemma PlanReadsAs(cfg: TaskConfig)
    requires PlanOf(cfg).Some?
    ensures ReadsAs(cfg, PlanOf(cfg).value) && PlanOf(cfg).value.freq == FreqOf(cfg)
  {
    forall day ensures DayWindow(cfg, day) == Some(WindowOn(PlanOf(cfg).value, day)) {
      DayWindowOfPlan(cfg, day);
    }
  }

  lemma WindowOnDay(p: Plan, day: int)
    requires ValidPlan(p)
    ensures DayOf(WindowOn(p, day).start) == day && DayOf(WindowOn(p, day).stop) == day
  {
    AtDay(day, p.startTod);
    AtDay(day, p.stopTod);
  }
}
