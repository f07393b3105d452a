/** The parsing shared by every job (`processmanager/core/Job.py`, repeated
    in each program draft): the "<int> <unit>" frequency, the `strptime` time
    of day and the inclusive schedule test. */
module Job {
  import opened PyStr
  import opened Clock
  import opened TaskCalendar

  /** The interval, in seconds, used when a frequency cannot be read. */
  const DEFAULT_INTERVAL: int := 60

  /** `parse_frequency(freq_str)`: exactly two whitespace-separated words, an
      integer and a unit whose lower-cased form starts with "m", "s" or "h";
      every other input, `None` included, gives the default. */
  function ParseFrequency(s: Option<string>): int {
    if s.None? then DEFAULT_INTERVAL
    else
      var parts := SplitWs(s.value);
      if |parts| != 2 then DEFAULT_INTERVAL
      else
        match PyInt(parts[0])
        case None => DEFAULT_INTERVAL
        case Some(v) =>
          var c := LowerChar(parts[1][0]);
          if c == 'm' then v * 60
          else if c == 's' then v
          else if c == 'h' then v * 3600
          else DEFAULT_INTERVAL
  }

  /** Seconds per unit for a unit word's first letter. */
  function UnitScale(unit: string): int
    requires unit != []
  {
    var c := LowerChar(unit[0]);
    if c == 'm' then 60 else if c == 's' then 1 else if c == 'h' then 3600 else 0
  }

  /** "<n> <unit>" reads back as `n` times the unit's length in seconds. */
  lemma ParseFrequencyOf(n: nat, unit: string)
    requires unit != [] && HasNoSpace(unit) && UnitScale(unit) != 0
    ensures ParseFrequency(Some(NatToString(n) + " " + unit)) == n * UnitScale(unit)
  {
    var digits := NatToString(n);
    DigitsHaveNoSpace(digits);
    SplitWsTwo(digits, unit);
    PyIntOfDigits(digits);
    NatToStringValue(n);
  }

  /** Whether the `try` body of `parse_frequency` raises: no string at all
      (JSON null or a number has no `split`), not exactly two words, or a
      first word that `int()` refuses. A count with an unknown unit does not
      raise; it falls through to the default. */
  predicate FrequencyRaises(s: Option<string>) {
    s.None? || |SplitWs(s.value)| != 2 || PyInt(SplitWs(s.value)[0]).None?
  }

  /** Every input: the default of 60 unless the text is two words, the first
      an integer `v` and the second a unit starting with m, s or h in any
      case, which give `v` times the unit's seconds. */
  lemma ParseFrequencyDefault(s: Option<string>)
    ensures FrequencyRaises(s) ==> ParseFrequency(s) == DEFAULT_INTERVAL
    ensures !FrequencyRaises(s) ==>
      var parts := SplitWs(s.value);
      ParseFrequency(s) == if UnitScale(parts[1]) == 0 then DEFAULT_INTERVAL else PyInt(parts[0]).value * UnitScale(parts[1])
  {
  }

  /** A single word, such as the task form "5m", is not a frequency here and
      gives the default interval. */
  lemma OneWordIsDefault(word: string)
    requires word != [] && HasNoSpace(word)
    ensures ParseFrequency(Some(word)) == DEFAULT_INTERVAL
  {
    SplitWsOne(word);
  }

  /** The default `check_alive_freq` of "1 m" is one minute. */
  lemma DefaultCheckAliveFrequency()
    ensures ParseFrequency(Some("1 m")) == 60
  {
    ParseFrequencyOf(1, "m");
    assert NatToString(1) == "1";
  }

  /** Index of the first ':' (the length when there is none). */
  function ColonAt(s: string): (i: nat)
    ensures i <= |s|
    ensures i < |s| ==> s[i] == ':'
    ensures forall j :: 0 <= j < i ==> s[j] != ':'
  {
    if s == [] || s[0] == ':' then 0 else 1 + ColonAt(s[1..])
  }

  /** Length of the leading run of decimal digits. */
  function DigitRun(s: string): (k: nat)
    ensures k <= |s|
    ensures AllDigits(s[..k])
    ensures k == |s| || !IsDigit(s[k])
  {
    if s == [] || !IsDigit(s[0]) then 0
    else
      var k := DigitRun(s[1..]);
      assert s[..k + 1] == [s[0]] + s[1..][..k];
      k + 1
  }

  /** Length of the leading run of whitespace. */
  function SpaceRun(s: string): (k: nat)
    ensures k <= |s|
    ensures k == |s| || !IsSpace(s[k])
  {
    if s == [] || !IsSpace(s[0]) then 0 else 1 + SpaceRun(s[1..])
  }

  /** A `%H`, `%I` or `%M` field of `strptime`: one or two digits whose value
      lies in `lo..hi`. */
  function Field(t: string, lo: int, hi: int): (r: Option<int>)
    ensures r.Some? ==> lo <= r.value <= hi
  {
    if 1 <= |t| <= 2 && AllDigits(t) && lo <= DigitsValue(t) <= hi then Some(DigitsValue(t))
    else None
  }

  /** `strptime(s, "%H:%M")`, in minutes since midnight: an hour 0..23 and a
      minute 0..59 of one or two digits each, and nothing else. */
  function Match24(s: string): (r: Option<int>)
    ensures r.Some? ==> 0 <= r.value < 24 * 60
  {
    var i := ColonAt(s);
    if i == |s| then None
    else
      match (Field(s[..i], 0, 23), Field(s[i + 1..], 0, 59))
      case (Some(h), Some(m)) => Some(h * 60 + m)
      case _ => None
  }

  /** The `" %p"` tail of the 12-hour form: whitespace, then "am" or "pm" in
      any case and nothing after it; the word lower-cased. */
  function MeridiemAfter(gap: string): (r: Option<string>)
    ensures r.Some? ==> r.value == "am" || r.value == "pm"
  {
    var j := SpaceRun(gap);
    var word := Lower(gap[j..]);
    if j == 0 || (word != "am" && word != "pm") then None else Some(word)
  }

  /** `strptime(s, "%I:%M %p")`, in minutes since midnight: an hour 1..12 and
      a minute of one or two digits, whitespace, then "am" or "pm" in any
      case, and nothing else; 12 am is midnight, pm adds twelve hours to the
      other hours. */
  function Match12(s: string): (r: Option<int>)
    ensures r.Some? ==> 0 <= r.value < 24 * 60
  {
    var i := ColonAt(s);
    if i == |s| then None
    else
      var rest := s[i + 1..];
      var k := DigitRun(rest);
      Compose12(Field(s[..i], 1, 12), Field(rest[..k], 0, 59), MeridiemAfter(rest[k..]))
  }

  /** The time the 12-hour form gives once its three fields are read. */
  function Compose12(hour: Option<int>, minute: Option<int>, word: Option<string>): (r: Option<int>)
    requires hour.Some? ==> 1 <= hour.value <= 12
    requires minute.Some? ==> 0 <= minute.value <= 59
    requires word.Some? ==> word.value == "am" || word.value == "pm"
    ensures r.Some? ==> 0 <= r.value < 24 * 60
  {
    if hour.Some? && minute.Some? && word.Some? then
      Some(Hour24(hour.value, word.value) * 60 + minute.value)
    else None
  }

  /** `parse_time_str`: the 24-hour form first, then the 12-hour form, `None`
      when both fail; the result is a minute of the day. */
  function ParseTimeStr(s: string): (r: Option<int>)
    ensures r.Some? ==> 0 <= r.value < 24 * 60
    ensures Match24(s).Some? ==> r == Match24(s)
    ensures Match24(s).None? ==> r == Match12(s)
  {
    if Match24(s).Some? then Match24(s) else Match12(s)
  }

  lemma {:induction false} ColonAfterDigits(a: string, rest: string)
    requires AllDigits(a)
    ensures ColonAt(a + ":" + rest) == |a|
    decreases |a|
  {
    if a != [] {
      assert (a + ":" + rest)[1..] == a[1..] + ":" + rest;
      ColonAfterDigits(a[1..], rest);
    }
  }

  lemma {:induction false} DigitRunOf(a: string, b: string)
    requires AllDigits(a)
    requires b == [] || !IsDigit(b[0])
    ensures DigitRun(a + b) == |a|
    decreases |a|
  {
    if a != [] {
      assert (a + b)[1..] == a[1..] + b;
      DigitRunOf(a[1..], b);
    } else {
      assert a + b == b;
    }
  }

  lemma FieldOf(n: nat, lo: int, hi: int)
    requires n < 100 && lo <= n <= hi
    ensures Field(TwoDigits(n), lo, hi) == Some(n)
  {
    TwoDigitsValue(n);
  }

  /** "HH:MM" is read by the 24-hour form as written. */
  lemma ParseTime24(hour: nat, minute: nat)
    requires hour <= 23 && minute <= 59
    ensures ParseTimeStr(ClockToken(hour, minute)) == Some(hour * 60 + minute)
  {
    var h, m := TwoDigits(hour), TwoDigits(minute);
    var s := ClockToken(hour, minute);
    ColonAfterDigits(h, m);
    assert s[..2] == h;
    assert s[3..] == m;
    FieldOf(hour, 0, 23);
    FieldOf(minute, 0, 59);
  }

  /** The pieces of "HH:MM am" after the colon: two digits, one space, the
      meridiem word. */
  lemma Pieces12(hour: nat, minute: nat, pm: bool)
    requires hour < 100 && minute < 100
    ensures ColonAt(Clock12(hour, minute, pm)) == 2
    ensures Clock12(hour, minute, pm)[..2] == TwoDigits(hour)
    ensures Clock12(hour, minute, pm)[3..] == TwoDigits(minute) + " " + Meridiem(pm)
  {
    var h, m, mer := TwoDigits(hour), TwoDigits(minute), Meridiem(pm);
    var s := Clock12(hour, minute, pm);
    assert s == h + ":" + (m + " " + mer);
    ColonAfterDigits(h, m + " " + mer);
  }

  /** "HH:MM am" is not 24-hour text: the minute field runs into the space. */
  lemma Clock12Not24(hour: nat, minute: nat, pm: bool)
    requires hour < 100 && minute < 100
    ensures Match24(Clock12(hour, minute, pm)) == None
  {
    Pieces12(hour, minute, pm);
  }

  /** What the 12-hour form makes of digits, a colon, digits, one space and
      a lower-case meridiem word. */
  lemma Match12Shape(hs: string, ms: string, mer: string)
    requires AllDigits(hs) && AllDigits(ms)
    requires mer == "am" || mer == "pm"
    ensures Match12(hs + ":" + ms + " " + mer)
      == Compose12(Field(hs, 1, 12), Field(ms, 0, 59), Some(mer))
  {
    var tail := ms + (" " + mer);
    var s := hs + ":" + tail;
    assert s == hs + ":" + ms + " " + mer;
    ColonAfterDigits(hs, tail);
    assert s[..|hs|] == hs;
    assert s[|hs| + 1..] == tail;
    DigitRunOf(ms, " " + mer);
    assert tail[..|ms|] == ms;
    assert tail[|ms|..] == " " + mer;
    MeridiemAfterWord(mer);
  }

  lemma MeridiemAfterWord(mer: string)
    requires mer == "am" || mer == "pm"
    ensures MeridiemAfter(" " + mer) == Some(mer)
  {
    var gap := " " + mer;
    assert gap[1..] == mer;
    assert SpaceRun(gap) == 1;
  }

  /** The 12-hour form reads "HH:MM am" with the hour field checked against
      1..12 and the meridiem rule applied. */
  lemma Match12Of(hour: nat, minute: nat, pm: bool)
    requires hour < 100 && minute <= 59
    ensures Match12(Clock12(hour, minute, pm))
      == Compose12(if 1 <= hour <= 12 then Some(hour) else None, Some(minute), Some(Meridiem(pm)))
  {
    var h, m, mer := TwoDigits(hour), TwoDigits(minute), Meridiem(pm);
    Clock12Text(hour, minute, pm);
    Match12Shape(h, m, mer);
    FieldOf(minute, 0, 59);
    HourField(hour);
  }

  lemma Clock12Text(hour: nat, minute: nat, pm: bool)
    requires hour < 100 && minute < 100
    ensures Clock12(hour, minute, pm) == TwoDigits(hour) + ":" + TwoDigits(minute) + " " + Meridiem(pm)
  {
  }

  lemma HourField(hour: nat)
    requires hour < 100
    ensures Field(TwoDigits(hour), 1, 12) == if 1 <= hour <= 12 then Some(hour) else None
  {
    TwoDigitsValue(hour);
  }

  /** Padded 12-hour text reads as its 24-hour time: 12 am is midnight, 12 pm
      noon, the other pm hours add twelve. */
  lemma ParseTime12(hour: nat, minute: nat, pm: bool)
    requires 1 <= hour <= 12 && minute <= 59
    ensures ParseTimeStr(Clock12(hour, minute, pm)) == Some(Hour24(hour, Meridiem(pm)) * 60 + minute)
  {
    Clock12Not24(hour, minute, pm);
    Match12Of(hour, minute, pm);
    ComposeAll(hour, minute, Meridiem(pm));
  }

  lemma ComposeAll(hour: int, minute: int, word: string)
    requires 1 <= hour <= 12 && 0 <= minute <= 59 && (word == "am" || word == "pm")
    ensures Compose12(Some(hour), Some(minute), Some(word)) == Some(Hour24(hour, word) * 60 + minute)
  {
  }

  /** An hour past twelve with a meridiem ("13:00 pm") is refused by both forms. */
  lemma ParseTimeRejectsLateMeridiem(hour: nat, minute: nat, pm: bool)
    requires 12 < hour < 100 && minute <= 59
    ensures ParseTimeStr(Clock12(hour, minute, pm)) == None
  {
    Clock12Not24(hour, minute, pm);
    Match12Of(hour, minute, pm);
  }

  /** The program parser and the task parser agree on padded 12-hour text. */
  lemma ParsersAgreeOn12(hour: nat, minute: nat, pm: bool)
    requires 1 <= hour <= 12 && minute <= 59
    ensures ParseTimeStr(Clock12(hour, minute, pm)) == ClockTime(Clock12(hour, minute, pm))
  {
    ParseTime12(hour, minute, pm);
    ClockTimeOf12(hour, minute, pm);
  }

  /** A minute of the day as microseconds since midnight. */
  function MinuteUs(m: int): int {
    m * 60_000_000
  }

  /** The schedule bound of a program: its time text parsed when one is given. */
  function Bound(text: Option<string>): Option<int> {
    if Given(text) then ParseTimeStr(text.value) else None
  }

  /** `within_schedule()` at microsecond `tod` of the day: true when either
      bound is missing, otherwise start <= now <= end, both ends included. */
  function WithinSchedule(start: Option<int>, end: Option<int>, tod: int): bool {
    start.None? || end.None? || MinuteUs(start.value) <= tod <= MinuteUs(end.value)
  }

  /** Both ends of the window are inside it and the instants just beyond are
      outside: a time of day equal to the end still counts. */
  lemma WithinInclusive(start: int, end: int)
    requires start <= end
    ensures WithinSchedule(Some(start), Some(end), MinuteUs(start))
    ensures WithinSchedule(Some(start), Some(end), MinuteUs(end))
    ensures !WithinSchedule(Some(start), Some(end), MinuteUs(start) - 1)
    ensures !WithinSchedule(Some(start), Some(end), MinuteUs(end) + 1)
  {
  }

  /** A window whose start is after its end never holds: there is no
      wrap-around past midnight. */
  lemma WithinInverted(start: int, end: int, tod: int)
    requires start > end
    ensures !WithinSchedule(Some(start), Some(end), tod)
  {
  }

  /** With a bound missing every instant is within the schedule. */
  lemma WithinUnbounded(start: Option<int>, end: Option<int>, tod: int)
    requires start.None? || end.None?
    ensures WithinSchedule(start, end, tod)
  {
  }
}
