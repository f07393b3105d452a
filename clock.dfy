/** Instants are integer microseconds counted from a Monday at 00:00, so the
    day of an instant is its quotient by the length of a day and the weekday
    (0 = Monday ... 6 = Sunday) is that day modulo 7, as `datetime.weekday()`
    numbers them. */
module Clock {

  const US_PER_SECOND: int := 1_000_000
  const US_PER_MINUTE: int := 60 * US_PER_SECOND
  const US_PER_HOUR: int := 3600 * US_PER_SECOND
  const US_PER_DAY: int := 86_400 * US_PER_SECOND

  /** A whole number of seconds as microseconds. */
  function SecondsUs(n: int): (us: int)
    ensures (us > 0 <==> n > 0) && (us == 0 <==> n == 0) && (us < 0 <==> n < 0)
  {
    n * US_PER_SECOND
  }

  /** The calendar day holding instant `t`. */
  function DayOf(t: int): int {
    t / US_PER_DAY
  }

  /** `date.weekday()` of a day index. */
  function Weekday(day: int): (w: int)
    ensures 0 <= w < 7
  {
    day % 7
  }

  /** Time of day of an instant, in microseconds since midnight. */
  function TimeOfDay(t: int): (tod: int)
    ensures 0 <= tod < US_PER_DAY
  {
    t % US_PER_DAY
  }

  /** `datetime.combine(day, time)`: the instant at `tod` on `day`. */
  function At(day: int, tod: int): int {
    day * US_PER_DAY + tod
  }

  lemma AtDay(day: int, tod: int)
    requires 0 <= tod < US_PER_DAY
    ensures DayOf(At(day, tod)) == day && TimeOfDay(At(day, tod)) == tod
  {
  }

  /** A minute of the day, as an offset from midnight, stays within the day. */
  lemma MinuteWithinDay(m: int)
    requires 0 <= m < 24 * 60
    ensures 0 <= m * US_PER_MINUTE < US_PER_DAY
  {
    assert US_PER_MINUTE == 60_000_000 && US_PER_DAY == 1440 * 60_000_000;
  }

  /** An instant lies on its own day: between that day's midnight and the next. */
  lemma InstantWithinDay(t: int)
    ensures At(DayOf(t), 0) <= t < At(DayOf(t) + 1, 0)
    ensures t == At(DayOf(t), TimeOfDay(t))
  {
  }

  /** Every instant of a later day comes after every instant of an earlier one. */
  lemma LaterDayIsLater(d1: int, tod1: int, d2: int, tod2: int)
    requires d1 < d2
    requires 0 <= tod1 < US_PER_DAY && 0 <= tod2 < US_PER_DAY
    ensures At(d1, tod1) < At(d2, tod2)
  {
    assert d1 * US_PER_DAY + US_PER_DAY <= d2 * US_PER_DAY;
  }

  /** Later instants never fall on earlier days. */
  lemma DayOfMonotone(a: int, b: int)
    requires a <= b
    ensures DayOf(a) <= DayOf(b)
  {
    InstantWithinDay(a);
    InstantWithinDay(b);
    if DayOf(a) > DayOf(b) {
      LaterDayIsLater(DayOf(b), TimeOfDay(b), DayOf(a), TimeOfDay(a));
    }
  }

  /** `math.ceil(a / b)` computed exactly, for a non-zero divisor of either sign. */
  function CeilDiv(a: int, b: int): int
    requires b != 0
  {
    if b > 0 then -((-a) / b) else -(a / (-b))
  }

  /** The ceiling of a non-negative quotient by a positive divisor is the least
      multiple reaching the dividend: `e <= n*f < e + f`, exact on multiples. */
  lemma CeilDivBounds(e: int, f: int)
    requires f > 0
    ensures var n := CeilDiv(e, f);
      e <= n * f < e + f && (n * f == e <==> e % f == 0)
  {
    var q, r := (-e) / f, (-e) % f;
    assert -e == f * q + r && 0 <= r < f;
    var n := CeilDiv(e, f);
    assert n == -q;
    assert n * f == e + r;
    if r == 0 {
      assert e == f * n;
      DivModUnique(e, f, n, 0);
    } else {
      assert e == f * (n - 1) + (f - r);
      DivModUnique(e, f, n - 1, f - r);
    }
  }

  lemma DivModUnique(a: int, b: int, q: int, r: int)
    requires b > 0 && 0 <= r < b && a == b * q + r
    ensures a / b == q && a % b == r
  {
    var q', r' := a / b, a % b;
    assert a == b * q' + r' && 0 <= r' < b;
    var d := q' - q;
    assert b * d == r - r' by {
      assert b * q' - b * q == b * (q' - q);
    }
    if d >= 1 {
      MulAtLeast(b, d);
    } else if d <= -1 {
      MulAtLeast(b, -d);
    }
  }

  lemma MulAtLeast(b: int, d: int)
    requires b > 0 && d >= 1
    ensures b * d >= b
  {
    assert b * d == b * (d - 1) + b;
    assert b * (d - 1) >= 0;
  }
}
