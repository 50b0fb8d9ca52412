/**
 * The part of Go's `time` package that the credit engine relies on:
 * civil dates in the proleptic Gregorian calendar (UTC), `AddDate(0, k, 0)`
 * with Go's normalisation of an overflowing day of month, and
 * `int(end.Sub(start).Hours() / 24 / 30)`.
 *
 * A date is kept as its month index (12 * year + month - 1) and its day of
 * month; as in Go's time.Date, a day past the end of its month stands for a
 * day of the following month. Instants are compared through their day number,
 * counted from years that start on 1 March, so that the leap day is the last
 * day of its year and month starts have a closed form.
 */
module Calendar {
  import opened GoArith

  /** A wall-clock instant: month index, day of month, second of the day. */
  datatype Time = Time(monthIndex: int, day: int, second: int)

  /** The instant at second s of day d of month m (1..12) of year y. */
  function Civil(y: int, m: int, d: int, s: int): Time {
    Time(12 * y + m - 1, d, s)
  }

  predicate IsLeap(y: int) {
    y % 4 == 0 && (y % 100 != 0 || y % 400 == 0)
  }

  /** Days from 1 March of year 0 to 1 March of year y. */
  function DaysBeforeMarch(y: int): int {
    365 * y + y / 4 - y / 100 + y / 400
  }

  /** Day number of the first day of the month with index mi. */
  function MonthStart(mi: int): int {
    var y, mp := (mi - 2) / 12, (mi - 2) % 12;
    DaysBeforeMarch(y) + (153 * mp + 2) / 5
  }

  function MonthLength(mi: int): int {
    MonthStart(mi + 1) - MonthStart(mi)
  }

  predicate ValidTime(t: Time) {
    1 <= t.day <= MonthLength(t.monthIndex) && 0 <= t.second < 86400
  }

  function DayNumber(t: Time): int {
    MonthStart(t.monthIndex) + t.day - 1
  }

  /** Seconds since the start of day number 0. */
  function Seconds(t: Time): int {
    DayNumber(t) * 86400 + t.second
  }

  predicate Before(a: Time, b: Time) {
    Seconds(a) < Seconds(b)
  }

  predicate NotAfter(a: Time, b: Time) {
    Seconds(a) <= Seconds(b)
  }

  lemma Div4Step(p: int)
    ensures (p + 1) / 4 - p / 4 == if (p + 1) % 4 == 0 then 1 else 0
  {
  }

  lemma Div100Step(p: int)
    ensures (p + 1) / 100 - p / 100 == if (p + 1) % 100 == 0 then 1 else 0
  {
  }

  lemma Div400Step(p: int)
    ensures (p + 1) / 400 - p / 400 == if (p + 1) % 400 == 0 then 1 else 0
  {
  }

  /** A March-based year has 366 days exactly when the February that ends it has 29. */
  lemma MarchYearLength(y: int)
    ensures DaysBeforeMarch(y + 1) - DaysBeforeMarch(y) == if IsLeap(y + 1) then 366 else 365
  {
    Div4Step(y);
    Div100Step(y);
    Div400Step(y);
    var n := y + 1;
    assert n % 400 == 0 ==> n % 100 == 0;
    assert n % 100 == 0 ==> n % 4 == 0;
  }

  /** The month lengths of the Gregorian calendar. */
  lemma MonthLengthTable(y: int, m: int)
    requires 1 <= m <= 12
    ensures MonthLength(12 * y + m - 1) ==
              if m == 2 then (if IsLeap(y) then 29 else 28)
              else if m == 4 || m == 6 || m == 9 || m == 11 then 30
              else 31
  {
    var mi := 12 * y + m - 1;
    if m == 2 {
      assert (mi - 2) / 12 == y - 1 && (mi - 2) % 12 == 11;
      assert (mi + 1 - 2) / 12 == y && (mi + 1 - 2) % 12 == 0;
      MarchYearLength(y - 1);
    } else if m == 1 {
      assert (mi - 2) / 12 == y - 1 && (mi - 2) % 12 == 10;
      assert (mi + 1 - 2) / 12 == y - 1 && (mi + 1 - 2) % 12 == 11;
    } else {
      assert (mi - 2) / 12 == y && (mi - 2) % 12 == m - 3;
      assert (mi + 1 - 2) / 12 == y && (mi + 1 - 2) % 12 == m - 2;
    }
  }

  /** Every month has 28 to 31 days. */
  lemma MonthLengthBounds(mi: int)
    ensures 28 <= MonthLength(mi) <= 31
  {
    var y, mp := (mi - 2) / 12, (mi - 2) % 12;
    if mp == 11 {
      assert (mi + 1 - 2) / 12 == y + 1 && (mi + 1 - 2) % 12 == 0;
      MarchYearLength(y);
    } else {
      assert (mi + 1 - 2) / 12 == y && (mi + 1 - 2) % 12 == mp + 1;
    }
  }

  lemma {:induction false} MonthStartIncreasing(a: int, b: int)
    requires a < b
    ensures MonthStart(a) + 28 * (b - a) <= MonthStart(b) <= MonthStart(a) + 31 * (b - a)
    decreases b - a
  {
    MonthLengthBounds(b - 1);
    if a < b - 1 {
      MonthStartIncreasing(a, b - 1);
    }
  }

  /**
   * `t.AddDate(0, k, 0)`: move the month index by k and keep the day of
   * month. A day past the end of the target month stands for the same number
   * of days into the month after it, the overflow rule of Go's time.Date;
   * Normalise rewrites such a date into Go's normal form.
   */
  function AddMonths(t: Time, k: int): Time {
    Time(t.monthIndex + k, t.day, t.second)
  }

  /** Go's normalisation of a day that overflows its month by less than the next month's length. */
  function Normalise(t: Time): Time {
    if t.day <= MonthLength(t.monthIndex) then t
    else Time(t.monthIndex + 1, t.day - MonthLength(t.monthIndex), t.second)
  }

  /** Adding months to a valid date and normalising gives a valid date denoting the same instant. */
  lemma NormaliseAddMonths(t: Time, k: int)
    requires ValidTime(t)
    ensures ValidTime(Normalise(AddMonths(t, k)))
    ensures Seconds(Normalise(AddMonths(t, k))) == Seconds(AddMonths(t, k))
  {
    var mi := t.monthIndex + k;
    MonthLengthBounds(t.monthIndex);
    MonthLengthBounds(mi);
    MonthLengthBounds(mi + 1);
  }

  /** Adding more months gives a date at least 28 days per month later. */
  lemma AddMonthsDayGap(t: Time, j: int, k: int)
    requires j < k
    ensures DayNumber(AddMonths(t, j)) + 28 * (k - j) <= DayNumber(AddMonths(t, k))
  {
    MonthStartIncreasing(t.monthIndex + j, t.monthIndex + k);
  }

  /** Adding more months gives a strictly later instant. */
  lemma AddMonthsStrictlyIncreasing(t: Time, j: int, k: int)
    requires j < k
    ensures Before(AddMonths(t, j), AddMonths(t, k))
  {
    AddMonthsDayGap(t, j, k);
  }

  /** The number of whole 30-day periods from start to end. */
  function Periods(start: Time, end: Time): int {
    TruncDiv(Seconds(end) - Seconds(start), 86400 * 30)
  }

  lemma DivScale(d: int)
    requires d >= 0
    ensures (d * 86400) / (86400 * 30) == d / 30
  {
    var q, r := d / 30, d % 30;
    assert d * 86400 == (86400 * 30) * q + r * 86400;
    assert 0 <= r * 86400 < 86400 * 30;
  }

  /** Between two instants at the same time of day, the period count is the whole-day distance divided by 30. */
  lemma WholeDayPeriods(a: Time, b: Time)
    requires DayNumber(a) <= DayNumber(b) && a.second == b.second
    ensures Periods(a, b) == (DayNumber(b) - DayNumber(a)) / 30
  {
    var d := DayNumber(b) - DayNumber(a);
    assert Seconds(b) - Seconds(a) == d * 86400;
    DivScale(d);
  }

  /** From t to k >= 0 months later, the period count is the distance in whole days divided by 30. */
  lemma PeriodsOfAddMonths(t: Time, k: int)
    requires k >= 0
    ensures Periods(t, AddMonths(t, k)) == (DayNumber(AddMonths(t, k)) - DayNumber(t)) / 30
    ensures Periods(t, AddMonths(t, k)) >= 0
  {
    if k > 0 {
      MonthStartIncreasing(t.monthIndex, t.monthIndex + k);
    }
    WholeDayPeriods(t, AddMonths(t, k));
  }
}
