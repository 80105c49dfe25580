/**
 * Proleptic Gregorian civil dates, day numbers counted from 1970-01-01 (the
 * epoch the browser's `Date` uses), weekdays as `Date.getDay()` numbers them
 * (0 = Sunday), the ISO 8601 week number computed by `getWeekNumber` in
 * script.js, and the `YYYY-MM-DD` text `toISOString().split('T')[0]` yields.
 * Months are numbered 1..12 here; the script's `getMonth()` is 0-based.
 */
module CalendarDates {
  import opened JavaStrings

  datatype Civil = Civil(year: int, month: int, day: int)

  predicate IsLeap(y: int)
  {
    y % 4 == 0 && (y % 100 != 0 || y % 400 == 0)
  }

  function DaysInYear(y: int): int
  {
    if IsLeap(y) then 366 else 365
  }

  function DaysInMonth(y: int, m: int): (n: int)
    requires 1 <= m <= 12
    ensures 28 <= n <= 31
  {
    if m == 2 then (if IsLeap(y) then 29 else 28)
    else if m == 4 || m == 6 || m == 9 || m == 11 then 30
    else 31
  }

  predicate Valid(c: Civil)
  {
    1 <= c.month <= 12 && 1 <= c.day <= DaysInMonth(c.year, c.month)
  }

  /** Days of year `y` before the first of month `m`. */
  function DaysBeforeMonth(y: int, m: int): (n: int)
    requires 1 <= m <= 12
    ensures 0 <= n <= 31 * (m - 1)
    ensures n + DaysInMonth(y, m) <= DaysInYear(y)
    decreases m
  {
    if m == 1 then 0 else DaysBeforeMonth(y, m - 1) + DaysInMonth(y, m - 1)
  }

  /** Day number of January 1st of year `y`, counting whole years away from 1970. */
  function YearStart(y: int): int
    decreases if y >= 1970 then y - 1970 else 1970 - y
  {
    if y == 1970 then 0
    else if y > 1970 then YearStart(y - 1) + DaysInYear(y - 1)
    else YearStart(y + 1) - DaysInYear(y)
  }

  lemma YearStartNext(y: int)
    ensures YearStart(y + 1) == YearStart(y) + DaysInYear(y)
  {
  }

  /** Leap years among 1..x (floor division makes this hold for every x). */
  function LeapsUpTo(x: int): int
  {
    x / 4 - x / 100 + x / 400
  }

  /** The closed form of `YearStart`: 365 days a year plus one per leap year. */
  lemma {:induction false} YearStartClosed(y: int)
    ensures YearStart(y) == 365 * (y - 1970) + LeapsUpTo(y - 1) - LeapsUpTo(1969)
    decreases if y >= 1970 then y - 1970 else 1970 - y
  {
    if y > 1970 {
      YearStartClosed(y - 1);
      LeapsStep(y - 1);
    } else if y < 1970 {
      YearStartClosed(y + 1);
      LeapsStep(y);
    }
  }

  lemma LeapsStep(y: int)
    ensures LeapsUpTo(y) == LeapsUpTo(y - 1) + (if IsLeap(y) then 1 else 0)
  {
    DivStep4(y);
    DivStep100(y);
    DivStep400(y);
  }

  /** Going from `y - 1` to `y` adds one multiple of 4 exactly when `y` is one. */
  lemma DivStep4(y: int)
    ensures y / 4 - (y - 1) / 4 == if y % 4 == 0 then 1 else 0
  {
  }

  lemma DivStep100(y: int)
    ensures y / 100 - (y - 1) / 100 == if y % 100 == 0 then 1 else 0
  {
  }

  lemma DivStep400(y: int)
    ensures y / 400 - (y - 1) / 400 == if y % 400 == 0 then 1 else 0
  {
  }

  lemma {:induction false} YearStartMonotone(y: int, z: int)
    requires y < z
    ensures YearStart(y) + 365 * (z - y) <= YearStart(z)
    decreases z - y
  {
    YearStartNext(y);
    if y + 1 < z {
      YearStartMonotone(y + 1, z);
    }
  }

  /** Day number of a civil date. */
  function ToDays(c: Civil): int
    requires Valid(c)
  {
    YearStart(c.year) + DaysBeforeMonth(c.year, c.month) + c.day - 1
  }

  /** Offset of a civil date within its year, 0 for January 1st. */
  function Ordinal(c: Civil): (o: int)
    requires Valid(c)
    ensures 0 <= o < DaysInYear(c.year)
    ensures ToDays(c) == YearStart(c.year) + o
  {
    DaysBeforeMonth(c.year, c.month) + c.day - 1
  }

  /** `Date.getDay()`: 1970-01-01 was a Thursday. */
  function Weekday(d: int): (w: int)
    ensures 0 <= w < 7
  {
    (d + 4) % 7
  }

  /** Moving `k` days ahead moves the weekday `k` places round the week. */
  lemma WeekdayShift(d: int, k: int)
    ensures Weekday(d + k) == (Weekday(d) + k) % 7
  {
    var q := (d + 4) / 7;
    assert d + 4 == 7 * q + Weekday(d);
    assert d + k + 4 == 7 * q + (Weekday(d) + k);
  }

  /** Stepping back `Weekday(d)` days lands on the Sunday that starts `d`'s week. */
  lemma SundayOnOrBefore(d: int, s: int)
    requires s == d - Weekday(d)
    ensures Weekday(s) == 0
  {
    var w := Weekday(d);
    assert d + 4 == 7 * ((d + 4) / 7) + w;
    assert s + 4 == 7 * ((d + 4) / 7);
  }

  /** The date after `c`, as `setDate(getDate() + 1)` advances it. */
  function NextDay(c: Civil): (n: Civil)
    requires Valid(c)
    ensures Valid(n)
  {
    if c.day < DaysInMonth(c.year, c.month) then Civil(c.year, c.month, c.day + 1)
    else if c.month < 12 then Civil(c.year, c.month + 1, 1)
    else Civil(c.year + 1, 1, 1)
  }

  lemma NextDayToDays(c: Civil)
    requires Valid(c)
    ensures ToDays(NextDay(c)) == ToDays(c) + 1
  {
    if c.day < DaysInMonth(c.year, c.month) {
    } else if c.month < 12 {
      MonthTurn(c.year, c.month);
    } else {
      YearTurn(c.year);
    }
  }

  /** The date before `c`. */
  function PrevDay(c: Civil): (p: Civil)
    requires Valid(c)
    ensures Valid(p)
  {
    if c.day > 1 then Civil(c.year, c.month, c.day - 1)
    else if c.month > 1 then Civil(c.year, c.month - 1, DaysInMonth(c.year, c.month - 1))
    else Civil(c.year - 1, 12, 31)
  }

  lemma PrevDayToDays(c: Civil)
    requires Valid(c)
    ensures ToDays(PrevDay(c)) == ToDays(c) - 1
  {
    if c.day > 1 {
    } else if c.month > 1 {
      MonthTurn(c.year, c.month - 1);
    } else {
      YearTurn(c.year - 1);
    }
  }

  /** The first of the next month follows the last day of month `m`. */
  lemma MonthTurn(y: int, m: int)
    requires 1 <= m < 12
    ensures ToDays(Civil(y, m + 1, 1)) == ToDays(Civil(y, m, DaysInMonth(y, m))) + 1
  {
  }

  /** New Year's Day follows December 31st. */
  lemma YearTurn(y: int)
    ensures ToDays(Civil(y + 1, 1, 1)) == ToDays(Civil(y, 12, 31)) + 1
  {
    YearStartNext(y);
    DecemberStart(y);
  }

  /** December starts 31 days before the end of the year. */
  lemma DecemberStart(y: int)
    ensures DaysBeforeMonth(y, 12) + 31 == DaysInYear(y)
  {
    var feb := if IsLeap(y) then 29 else 28;
    assert DaysBeforeMonth(y, 3) == 31 + feb;
    assert DaysBeforeMonth(y, 7) == 31 + feb + 31 + 30 + 31 + 30;
    assert DaysBeforeMonth(y, 12) == 31 + feb + 31 + 30 + 31 + 30 + 31 + 31 + 30 + 31 + 30;
  }

  /** The date `k` days after `c`, stepping with `NextDay`. */
  function DaysAhead(c: Civil, k: nat): (p: Civil)
    requires Valid(c)
    ensures Valid(p) && ToDays(p) == ToDays(c) + k
    decreases k
  {
    if k == 0 then c
    else
      var q := DaysAhead(c, k - 1);
      NextDayToDays(q);
      NextDay(q)
  }

  /** The date `k` days before `c`. */
  function DaysBack(c: Civil, k: nat): (p: Civil)
    requires Valid(c)
    ensures Valid(p) && ToDays(p) == ToDays(c) - k
    decreases k
  {
    if k == 0 then c
    else
      var q := DaysBack(c, k - 1);
      PrevDayToDays(q);
      PrevDay(q)
  }

  /** The Sunday on or before the first of a month: where a Sunday-first month grid starts. */
  function GridStart(year: int, month: int): (s: Civil)
    requires 1 <= month <= 12
    ensures Valid(s) && Weekday(ToDays(s)) == 0
    ensures ToDays(s) == ToDays(Civil(year, month, 1)) - Weekday(ToDays(Civil(year, month, 1)))
  {
    var first := Civil(year, month, 1);
    var s := DaysBack(first, Weekday(ToDays(first)));
    SundayOnOrBefore(ToDays(first), ToDays(s));
    s
  }

  lemma {:induction false} MonthsApart(y: int, m1: int, m2: int)
    requires 1 <= m1 < m2 <= 12
    ensures DaysBeforeMonth(y, m1) + DaysInMonth(y, m1) <= DaysBeforeMonth(y, m2)
    decreases m2 - m1
  {
    if m1 + 1 < m2 {
      MonthsApart(y, m1 + 1, m2);
    }
  }

  /** Different valid dates have different day numbers. */
  lemma ToDaysInjective(c1: Civil, c2: Civil)
    requires Valid(c1) && Valid(c2) && ToDays(c1) == ToDays(c2)
    ensures c1 == c2
  {
    var o1, o2 := Ordinal(c1), Ordinal(c2);
    YearStartNext(c1.year);
    YearStartNext(c2.year);
    InYearUnique(ToDays(c1), c1.year, c2.year);
    if c1.month < c2.month {
      MonthsApart(c1.year, c1.month, c2.month);
    } else if c2.month < c1.month {
      MonthsApart(c1.year, c2.month, c1.month);
    }
  }

  // ---------------------------------------------------------------------------
  // getWeekNumber (script.js:3790-3796)
  // ---------------------------------------------------------------------------

  /** `getUTCDay() || 7`: Monday 1 .. Sunday 7. */
  function IsoDayNum(d: int): (n: int)
    ensures 1 <= n <= 7
  {
    if Weekday(d) == 0 then 7 else Weekday(d)
  }

  /** The Thursday of the Monday-to-Sunday week holding day `d`. */
  function WeekThursday(d: int): (t: int)
    ensures d - 3 <= t <= d + 3
    ensures Weekday(t) == 4
  {
    d + 4 - IsoDayNum(d)
  }

  predicate InYear(t: int, y: int)
  {
    YearStart(y) <= t < YearStart(y + 1)
  }

  /** A day belongs to exactly one year. */
  lemma InYearUnique(t: int, y: int, z: int)
    requires InYear(t, y) && InYear(t, z)
    ensures y == z
  {
    if y < z {
      if y + 1 < z { YearStartMonotone(y + 1, z); }
    } else if z < y {
      if z + 1 < y { YearStartMonotone(z + 1, y); }
    }
  }

  /** Each of the years around `y` is at least 365 days long. */
  lemma YearsAround(y: int)
    ensures YearStart(y - 1) + 365 <= YearStart(y)
    ensures YearStart(y) + 365 <= YearStart(y + 1)
    ensures YearStart(y + 1) + 365 <= YearStart(y + 2)
  {
    YearStartNext(y - 1);
    YearStartNext(y);
    YearStartNext(y + 1);
  }

  /** The year holding the Thursday: `d.getUTCFullYear()` after the shift. */
  function ThursdayYear(c: Civil): (y: int)
    requires Valid(c)
    ensures InYear(WeekThursday(ToDays(c)), y)
    ensures c.year - 1 <= y <= c.year + 1
  {
    var t := WeekThursday(ToDays(c));
    YearsAround(c.year);
    if t < YearStart(c.year) then c.year - 1
    else if t >= YearStart(c.year + 1) then c.year + 1
    else c.year
  }

  /**
   * `getWeekNumber`: shift to the Thursday of the date's week and count the
   * 7-day blocks from January 1st of the Thursday's year, rounding up.
   */
  function WeekNumber(c: Civil): (w: int)
    requires Valid(c)
    ensures 1 <= w <= 53
  {
    var t := WeekThursday(ToDays(c));
    var y := ThursdayYear(c);
    YearStartNext(y);
    var ord := t - YearStart(y);
    (ord + 1 + 6) / 7
  }

  /** The week number depends only on the Monday-to-Sunday week of the date. */
  lemma SameWeekSameNumber(c1: Civil, c2: Civil)
    requires Valid(c1) && Valid(c2)
    requires WeekThursday(ToDays(c1)) == WeekThursday(ToDays(c2))
    ensures WeekNumber(c1) == WeekNumber(c2)
  {
    InYearUnique(WeekThursday(ToDays(c1)), ThursdayYear(c1), ThursdayYear(c2));
  }

  /** Once the Thursday's year is known, the week number is its 7-day block in that year. */
  lemma WeekNumberIn(c: Civil, y: int)
    requires Valid(c) && InYear(WeekThursday(ToDays(c)), y)
    ensures WeekNumber(c) == (WeekThursday(ToDays(c)) - YearStart(y) + 7) / 7
  {
    InYearUnique(WeekThursday(ToDays(c)), ThursdayYear(c), y);
  }

  /** The day numbers of December 28th and 31st. */
  lemma LateDecember(y: int)
    ensures ToDays(Civil(y, 12, 28)) == YearStart(y + 1) - 4
    ensures ToDays(Civil(y, 12, 31)) == YearStart(y + 1) - 1
  {
    YearStartNext(y);
    DecemberStart(y);
  }

  /** ISO 8601 week 1 is the week holding January 4th. */
  lemma January4thIsWeekOne(y: int)
    ensures Valid(Civil(y, 1, 4)) && WeekNumber(Civil(y, 1, 4)) == 1
  {
    var c := Civil(y, 1, 4);
    YearStartNext(y);
    assert ToDays(c) == YearStart(y) + 3;
    InYearUnique(WeekThursday(ToDays(c)), ThursdayYear(c), y);
  }

  /** December 28th always falls in the last week of its year: week 52 or 53. */
  lemma December28thIsLastWeek(y: int)
    ensures Valid(Civil(y, 12, 28))
    ensures WeekNumber(Civil(y, 12, 28)) == 52 || WeekNumber(Civil(y, 12, 28)) == 53
  {
    var c := Civil(y, 12, 28);
    YearStartNext(y);
    var o := Ordinal(c);
    assert o == DaysInYear(y) - 4;
    InYearUnique(WeekThursday(ToDays(c)), ThursdayYear(c), y);
  }

  // ---------------------------------------------------------------------------
  // toISOString().split('T')[0]
  // ---------------------------------------------------------------------------

  /**
   * The calendar day text: four-digit years as `YYYY`, other years in the
   * extended six-digit form with a sign, as `toISOString` writes them.
   */
  function IsoDate(c: Civil): (r: string)
    requires Valid(c)
    ensures 0 <= c.year <= 9999 ==> |r| == 10 && r[4] == '-' && r[7] == '-'
  {
    assert Pow10(2) == 100 && Pow10(4) == 10000;
    NatToStringShort(c.month, 2);
    NatToStringShort(c.day, 2);
    var tail := "-" + Pad(c.month, 2) + "-" + Pad(c.day, 2);
    if 0 <= c.year <= 9999 then
      NatToStringShort(c.year, 4);
      Pad(c.year, 4) + tail
    else if c.year < 0 then "-" + Pad(-c.year, 6) + tail
    else "+" + Pad(c.year, 6) + tail
  }

  /** Reading the three numbers back out of the text gives the date again. */
  lemma IsoDateRoundTrip(c: Civil)
    requires Valid(c) && 0 <= c.year <= 9999
    ensures AllDigits(IsoDate(c)[..4]) && AllDigits(IsoDate(c)[5..7]) && AllDigits(IsoDate(c)[8..])
    ensures DigitsValue(IsoDate(c)[..4]) == c.year
    ensures DigitsValue(IsoDate(c)[5..7]) == c.month
    ensures DigitsValue(IsoDate(c)[8..]) == c.day
  {
    var y, m, d := Pad(c.year, 4), Pad(c.month, 2), Pad(c.day, 2);
    assert Pow10(2) == 100 && Pow10(4) == 10000;
    NatToStringShort(c.year, 4);
    NatToStringShort(c.month, 2);
    NatToStringShort(c.day, 2);
    assert IsoDate(c) == y + ("-" + m + "-" + d);
    DateLayout(y, m, d);
    PadValue(c.year, 4);
    PadValue(c.month, 2);
    PadValue(c.day, 2);
  }

  /** Where the three fields sit in a `YYYY-MM-DD` text. */
  lemma DateLayout(y: string, m: string, d: string)
    requires |y| == 4 && |m| == 2 && |d| == 2
    ensures (y + ("-" + m + "-" + d))[..4] == y
    ensures (y + ("-" + m + "-" + d))[5..7] == m
    ensures (y + ("-" + m + "-" + d))[8..] == d
  {
    var r := y + ("-" + m + "-" + d);
    assert r[5..7] == m by { assert forall k :: 0 <= k < 2 ==> r[5 + k] == m[k]; }
    assert r[8..] == d by { assert forall k :: 0 <= k < 2 ==> r[8 + k] == d[k]; }
  }

  function Pow10(k: nat): (p: nat)
    ensures p >= 1
  {
    if k == 0 then 1 else 10 * Pow10(k - 1)
  }

  lemma {:induction false} NatToStringShort(n: nat, k: nat)
    requires 1 <= k && n < Pow10(k)
    ensures |NatToString(n)| <= k
    decreases n
  {
    if n >= 10 {
      assert Pow10(1) == 10;
      assert Pow10(k) == 10 * Pow10(k - 1);
      NatToStringShort(n / 10, k - 1);
    }
  }

  /** Distinct dates give distinct texts, so matching a holiday's text matches its date. */
  lemma IsoDateInjective(c1: Civil, c2: Civil)
    requires Valid(c1) && 0 <= c1.year <= 9999
    requires Valid(c2) && 0 <= c2.year <= 9999
    requires IsoDate(c1) == IsoDate(c2)
    ensures c1 == c2
  {
    IsoDateRoundTrip(c1);
    IsoDateRoundTrip(c2);
  }
}
