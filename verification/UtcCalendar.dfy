/**
 UTC dates as section 21.4.1 of ECMA-262 defines them: a time value is a number of milliseconds, a
 day number counts from 1970-01-01, and the proleptic Gregorian calendar turns a day number into a
 year, a month and a date. `/` and `%` round towards minus infinity for the positive divisors here.
 */
module UtcCalendar {

  const MS_PER_DAY: int := 86_400_000

  function Day(t: int): int { t / MS_PER_DAY }

  function TimeWithinDay(t: int): int { t % MS_PER_DAY }

  predicate Leap(y: int) {
    y % 4 == 0 && (y % 100 != 0 || y % 400 == 0)
  }

  function DayFromYear(y: int): int {
    365 * (y - 1970) + (y - 1969) / 4 - (y - 1901) / 100 + (y - 1601) / 400
  }

  lemma LeapCycle4(y: int)
    ensures (y - 1968) / 4 == (y - 1969) / 4 + if y % 4 == 0 then 1 else 0
  {
    assert y == 4 * (y / 4) + y % 4;
    assert (y - 1968) / 4 == y / 4 - 492;
  }

  lemma LeapCycle100(y: int)
    ensures (y - 1900) / 100 == (y - 1901) / 100 + if y % 100 == 0 then 1 else 0
  {
    assert y == 100 * (y / 100) + y % 100;
    assert (y - 1900) / 100 == y / 100 - 19;
  }

  lemma LeapCycle400(y: int)
    ensures (y - 1600) / 400 == (y - 1601) / 400 + if y % 400 == 0 then 1 else 0
  {
    assert y == 400 * (y / 400) + y % 400;
    assert (y - 1600) / 400 == y / 400 - 4;
  }

  lemma LeapParts(y: int)
    ensures (if Leap(y) then 1 else 0)
            == (if y % 4 == 0 then 1 else 0) - (if y % 100 == 0 then 1 else 0) + (if y % 400 == 0 then 1 else 0)
  {
    CenturyNesting(y);
    var fourth, hundredth, fourHundredth := y % 4 == 0, y % 100 == 0, y % 400 == 0;
    assert Leap(y) == (fourth && (!hundredth || fourHundredth));
  }

  lemma CenturyNesting(y: int)
    ensures y % 100 == 0 ==> y % 4 == 0
    ensures y % 400 == 0 ==> y % 100 == 0
  {
    var a, b := y / 100, y / 400;
    if y % 100 == 0 {
      assert y == 4 * (25 * a);
    }
    if y % 400 == 0 {
      assert y == 100 * (4 * b);
    }
  }

  /** The closed formula advances by 366 days over a leap year and by 365 over any other. */
  lemma YearLength(y: int)
    ensures DayFromYear(y + 1) == DayFromYear(y) + if Leap(y) then 366 else 365
  {
    hide Leap;
    LeapCycle4(y);
    LeapCycle100(y);
    LeapCycle400(y);
    LeapParts(y);
    var before, after := DayFromYear(y), DayFromYear(y + 1);
    assert before == 365 * (y - 1970) + (y - 1969) / 4 - (y - 1901) / 100 + (y - 1601) / 400;
    assert after == 365 * (y - 1969) + (y - 1968) / 4 - (y - 1900) / 100 + (y - 1600) / 400;
    hide DayFromYear;
  }

  /** The year that contains the day: an estimate from the 400-year cycle, at most one year off. */
  function YearFromDay(d: int): (y: int)
    ensures DayFromYear(y) <= d < DayFromYear(y + 1)
  {
    var estimate := 1970 + 400 * d / 146097;
    YearEstimate(d);
    if d < DayFromYear(estimate) then estimate - 1
    else if DayFromYear(estimate + 1) <= d then estimate + 1
    else estimate
  }

  /** 400 times the first day of a year stays close to 146097 days per 400 years. */
  lemma YearDrift(y: int)
    ensures 146097 * (y - 1970) - 506 <= 400 * DayFromYear(y) <= 146097 * (y - 1970) + 589
  {
    var x := y - 1970;
    var q, c, f := (y - 1969) / 4, (y - 1901) / 100, (y - 1601) / 400;
    assert 4 * q <= x + 1 <= 4 * q + 3;
    assert 100 * c <= x + 69 <= 100 * c + 99;
    assert 400 * f <= x + 369 <= 400 * f + 399;
  }

  lemma YearEstimate(d: int)
    ensures var e := 1970 + 400 * d / 146097; DayFromYear(e - 1) <= d < DayFromYear(e + 2)
  {
    var e := 1970 + 400 * d / 146097;
    YearDrift(e - 1);
    YearDrift(e + 2);
  }

  // Months are numbered across years: month m (from 0) of year y is month index 12 * y + m.

  function DaysBeforeMonth(m: int, leap: bool): int
    requires 0 <= m < 12
  {
    [0, 31, 59, 90, 120, 151, 181, 212, 243, 273, 304, 334][m] + if leap && m >= 2 then 1 else 0
  }

  /** The day number of the first day of a month index. */
  function MonthStart(mi: int): int {
    DayFromYear(mi / 12) + DaysBeforeMonth(mi % 12, Leap(mi / 12))
  }

  function MonthLength(mi: int): int {
    MonthStart(mi + 1) - MonthStart(mi)
  }

  lemma MonthLengths(mi: int)
    ensures 28 <= MonthLength(mi) <= 31
  {
    YearLength(mi / 12);
    if mi % 12 == 11 {
      assert (mi + 1) / 12 == mi / 12 + 1 && (mi + 1) % 12 == 0;
    } else {
      assert (mi + 1) / 12 == mi / 12 && (mi + 1) % 12 == mi % 12 + 1;
    }
  }

  /** Thirty days have April, June, September and November; February has 28, or 29 in a leap year. */
  lemma MonthLengthIs(y: int, m: int)
    requires 0 <= m < 12
    ensures MonthLength(12 * y + m)
            == if m == 3 || m == 5 || m == 8 || m == 10 then 30
               else if m == 1 then if y % 4 == 0 && (y % 100 != 0 || y % 400 == 0) then 29 else 28
               else 31
  {
    YearLength(y);
    assert (12 * y + m) / 12 == y && (12 * y + m) % 12 == m;
    if m == 11 {
      assert (12 * y + m + 1) / 12 == y + 1 && (12 * y + m + 1) % 12 == 0;
    } else {
      assert (12 * y + m + 1) / 12 == y && (12 * y + m + 1) % 12 == m + 1;
    }
    hide DayFromYear;
  }

  lemma YearZero()
    ensures DayFromYear(1970) == 0
  {
  }

  lemma MonthZero()
    ensures MonthOf(0) == 23640 && MonthStart(23640) == 0
  {
    hide MonthOf, MonthStart, DayFromYear;
    YearZero();
    YearStartsMonth(1970);
    MonthLengths(23640);
    MonthUnique(0, 23640);
  }

  /** Day 0 is 1 January 1970, a Thursday. */
  lemma DayZero()
    ensures FullYear(0) == 1970 && Month(0) == 0 && Date(0) == 1 && WeekDay(0) == 4
  {
    hide MonthOf, MonthStart;
    MonthZero();
    assert Day(0) == 0;
  }

  lemma NextDayMonth(d: int)
    ensures var mi := MonthOf(d);
            if d + 1 < MonthStart(mi + 1) then MonthOf(d + 1) == mi
            else MonthOf(d + 1) == mi + 1 && d + 1 == MonthStart(mi + 1)
  {
    hide MonthOf, MonthStart;
    var mi := MonthOf(d);
    if d + 1 < MonthStart(mi + 1) {
      MonthUnique(d + 1, mi);
    } else {
      MonthLengths(mi + 1);
      MonthUnique(d + 1, mi + 1);
    }
  }

  lemma NextIndex(mi: int)
    ensures if mi % 12 < 11 then (mi + 1) / 12 == mi / 12 && (mi + 1) % 12 == mi % 12 + 1
            else (mi + 1) / 12 == mi / 12 + 1 && (mi + 1) % 12 == 0
  {
  }

  lemma NextMidnight(t: int)
    ensures Day(t + MS_PER_DAY) == Day(t) + 1 && TimeWithinDay(t + MS_PER_DAY) == TimeWithinDay(t)
    ensures WeekDay(t + MS_PER_DAY) == (WeekDay(t) + 1) % 7
  {
  }

  /** The next day is the next date of the month, or the first of the next month. */
  lemma NextDay(t: int)
    ensures var u := t + MS_PER_DAY;
            && TimeWithinDay(u) == TimeWithinDay(t) && WeekDay(u) == (WeekDay(t) + 1) % 7
            && if Date(t) < MonthLength(12 * FullYear(t) + Month(t))
               then FullYear(u) == FullYear(t) && Month(u) == Month(t) && Date(u) == Date(t) + 1
               else Date(u) == 1 && if Month(t) < 11 then FullYear(u) == FullYear(t) && Month(u) == Month(t) + 1
                                    else FullYear(u) == FullYear(t) + 1 && Month(u) == 0
  {
    hide MonthOf, MonthStart, WeekDay, Day, TimeWithinDay;
    var mi := MonthOf(Day(t));
    NextMidnight(t);
    NextDayMonth(Day(t));
    NextIndex(mi);
    assert 12 * FullYear(t) + Month(t) == mi;
  }

  lemma MonthStep(mi: int)
    ensures MonthStart(mi) + 28 <= MonthStart(mi + 1) <= MonthStart(mi) + 31
  {
    hide MonthStart;
    MonthLengths(mi);
  }

  lemma {:induction false} MonthsIncrease(a: int, b: int)
    requires a <= b
    ensures MonthStart(a) + 28 * (b - a) <= MonthStart(b) <= MonthStart(a) + 31 * (b - a)
    decreases b - a
  {
    hide MonthStart;
    if a < b {
      MonthsIncrease(a, b - 1);
      MonthStep(b - 1);
    }
  }

  /** The first month index, from `mi` on, whose end is after the day. */
  function MonthFrom(d: int, mi: int): (r: int)
    requires MonthStart(mi) <= d
    ensures MonthStart(r) <= d < MonthStart(r + 1)
    decreases d - MonthStart(mi)
  {
    hide MonthStart;
    MonthLengths(mi);
    if d < MonthStart(mi + 1) then mi else MonthFrom(d, mi + 1)
  }

  /** The month index that contains the day. */
  function MonthOf(d: int): (mi: int)
    ensures MonthStart(mi) <= d < MonthStart(mi + 1)
  {
    var y := YearFromDay(d);
    assert 12 * y / 12 == y && 12 * y % 12 == 0;
    MonthFrom(d, 12 * y)
  }

  /** A day lies in one month only. */
  lemma MonthUnique(d: int, mi: int)
    requires MonthStart(mi) <= d < MonthStart(mi + 1)
    ensures MonthOf(d) == mi
  {
    hide *;
    var other := MonthOf(d);
    if other < mi {
      MonthsIncrease(other + 1, mi);
    } else if mi < other {
      MonthsIncrease(mi + 1, other);
    }
  }

  // The getters and setters of Date, on time values.

  function FullYear(t: int): int { MonthOf(Day(t)) / 12 }

  function Month(t: int): int { MonthOf(Day(t)) % 12 }

  function Date(t: int): int { Day(t) - MonthStart(MonthOf(Day(t))) + 1 }

  function WeekDay(t: int): int { (Day(t) + 4) % 7 }

  function MakeDay(year: int, month: int, date: int): int {
    MonthStart(12 * year + month) + date - 1
  }

  function MakeDate(day: int, time: int): int { day * MS_PER_DAY + time }

  /** `Date.UTC`, which reads years 0 to 99 as 1900 to 1999. */
  function DateUtc(year: int, month: int, date: int): int {
    MakeDate(MakeDay(if 0 <= year <= 99 then 1900 + year else year, month, date), 0)
  }

  function SetDate(t: int, date: int): int {
    MakeDate(MakeDay(FullYear(t), Month(t), date), TimeWithinDay(t))
  }

  function SetMonth(t: int, month: int): int {
    MakeDate(MakeDay(FullYear(t), month, Date(t)), TimeWithinDay(t))
  }

  function SetMilliseconds(t: int, ms: int): int { t - t % 1000 + ms }

  /** Days since the Monday of the week. */
  function MondayOffset(t: int): int {
    if WeekDay(t) == 0 then 6 else WeekDay(t) - 1
  }

  lemma MondayOffsetRange(t: int)
    ensures MondayOffset(t) == (Day(t) + 3) % 7
  {
  }

  /** Moving the date by k days moves the time value by k days, across months and years. */
  lemma SetDateShifts(t: int, k: int)
    ensures SetDate(t, Date(t) + k) == t + k * MS_PER_DAY
  {
    hide MonthStart, MonthOf;
    assert 12 * FullYear(t) + Month(t) == MonthOf(Day(t));
  }

  /** Moving to the next month lands on the same date, or overflows into the month after it. */
  lemma SetMonthShifts(t: int)
    ensures SetMonth(t, Month(t) + 1)
            == MakeDate(MonthStart(MonthOf(Day(t)) + 1) + Date(t) - 1, TimeWithinDay(t))
  {
    hide MonthStart, MonthOf;
    assert 12 * FullYear(t) + Month(t) + 1 == MonthOf(Day(t)) + 1;
  }

  lemma YearStartsMonth(y: int)
    ensures MonthStart(12 * y) == DayFromYear(y)
  {
    hide DayFromYear, Leap;
    assert 12 * y / 12 == y && 12 * y % 12 == 0;
  }

  /** The year of an instant is decided by comparing it with the first instants of years. */
  lemma FullYearAtLeast(t: int, y: int)
    ensures FullYear(t) >= y <==> t >= DayFromYear(y) * MS_PER_DAY
  {
    var mi := MonthOf(Day(t));
    hide MonthStart, MonthOf, DayFromYear;
    YearStartsMonth(y);
    if mi / 12 >= y {
      MonthsIncrease(12 * y, mi);
    } else {
      MonthsIncrease(mi + 1, 12 * y);
    }
  }

  lemma DateRange(t: int)
    ensures 0 <= Month(t) < 12 && 1 <= Date(t) <= 31
    ensures 12 * FullYear(t) + Month(t) == MonthOf(Day(t))
    ensures MakeDay(FullYear(t), Month(t), Date(t)) == Day(t)
  {
    hide MonthStart, MonthOf;
    MonthLengths(MonthOf(Day(t)));
  }
}
