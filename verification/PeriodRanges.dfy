/**
 The reporting periods of the dashboard: the current period up to now and the whole period before it.
 The sales report uses the same period starts.
 */
module PeriodRanges {
  import opened UtcCalendar

  datatype Period = OfDay | OfWeek | OfMonth | OfQuarter | OfYear

  datatype Range = Range(start: int, end: int, prevStart: int, prevEnd: int)

  /** The start of the current period, as both services compute it from the clock. */
  function StartAt(period: Period, now: int): int {
    match period
    case OfDay => DateUtc(FullYear(now), Month(now), Date(now))
    case OfWeek => DateUtc(FullYear(now), Month(now), Date(now) - MondayOffset(now))
    case OfMonth => DateUtc(FullYear(now), Month(now), 1)
    case OfQuarter => DateUtc(FullYear(now), Month(now) / 3 * 3, 1)
    case OfYear => DateUtc(FullYear(now), 0, 1)
  }

  function PrevStartAt(period: Period, now: int): int {
    var start := StartAt(period, now);
    match period
    case OfDay => SetDate(start, Date(start) - 1)
    case OfWeek => SetDate(start, Date(start) - 7)
    case OfMonth => DateUtc(FullYear(now), Month(now) - 1, 1)
    case OfQuarter => DateUtc(FullYear(now), Month(now) / 3 * 3 - 3, 1)
    case OfYear => DateUtc(FullYear(now) - 1, 0, 1)
  }

  function RangeAt(period: Period, now: int): Range {
    var start := StartAt(period, now);
    Range(start, now, PrevStartAt(period, now), SetMilliseconds(start, -1))
  }

  method GetDateRange(period: Period, now: int) returns (range: Range)
    ensures range == RangeAt(period, now)
  {
    hide DateUtc, SetDate, FullYear, Month, Date, WeekDay, SetMilliseconds;
    var start, prevStart, prevEnd: int;
    match period {
      case OfDay =>
        start := DateUtc(FullYear(now), Month(now), Date(now));
        prevStart := start;
        prevStart := SetDate(prevStart, Date(prevStart) - 1);
      case OfWeek =>
        var dayOfWeek := WeekDay(now);
        var mondayOffset := if dayOfWeek == 0 then 6 else dayOfWeek - 1;
        start := DateUtc(FullYear(now), Month(now), Date(now) - mondayOffset);
        prevStart := start;
        prevStart := SetDate(prevStart, Date(prevStart) - 7);
      case OfQuarter =>
        var quarterMonth := Month(now) / 3 * 3;
        start := DateUtc(FullYear(now), quarterMonth, 1);
        prevStart := DateUtc(FullYear(now), quarterMonth - 3, 1);
      case OfYear =>
        start := DateUtc(FullYear(now), 0, 1);
        prevStart := DateUtc(FullYear(now) - 1, 0, 1);
      case OfMonth =>
        start := DateUtc(FullYear(now), Month(now), 1);
        prevStart := DateUtc(FullYear(now), Month(now) - 1, 1);
    }
    prevEnd := start;
    prevEnd := SetMilliseconds(prevEnd, -1);
    range := Range(start, now, prevStart, prevEnd);
  }

  // ------------------------------------------------------------------------------------------
  // The calendar's own periods
  // ------------------------------------------------------------------------------------------

  /** The first day of the period that contains the day, read off the calendar. */
  function FirstDay(period: Period, d: int): int {
    match period
    case OfDay => d
    case OfWeek => d - (d + 3) % 7
    case OfMonth => MonthStart(MonthOf(d))
    case OfQuarter => MonthStart(MonthOf(d) / 3 * 3)
    case OfYear => MonthStart(MonthOf(d) / 12 * 12)
  }

  function PeriodStart(period: Period, t: int): int {
    FirstDay(period, Day(t)) * MS_PER_DAY
  }

  lemma FirstDayBounds(period: Period, d: int)
    ensures d - 366 <= FirstDay(period, d) <= d
  {
    hide MonthStart, MonthOf, DayFromYear;
    var mi := MonthOf(d);
    MonthLengths(mi);
    if period == OfQuarter {
      MonthsIncrease(mi / 3 * 3, mi);
    } else if period == OfYear {
      var y := mi / 12;
      YearStartsMonth(y);
      YearStartsMonth(y + 1);
      YearLength(y);
      MonthsIncrease(12 * y, mi);
      MonthsIncrease(mi + 1, 12 * (y + 1));
    }
  }

  /** Every day between a period's first day and a day of the period lies in that period: no overlap. */
  lemma PeriodsPartition(period: Period, d: int, e: int)
    requires FirstDay(period, d) <= e <= d
    ensures FirstDay(period, e) == FirstDay(period, d)
  {
    var mi, mj := MonthOf(d), MonthOf(e);
    hide MonthStart, MonthOf;
    if mj > mi {
      MonthsIncrease(mi + 1, mj);
    }
    match period
    case OfMonth =>
      if mj < mi { MonthsIncrease(mj + 1, mi); }
    case OfQuarter =>
      if mj < mi / 3 * 3 { MonthsIncrease(mj + 1, mi / 3 * 3); }
    case OfYear =>
      if mj < mi / 12 * 12 { MonthsIncrease(mj + 1, mi / 12 * 12); }
    case _ =>
  }

  lemma FirstDayMonotone(period: Period, d: int, e: int)
    requires d <= e
    ensures FirstDay(period, d) <= FirstDay(period, e)
  {
    hide FirstDay;
    FirstDayBounds(period, d);
    if FirstDay(period, e) <= d {
      PeriodsPartition(period, e, d);
    }
  }

  // ------------------------------------------------------------------------------------------
  // The code's ranges against the calendar
  // ------------------------------------------------------------------------------------------

  predicate TwoDigit(year: int) { 0 <= year <= 99 }

  lemma IndexParts(y: int, m: int)
    requires 0 <= m < 12
    ensures (12 * y + m) / 3 * 3 == 12 * y + m / 3 * 3
    ensures (12 * y + m) / 12 * 12 == 12 * y
  {
    var q, r := m / 3, m % 3;
    assert 12 * y + m == 3 * (4 * y + q) + r;
    assert (12 * y + m) / 3 == 4 * y + q;
    assert (12 * y + m) / 12 == y;
  }

  /** Outside years 0 to 99 the computed start is the calendar's. */
  lemma StartIsCivil(period: Period, now: int)
    requires !TwoDigit(FullYear(now))
    ensures StartAt(period, now) == PeriodStart(period, now)
  {
    hide MonthStart, MonthOf;
    DateRange(now);
    MondayOffsetRange(now);
    var mi := MonthOf(Day(now));
    IndexParts(FullYear(now), Month(now));
  }

  /** Inside years 0 to 99 the computed start lies in the twentieth century. */
  lemma StartInCentury(period: Period, now: int)
    requires TwoDigit(FullYear(now))
    ensures StartAt(period, now) >= (DayFromYear(1900) - 6) * MS_PER_DAY
  {
    var y, m := FullYear(now), Month(now);
    DateRange(now);
    MondayOffsetRange(now);
    hide MonthStart, MonthOf, FullYear, Month, Date, DayFromYear, WeekDay, MondayOffset;
    YearStartsMonth(1900);
    var month := match period case OfQuarter => m / 3 * 3 case OfYear => 0 case _ => m;
    MonthsIncrease(12 * 1900, 12 * (1900 + y) + month);
  }

  /** The first day of the period before, in calendar terms. */
  lemma PreviousFirstDay(period: Period, d: int)
    ensures var first := FirstDay(period, d);
            FirstDay(period, first - 1)
            == match period
               case OfDay => first - 1
               case OfWeek => first - 7
               case OfMonth => MonthStart(MonthOf(d) - 1)
               case OfQuarter => MonthStart(MonthOf(d) / 3 * 3 - 3)
               case OfYear => MonthStart(MonthOf(d) / 12 * 12 - 12)
  {
    hide MonthStart, MonthOf;
    var mi := MonthOf(d);
    match period
    case OfDay =>
    case OfWeek => SundayBefore(d);
    case OfMonth => LastDayOfPrevious(mi);
    case OfQuarter =>
      LastDayOfPrevious(mi / 3 * 3);
      MultipleBefore(mi / 3, 3);
    case OfYear =>
      LastDayOfPrevious(mi / 12 * 12);
      MultipleBefore(mi / 12, 12);
  }

  lemma SundayBefore(d: int)
    ensures var first := d - (d + 3) % 7; (first - 1 + 3) % 7 == 6
  {
    var week := (d + 3) / 7;
    assert d - (d + 3) % 7 - 1 + 3 == 7 * (week - 1) + 6;
  }

  /** The largest multiple of n below n * k is n * (k - 1). */
  lemma MultipleBefore(k: int, n: int)
    requires n == 3 || n == 12
    ensures (k * n - 1) / n * n == k * n - n
  {
    assert k * n - 1 == (k - 1) * n + (n - 1);
  }

  lemma LastDayOfPrevious(mi: int)
    ensures MonthOf(MonthStart(mi) - 1) == mi - 1
  {
    hide MonthStart, MonthOf;
    MonthLengths(mi - 1);
    MonthUnique(MonthStart(mi) - 1, mi - 1);
  }

  lemma PrevStartIsCivil(period: Period, now: int)
    requires !TwoDigit(FullYear(now))
    requires period == OfYear ==> !TwoDigit(FullYear(now) - 1)
    ensures PrevStartAt(period, now) == PeriodStart(period, PeriodStart(period, now) - 1)
  {
    hide StartAt, PrevStartAt, FirstDay, FullYear, MonthStart, MonthOf;
    PreviousFirstDay(period, Day(now));
    DayBefore(FirstDay(period, Day(now)));
    if period == OfDay || period == OfWeek {
      PrevDaysAreCivil(period, now);
    } else {
      PrevMonthIsCivil(period, now);
    }
  }

  lemma PrevDaysAreCivil(period: Period, now: int)
    requires !TwoDigit(FullYear(now)) && (period == OfDay || period == OfWeek)
    ensures PrevStartAt(period, now) == PeriodStart(period, now) - (if period == OfDay then 1 else 7) * MS_PER_DAY
  {
    hide StartAt, PeriodStart, FullYear, Date, SetDate;
    StartIsCivil(period, now);
    SetDateShifts(StartAt(period, now), if period == OfDay then -1 else -7);
  }

  lemma DayBefore(d: int)
    ensures Day(d * MS_PER_DAY - 1) == d - 1
  {
  }

  lemma PrevMonthIsCivil(period: Period, now: int)
    requires !TwoDigit(FullYear(now)) && (period == OfMonth || period == OfQuarter || period == OfYear)
    requires period == OfYear ==> !TwoDigit(FullYear(now) - 1)
    ensures var mi := MonthOf(Day(now));
            PrevStartAt(period, now) == MS_PER_DAY * match period
                                                     case OfMonth => MonthStart(mi - 1)
                                                     case OfQuarter => MonthStart(mi / 3 * 3 - 3)
                                                     case _ => MonthStart(mi / 12 * 12 - 12)
  {
    hide MonthStart, MonthOf, FullYear, Month, Date, StartAt;
    DateRange(now);
    var mi, y, m := MonthOf(Day(now)), FullYear(now), Month(now);
    IndexParts(y, m);
  }

  // ------------------------------------------------------------------------------------------
  // Main theorem
  // ------------------------------------------------------------------------------------------

  /** The two periods are adjacent, in order, and the previous one is what its last instant calls current. */
  predicate Tiles(period: Period, now: int) {
    var range := RangeAt(period, now);
    && range.prevStart <= range.prevEnd == range.start - 1
    && range.start <= range.end == now
    && StartAt(period, range.prevEnd) == range.prevStart
  }

  /** The first instant, in AD 100 or 101, from which ranges tile again. */
  function TilesFrom(period: Period): int {
    match period
    case OfDay => (DayFromYear(100) + 1) * MS_PER_DAY
    case OfWeek => (DayFromYear(100) + 3) * MS_PER_DAY
    case OfMonth => MonthStart(12 * 100 + 1) * MS_PER_DAY
    case OfQuarter => MonthStart(12 * 100 + 3) * MS_PER_DAY
    case OfYear => DayFromYear(101) * MS_PER_DAY
  }

  predicate TwoDigitPeriod(period: Period, now: int) {
    TwoDigit(FullYear(now)) || TwoDigit(FullYear(PeriodStart(period, now) - 1))
  }

  lemma PrevEndIsLastInstant(start: int)
    requires start % MS_PER_DAY == 0
    ensures SetMilliseconds(start, -1) == start - 1
  {
  }

  lemma StartAtMidnight(period: Period, now: int)
    ensures StartAt(period, now) % MS_PER_DAY == 0
  {
    hide MakeDay, FullYear, Month, Date, WeekDay;
  }

  lemma TilesUnlessTwoDigit(period: Period, now: int)
    ensures Tiles(period, now) <==> !TwoDigitPeriod(period, now)
  {
    hide Tiles, TwoDigit, FullYear, PeriodStart, StartAt;
    if TwoDigit(FullYear(now)) {
      NotTiledInTwoDigitYear(period, now);
    } else {
      StartIsCivil(period, now);
      if TwoDigit(FullYear(PeriodStart(period, now) - 1)) {
        NotTiledAcross100(period, now);
      } else {
        TiledOtherwise(period, now);
      }
    }
  }

  lemma NotTiledInTwoDigitYear(period: Period, now: int)
    requires TwoDigit(FullYear(now))
    ensures !Tiles(period, now)
  {
    hide StartAt, PrevStartAt, FullYear, DayFromYear;
    FullYearAtLeast(now, 100);
    StartInCentury(period, now);
    CenturyIsLater();
  }

  lemma TiledOtherwise(period: Period, now: int)
    requires !TwoDigitPeriod(period, now)
    ensures Tiles(period, now)
  {
    hide StartAt, PrevStartAt, FirstDay, FullYear, SetMilliseconds;
    var start := PeriodStart(period, now);
    StartIsCivil(period, now);
    StartIsCivil(period, start - 1);
    if period == OfYear {
      YearBefore(now);
    }
    PrevStartIsCivil(period, now);
    StartAtMidnight(period, now);
    PrevEndIsLastInstant(start);
    FirstDayBounds(period, Day(now));
    FirstDayBounds(period, Day(start - 1));
  }

  lemma CenturyIsLater()
    ensures DayFromYear(100) * MS_PER_DAY < (DayFromYear(1900) - 6) * MS_PER_DAY
  {
  }

  /** The instant before a year's first day lies in the year before. */
  lemma YearBefore(now: int)
    ensures FullYear(PeriodStart(OfYear, now) - 1) == FullYear(now) - 1
  {
    var y := FullYear(now);
    YearStartsMonth(y);
    YearLength(y - 1);
    var start := PeriodStart(OfYear, now);
    assert start == DayFromYear(y) * MS_PER_DAY by {
      hide MonthStart, MonthOf, DayFromYear;
    }
    FullYearAtLeast(start - 1, y);
    FullYearAtLeast(start - 1, y - 1);
    hide *;
  }

  lemma NotTiledAcross100(period: Period, now: int)
    requires !TwoDigit(FullYear(now)) && StartAt(period, now) == PeriodStart(period, now)
    requires TwoDigit(FullYear(PeriodStart(period, now) - 1))
    ensures !Tiles(period, now)
  {
    hide StartAt, PrevStartAt, FirstDay, FullYear, DayFromYear, SetMilliseconds;
    var start := PeriodStart(period, now);
    StartInCentury(period, start - 1);
    CenturyIsLater();
    FullYearAtLeast(start - 1, 100);
    FirstDayBounds(period, Day(start - 1));
    StartAtMidnight(period, now);
    PrevEndIsLastInstant(start);
    if period == OfYear {
      YearBefore(now);
      PrevYearStart(now);
    } else {
      PrevStartIsCivil(period, now);
    }
  }

  lemma PrevYearStart(now: int)
    requires TwoDigit(FullYear(now) - 1)
    ensures PrevStartAt(OfYear, now) >= (DayFromYear(1900) - 6) * MS_PER_DAY
  {
    var y := FullYear(now) - 1;
    hide MonthStart, MonthOf, FullYear, DayFromYear, StartAt;
    YearStartsMonth(1900);
    MonthsIncrease(12 * 1900, 12 * (1900 + y) + 0);
  }

  /** The instants whose ranges fail to tile form one interval, from year 0 to the start given by TilesFrom. */
  lemma TwoDigitPeriodIsInterval(period: Period, now: int)
    ensures TwoDigitPeriod(period, now) <==> DayFromYear(0) * MS_PER_DAY <= now < TilesFrom(period)
  {
    hide FullYear, FirstDay, DayFromYear, MonthStart;
    var d, first := Day(now), FirstDay(period, Day(now));
    var start := PeriodStart(period, now);
    FullYearAtLeast(now, 0);
    FullYearAtLeast(now, 100);
    FullYearAtLeast(start - 1, 0);
    FullYearAtLeast(start - 1, 100);
    FirstDayBounds(period, d);
    FirstDayAcross100(period, d);
    TilesFromDay(period);
    CenturyIsLater();
  }

  /** TilesFrom is the first period start after the first day of year 100. */
  function TilesFromDayNumber(period: Period): int {
    match period
    case OfDay => DayFromYear(100) + 1
    case OfWeek => DayFromYear(100) + 3
    case OfMonth => DayFromYear(100) + 31
    case OfQuarter => DayFromYear(100) + 90
    case OfYear => DayFromYear(100) + 365
  }

  lemma TilesFromDay(period: Period)
    ensures TilesFrom(period) == TilesFromDayNumber(period) * MS_PER_DAY
    ensures DayFromYear(100) > DayFromYear(0) + 366
  {
    hide MonthStart, DayFromYear;
    Year100();
    Months100();
  }

  lemma Year100()
    ensures DayFromYear(0) == -719528 && DayFromYear(100) == -683003 && DayFromYear(101) == -682638
  {
  }

  lemma Months100()
    ensures MonthStart(1200) == -683003 && MonthStart(1201) == -682972
    ensures MonthStart(1202) == -682944 && MonthStart(1203) == -682913
    ensures MonthStart(1204) == -682883
    ensures MonthStart(1211) == -682669 && MonthStart(1212) == -682638 && MonthStart(1213) == -682607
  {
    hide DayFromYear;
    Year100();
  }

  lemma FirstDayAcross100(period: Period, d: int)
    ensures d >= TilesFromDayNumber(period) ==> FirstDay(period, d) > DayFromYear(100)
    ensures DayFromYear(100) <= d < TilesFromDayNumber(period) ==> FirstDay(period, d) <= DayFromYear(100)
  {
    hide FirstDay, DayFromYear;
    if d >= TilesFromDayNumber(period) {
      FirstDayMonotone(period, TilesFromDayNumber(period), d);
      BoundaryDay(period);
    } else if DayFromYear(100) <= d {
      FirstDayMonotone(period, d, TilesFromDayNumber(period) - 1);
      BoundaryDay(period);
    }
  }

  lemma BoundaryDay(period: Period)
    ensures FirstDay(period, TilesFromDayNumber(period)) == TilesFromDayNumber(period)
    ensures FirstDay(period, TilesFromDayNumber(period) - 1) <= DayFromYear(100)
  {
    hide MonthStart, MonthOf, DayFromYear;
    var d := TilesFromDayNumber(period);
    Year100();
    Months100();
    match period
    case OfMonth =>
      MonthUnique(d, 1201);
      MonthUnique(d - 1, 1200);
    case OfQuarter =>
      MonthUnique(d, 1203);
      MonthUnique(d - 1, 1202);
    case OfYear =>
      MonthUnique(d, 1212);
      MonthUnique(d - 1, 1211);
    case _ =>
  }

  /**
   For every period kind and every instant: the previous period ends one millisecond before the current
   one starts and is exactly the period of that millisecond, unless the clock is inside the interval
   that `Date.UTC` misreads.
   */
  lemma PeriodsTile(period: Period, now: int)
    ensures Tiles(period, now) <==> now < DayFromYear(0) * MS_PER_DAY || TilesFrom(period) <= now
  {
    TilesUnlessTwoDigit(period, now);
    TwoDigitPeriodIsInterval(period, now);
    hide *;
  }

  /** At the start of year 50 no period tiles. */
  lemma Year50DoesNotTile(period: Period)
    ensures !Tiles(period, DayFromYear(50) * MS_PER_DAY)
  {
    assert DayFromYear(0) <= DayFromYear(50) < DayFromYear(51) < DayFromYear(100);
    hide FullYear, Tiles, DayFromYear;
    FullYearAtLeast(DayFromYear(50) * MS_PER_DAY, 50);
    FullYearAtLeast(DayFromYear(50) * MS_PER_DAY, 51);
    NotTiledInTwoDigitYear(period, DayFromYear(50) * MS_PER_DAY);
  }

  // ------------------------------------------------------------------------------------------
  // The calendar's periods in terms of dates
  // ------------------------------------------------------------------------------------------

  /** The start lies at midnight, no later than the instant, on the first day of the instant's period. */
  predicate StartsPeriod(period: Period, start: int, t: int) {
    && start % 86_400_000 == 0 && start <= t
    && match period
       case OfDay => t - start < 86_400_000
       case OfWeek => WeekDay(start) == 1 && t - start < 7 * 86_400_000
       case OfMonth => Date(start) == 1 && Month(start) == Month(t) && FullYear(start) == FullYear(t)
       case OfQuarter =>
         Date(start) == 1 && Month(start) % 3 == 0 && Month(start) <= Month(t) < Month(start) + 3
         && FullYear(start) == FullYear(t)
       case OfYear => Date(start) == 1 && Month(start) == 0 && FullYear(start) == FullYear(t)
  }

  lemma MonthFirst(mi: int)
    ensures FullYear(MonthStart(mi) * MS_PER_DAY) == mi / 12 && Month(MonthStart(mi) * MS_PER_DAY) == mi % 12
    ensures Date(MonthStart(mi) * MS_PER_DAY) == 1
  {
    hide MonthStart, MonthOf;
    MonthLengths(mi);
    MonthUnique(MonthStart(mi), mi);
    assert Day(MonthStart(mi) * MS_PER_DAY) == MonthStart(mi);
  }

  lemma MidnightBelow(d: int, now: int)
    requires d <= Day(now)
    ensures d * MS_PER_DAY <= now && d * MS_PER_DAY % 86_400_000 == 0
  {
  }

  lemma DayFirst(now: int)
    ensures now - Day(now) * MS_PER_DAY < 86_400_000
  {
  }

  lemma MonthCase(now: int)
    ensures var start := MonthStart(MonthOf(Day(now))) * MS_PER_DAY;
            Date(start) == 1 && Month(start) == Month(now) && FullYear(start) == FullYear(now)
  {
    var mi := MonthOf(Day(now));
    MonthFirst(mi);
    assert FullYear(now) == mi / 12 && Month(now) == mi % 12;
    hide *;
  }

  lemma QuarterCase(now: int)
    ensures var start := MonthStart(MonthOf(Day(now)) / 3 * 3) * MS_PER_DAY;
            Date(start) == 1 && Month(start) % 3 == 0 && Month(start) <= Month(now) < Month(start) + 3
            && FullYear(start) == FullYear(now)
  {
    var mi := MonthOf(Day(now));
    MonthFirst(mi / 3 * 3);
    QuarterOf(mi);
    assert FullYear(now) == mi / 12 && Month(now) == mi % 12;
    hide *;
  }

  lemma YearCase(now: int)
    ensures var start := MonthStart(MonthOf(Day(now)) / 12 * 12) * MS_PER_DAY;
            Date(start) == 1 && Month(start) == 0 && FullYear(start) == FullYear(now)
  {
    var mi := MonthOf(Day(now));
    MonthFirst(mi / 12 * 12);
    YearOf(mi);
    assert FullYear(now) == mi / 12;
    hide *;
  }

  lemma PeriodFirst(period: Period, now: int)
    ensures StartsPeriod(period, PeriodStart(period, now), now)
  {
    hide WeekDay, Date, Day, MonthOf, MonthStart, FullYear, Month;
    FirstDayBounds(period, Day(now));
    MidnightBelow(FirstDay(period, Day(now)), now);
    DayFirst(now);
    WeekFirst(now);
    MonthCase(now);
    QuarterCase(now);
    YearCase(now);
  }

  /** Outside years 0 to 99 the computed start is the first midnight of the clock's day, Monday week, month, quarter, year. */
  lemma StartIsFirst(period: Period, now: int)
    requires !TwoDigit(FullYear(now))
    ensures StartsPeriod(period, StartAt(period, now), now)
  {
    hide StartsPeriod, StartAt, PeriodStart, FullYear;
    StartIsCivil(period, now);
    PeriodFirst(period, now);
  }

  lemma WeekFirst(now: int)
    ensures var start := (Day(now) - (Day(now) + 3) % 7) * MS_PER_DAY;
            WeekDay(start) == 1 && start <= now && now - start < 7 * MS_PER_DAY
  {
    var d := Day(now);
    var first := d - (d + 3) % 7;
    assert Day(first * MS_PER_DAY) == first;
    assert first + 4 == 7 * ((d + 3) / 7) + 1;
    assert d <= first + 6 && d * MS_PER_DAY <= now < (d + 1) * MS_PER_DAY;
  }

  lemma QuarterOf(mi: int)
    ensures var q := mi / 3 * 3; q / 12 == mi / 12 && q % 12 % 3 == 0 && q % 12 <= mi % 12 < q % 12 + 3
  {
    var y, m := mi / 12, mi % 12;
    IndexParts(y, m);
    assert mi == 12 * y + m && (12 * y + m / 3 * 3) / 12 == y;
  }

  lemma YearOf(mi: int)
    ensures var first := mi / 12 * 12; first / 12 == mi / 12 && first % 12 == 0
  {
  }
}
