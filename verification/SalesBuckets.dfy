/**
 The sales report: the bucket labels of a date range, the orders counted into them, and exactly when
 no paid order of the range is lost.
 */
module SalesBuckets {
  import opened Common
  import opened UtcCalendar
  import opened PeriodRanges

  datatype GroupBy = ByDay | ByWeek | ByMonth

  /** "YYYY-MM-DD" and "YYYY-MM". */
  datatype Label = DateLabel(year: int, month: int, date: int) | MonthLabel(year: int, month: int)

  function DateLabelOf(t: int): Label {
    DateLabel(FullYear(t), Month(t), Date(t))
  }

  function GetDateBucket(t: int, g: GroupBy): Label {
    match g
    case ByDay => DateLabelOf(t)
    case ByWeek => DateLabelOf(SetDate(t, Date(t) - MondayOffset(t)))
    case ByMonth => MonthLabel(FullYear(t), Month(t))
  }

  /** Where the loop of `generateDateBuckets` moves next. */
  function Advance(t: int, g: GroupBy): int {
    match g
    case ByDay => SetDate(t, Date(t) + 1)
    case ByWeek => SetDate(t, Date(t) + 7)
    case ByMonth => SetMonth(t, Month(t) + 1)
  }

  // ------------------------------------------------------------------------------------------
  // Buckets as numbers
  // ------------------------------------------------------------------------------------------

  /** Days, Monday weeks and months, numbered in order. */
  function BucketOf(t: int, g: GroupBy): int {
    match g
    case ByDay => Day(t)
    case ByWeek => (Day(t) + 3) / 7
    case ByMonth => MonthOf(Day(t))
  }

  function BucketDay(i: int, g: GroupBy): int {
    match g
    case ByDay => i
    case ByWeek => 7 * i - 3
    case ByMonth => MonthStart(i)
  }

  /** The first instant of a bucket. */
  function BucketStart(i: int, g: GroupBy): int {
    BucketDay(i, g) * MS_PER_DAY
  }

  /** How far into its bucket an instant lies. */
  function Position(t: int, g: GroupBy): int {
    t - BucketStart(BucketOf(t, g), g)
  }

  function DayLabel(d: int): Label {
    DateLabel(MonthOf(d) / 12, MonthOf(d) % 12, d - MonthStart(MonthOf(d)) + 1)
  }

  function BucketLabel(i: int, g: GroupBy): Label {
    match g
    case ByDay => DayLabel(i)
    case ByWeek => DayLabel(7 * i - 3)
    case ByMonth => MonthLabel(i / 12, i % 12)
  }

  lemma MidnightDay(d: int, time: int)
    requires 0 <= time < MS_PER_DAY
    ensures Day(d * MS_PER_DAY + time) == d
  {
  }

  lemma BucketBounds(t: int, g: GroupBy)
    ensures BucketStart(BucketOf(t, g), g) <= t < BucketStart(BucketOf(t, g) + 1, g)
  {
    hide MonthStart, MonthOf;
    var d := Day(t);
    assert d * MS_PER_DAY <= t < (d + 1) * MS_PER_DAY;
    assert BucketDay(BucketOf(t, g), g) <= d < BucketDay(BucketOf(t, g) + 1, g);
  }

  /** Later buckets start later. */
  lemma BucketsIncrease(i: int, j: int, g: GroupBy)
    requires i < j
    ensures BucketStart(i, g) < BucketStart(j, g)
  {
    hide MonthStart;
    if g == ByMonth {
      MonthsIncrease(i, j);
    }
  }

  lemma BucketUnique(t: int, i: int, g: GroupBy)
    requires BucketStart(i, g) <= t < BucketStart(i + 1, g)
    ensures BucketOf(t, g) == i
  {
    hide BucketStart, BucketOf;
    BucketBounds(t, g);
    var j := BucketOf(t, g);
    if i < j {
      if i + 1 < j { BucketsIncrease(i + 1, j, g); }
    } else if j < i {
      if j + 1 < i { BucketsIncrease(j + 1, i, g); }
    }
  }

  lemma BucketMonotone(t: int, u: int, g: GroupBy)
    requires t <= u
    ensures BucketOf(t, g) <= BucketOf(u, g)
  {
    hide BucketStart, BucketOf;
    BucketBounds(t, g);
    BucketBounds(u, g);
    var i, j := BucketOf(t, g), BucketOf(u, g);
    if j < i && j + 1 < i {
      BucketsIncrease(j + 1, i, g);
    }
  }

  /** The label the code prints is the label of the bucket that contains the instant. */
  lemma LabelIsBucketLabel(t: int, g: GroupBy)
    ensures GetDateBucket(t, g) == BucketLabel(BucketOf(t, g), g)
  {
    hide MonthStart, MonthOf;
    if g == ByWeek {
      MondayOffsetRange(t);
      SetDateShifts(t, -MondayOffset(t));
      var monday := t - MondayOffset(t) * MS_PER_DAY;
      hide SetDate, Date, FullYear, Month;
      WeekMonday(t);
      DateLabelOfDay(monday);
    } else if g == ByDay {
      DateLabelOfDay(t);
    }
  }

  lemma MondayBack(t: int)
    ensures 0 <= MondayOffset(t) <= 6 && WeekDay(t - MondayOffset(t) * 86_400_000) == 1
  {
    MondayOffsetRange(t);
    hide MondayOffset;
    var k := MondayOffset(t);
    assert Day(t - k * MS_PER_DAY) == Day(t) - k;
    assert Day(t) - k + 4 == 7 * ((Day(t) + 3) / 7) + 1;
  }

  /** A week's label is the date of the Monday at most six days before; a month's is its year and month. */
  lemma LabelInDates(t: int)
    ensures GetDateBucket(t, ByDay) == DateLabel(FullYear(t), Month(t), Date(t))
    ensures GetDateBucket(t, ByMonth) == MonthLabel(FullYear(t), Month(t))
    ensures exists k :: 0 <= k <= 6 && WeekDay(t - k * 86_400_000) == 1
                        && GetDateBucket(t, ByWeek) == GetDateBucket(t - k * 86_400_000, ByDay)
  {
    hide SetDate, FullYear, Month, Date, WeekDay, MondayOffset;
    MondayBack(t);
    SetDateShifts(t, -MondayOffset(t));
    assert GetDateBucket(t, ByWeek) == GetDateBucket(t - MondayOffset(t) * 86_400_000, ByDay);
  }

  lemma WeekMonday(t: int)
    ensures Day(t - (Day(t) + 3) % 7 * MS_PER_DAY) == 7 * ((Day(t) + 3) / 7) - 3
  {
    var k := (Day(t) + 3) % 7;
    MidnightDay(Day(t) - k, TimeWithinDay(t));
  }

  lemma DateLabelOfDay(t: int)
    ensures DateLabelOf(t) == DayLabel(Day(t))
  {
    hide MonthStart, MonthOf;
  }

  /** Distinct buckets have distinct labels. */
  lemma LabelsInjective(i: int, j: int, g: GroupBy)
    requires BucketLabel(i, g) == BucketLabel(j, g)
    ensures i == j
  {
    hide MonthStart, MonthOf;
    if g != ByMonth {
      var d, e := if g == ByDay then i else 7 * i - 3, if g == ByDay then j else 7 * j - 3;
      assert MonthOf(d) == 12 * (MonthOf(d) / 12) + MonthOf(d) % 12;
      assert MonthOf(e) == 12 * (MonthOf(e) / 12) + MonthOf(e) % 12;
    }
  }

  // ------------------------------------------------------------------------------------------
  // The walk of the bucket loop
  // ------------------------------------------------------------------------------------------

  /** Moving on lands at the same position of the next bucket, unless the next month is too short. */
  lemma AdvanceStep(t: int, g: GroupBy)
    ensures t < Advance(t, g)
    ensures var i := BucketOf(t, g);
            if g == ByMonth && MonthLength(i + 1) < Date(t) then BucketOf(Advance(t, g), g) == i + 2
            else BucketOf(Advance(t, g), g) == i + 1 && Position(Advance(t, g), g) == Position(t, g)
                 && (g == ByMonth ==> Date(Advance(t, g)) == Date(t))
  {
    match g
    case ByDay =>
      hide MonthStart, MonthOf, SetDate, Date;
      SetDateShifts(t, 1);
    case ByWeek =>
      hide MonthStart, MonthOf, SetDate, Date;
      SetDateShifts(t, 7);
      WeekLater(t);
    case ByMonth => AdvanceMonth(t);
  }

  lemma WeekLater(t: int)
    ensures Day(t + 7 * MS_PER_DAY) == Day(t) + 7
    ensures (Day(t) + 7 + 3) / 7 == (Day(t) + 3) / 7 + 1
  {
    MidnightDay(Day(t) + 7, TimeWithinDay(t));
  }

  lemma AdvanceMonth(t: int)
    ensures t < Advance(t, ByMonth)
    ensures var i := BucketOf(t, ByMonth);
            if MonthLength(i + 1) < Date(t) then BucketOf(Advance(t, ByMonth), ByMonth) == i + 2
            else BucketOf(Advance(t, ByMonth), ByMonth) == i + 1
                 && Position(Advance(t, ByMonth), ByMonth) == Position(t, ByMonth)
                 && Date(Advance(t, ByMonth)) == Date(t)
  {
    hide MonthStart, MonthOf, SetMonth;
    var i, date, time := MonthOf(Day(t)), Date(t), TimeWithinDay(t);
    SetMonthShifts(t);
    MonthLengths(i);
    MonthLengths(i + 1);
    MonthLengths(i + 2);
    DateRange(t);
    var day := MonthStart(i + 1) + date - 1;
    MidnightDay(day, time);
    assert Advance(t, ByMonth) == day * MS_PER_DAY + time;
    assert t == Day(t) * MS_PER_DAY + time;
    MonthUnique(day, if MonthLength(i + 1) < date then i + 2 else i + 1);
  }

  /** The instants at which the loop pushes a label. */
  function Walk(current: int, end: int, g: GroupBy): seq<int>
    decreases end - current
  {
    if current > end then []
    else
      AdvanceStep(current, g);
      [current] + Walk(Advance(current, g), end, g)
  }

  function Labels(instants: seq<int>, g: GroupBy): seq<Label> {
    seq(|instants|, i requires 0 <= i < |instants| => GetDateBucket(instants[i], g))
  }

  method GenerateDateBuckets(start: int, end: int, g: GroupBy) returns (buckets: seq<Label>)
    ensures buckets == Labels(Walk(start, end, g), g)
  {
    hide GetDateBucket, Advance, BucketOf, Position, MonthLength, Date, NoGap;
    buckets := [];
    var current := start;
    ghost var visited := [];
    while current <= end
      invariant buckets == Labels(visited, g)
      invariant visited + Walk(current, end, g) == Walk(start, end, g)
      decreases end - current
    {
      buckets := buckets + [GetDateBucket(current, g)];
      AdvanceStep(current, g);
      ghost var next := Advance(current, g);
      assert Walk(current, end, g) == [current] + Walk(next, end, g);
      assert visited + ([current] + Walk(next, end, g)) == visited + [current] + Walk(next, end, g);
      visited := visited + [current];
      current := Advance(current, g);
    }
    assert Walk(current, end, g) == [];
    assert visited + [] == visited;
  }

  /** Bucket numbers strictly increase along the walk, from the first instant's bucket. */
  lemma {:induction false} WalkIncreases(current: int, end: int, g: GroupBy)
    ensures forall k :: 0 <= k < |Walk(current, end, g)|
                        ==> current <= Walk(current, end, g)[k] <= end
                            && BucketOf(current, g) <= BucketOf(Walk(current, end, g)[k], g)
    ensures forall k, l :: 0 <= k < l < |Walk(current, end, g)|
                           ==> BucketOf(Walk(current, end, g)[k], g) < BucketOf(Walk(current, end, g)[l], g)
    decreases end - current
  {
    hide BucketOf, Advance, MonthLength, Date, Position;
    if current <= end {
      AdvanceStep(current, g);
      WalkIncreases(Advance(current, g), end, g);
      assert Walk(current, end, g) == [current] + Walk(Advance(current, g), end, g);
    }
  }

  // ------------------------------------------------------------------------------------------
  // Exactly when every instant of the range has its bucket
  // ------------------------------------------------------------------------------------------

  /** Some pushed instant lies in bucket i. */
  predicate Visits(instants: seq<int>, i: int, g: GroupBy) {
    exists k :: 0 <= k < |instants| && BucketOf(instants[k], g) == i
  }

  ghost predicate Covers(start: int, end: int, g: GroupBy) {
    forall t :: start <= t <= end ==> GetDateBucket(t, g) in Labels(Walk(start, end, g), g)
  }

  /** The end lies no earlier in its bucket than the start does, and no month between is too short. */
  predicate NoGap(start: int, end: int, g: GroupBy) {
    && Position(start, g) <= Position(end, g)
    && (g == ByMonth ==>
          forall mi :: BucketOf(start, g) < mi < BucketOf(end, g) ==> Date(start) <= MonthLength(mi))
  }

  lemma LabelInLabels(t: int, instants: seq<int>, g: GroupBy)
    ensures GetDateBucket(t, g) in Labels(instants, g) <==> Visits(instants, BucketOf(t, g), g)
  {
    hide GetDateBucket, BucketOf, BucketLabel;
    LabelIsBucketLabel(t, g);
    forall k | 0 <= k < |instants|
      ensures Labels(instants, g)[k] == BucketLabel(BucketOf(instants[k], g), g)
      ensures Labels(instants, g)[k] == GetDateBucket(t, g) ==> BucketOf(instants[k], g) == BucketOf(t, g)
    {
      LabelIsBucketLabel(instants[k], g);
      if Labels(instants, g)[k] == GetDateBucket(t, g) {
        LabelsInjective(BucketOf(instants[k], g), BucketOf(t, g), g);
      }
    }
    if Visits(instants, BucketOf(t, g), g) {
      var k :| 0 <= k < |instants| && BucketOf(instants[k], g) == BucketOf(t, g);
      assert Labels(instants, g)[k] == GetDateBucket(t, g);
    }
  }

  /** One turn of the loop keeps the no-gap condition, or starts the gap. */
  lemma NoGapStep(current: int, end: int, g: GroupBy)
    requires current <= end && BucketOf(current, g) < BucketOf(end, g)
    ensures var next := Advance(current, g);
            if BucketOf(next, g) == BucketOf(current, g) + 1 && next <= end
            then NoGap(next, end, g) == NoGap(current, end, g)
            else !NoGap(current, end, g)
  {
    hide MonthStart, MonthOf, BucketOf, BucketStart, Advance, MonthLength, Date;
    var next, i, j := Advance(current, g), BucketOf(current, g), BucketOf(end, g);
    AdvanceStep(current, g);
    BucketBounds(end, g);
    BucketBounds(next, g);
    BucketBounds(current, g);
    if g == ByMonth && MonthLength(i + 1) < Date(current) {
      if i + 1 == j {
        ShortMonthEnds(current, end);
      }
    } else {
      if next > end {
        BucketMonotone(end, next, g);
      } else if g == ByMonth {
        if i + 1 < j {
          assert Date(current) <= MonthLength(i + 1);
        }
      }
    }
  }

  /** An end in a month shorter than the start's date lies earlier in its month than the start. */
  lemma ShortMonthEnds(current: int, end: int)
    requires MonthLength(BucketOf(end, ByMonth)) < Date(current)
    ensures Position(end, ByMonth) < Position(current, ByMonth)
  {
    hide MonthStart, MonthOf;
    BucketBounds(end, ByMonth);
    var c := Day(current);
    assert current >= c * MS_PER_DAY;
  }

  lemma {:induction false} GapFreeWalkVisitsAll(current: int, end: int, g: GroupBy, i: int)
    requires current <= end && NoGap(current, end, g)
    requires BucketOf(current, g) <= i <= BucketOf(end, g)
    ensures Visits(Walk(current, end, g), i, g)
    decreases end - current
  {
    hide BucketOf, Advance, NoGap, Position, MonthLength, Date;
    AdvanceStep(current, g);
    var next := Advance(current, g);
    var rest := Walk(next, end, g);
    assert Walk(current, end, g) == [current] + rest;
    if i == BucketOf(current, g) {
      assert Walk(current, end, g)[0] == current;
    } else {
      NoGapStep(current, end, g);
      GapFreeWalkVisitsAll(next, end, g, i);
      var k :| 0 <= k < |rest| && BucketOf(rest[k], g) == i;
      assert Walk(current, end, g)[k + 1] == rest[k];
    }
  }

  /** With a gap, some bucket of the range is never visited. */
  lemma {:induction false} GapSkipsBucket(current: int, end: int, g: GroupBy) returns (i: int)
    requires current <= end && !NoGap(current, end, g)
    ensures BucketOf(current, g) < i <= BucketOf(end, g)
    ensures !Visits(Walk(current, end, g), i, g)
    decreases end - current
  {
    hide BucketOf, Advance, NoGap, Position, MonthLength, Date;
    BucketMonotone(current, end, g);
    if BucketOf(current, g) == BucketOf(end, g) {
      SameBucketNoGap(current, end, g);
    }
    AdvanceStep(current, g);
    var next := Advance(current, g);
    var rest := Walk(next, end, g);
    assert Walk(current, end, g) == [current] + rest;
    NoGapStep(current, end, g);
    if BucketOf(next, g) == BucketOf(current, g) + 1 && next <= end {
      i := GapSkipsBucket(next, end, g);
    } else {
      i := BucketOf(current, g) + 1;
      WalkIncreases(next, end, g);
    }
  }

  lemma SameBucketNoGap(current: int, end: int, g: GroupBy)
    requires current <= end && BucketOf(current, g) == BucketOf(end, g)
    ensures NoGap(current, end, g)
  {
    hide BucketOf;
  }

  /** Every instant of a non-empty range has its label among the buckets if and only if there is no gap. */
  lemma CoversExactly(start: int, end: int, g: GroupBy)
    requires start <= end
    ensures Covers(start, end, g) <==> NoGap(start, end, g)
  {
    hide BucketOf, NoGap, GetDateBucket, BucketStart, Labels, Walk;
    if NoGap(start, end, g) {
      forall t | start <= t <= end
        ensures GetDateBucket(t, g) in Labels(Walk(start, end, g), g)
      {
        BucketMonotone(start, t, g);
        BucketMonotone(t, end, g);
        GapFreeWalkVisitsAll(start, end, g, BucketOf(t, g));
        LabelInLabels(t, Walk(start, end, g), g);
      }
    } else {
      var i := GapSkipsBucket(start, end, g);
      var t := if i == BucketOf(end, g) then end else BucketStart(i, g);
      BucketBounds(start, g);
      BucketBounds(end, g);
      if i != BucketOf(end, g) {
        BucketsIncrease(i, BucketOf(end, g), g);
        BucketsIncrease(i, i + 1, g);
        BucketUnique(t, i, g);
        if BucketOf(start, g) + 1 < i {
          BucketsIncrease(BucketOf(start, g) + 1, i, g);
        }
      }
      LabelInLabels(t, Walk(start, end, g), g);
      assert start <= t <= end;
    }
  }

  // ------------------------------------------------------------------------------------------
  // Counting orders into buckets
  // ------------------------------------------------------------------------------------------

  /** An order row; `createdAt` is None when the date does not parse. Totals are in cents. */
  datatype OrderRecord = OrderRecord(createdAt: Option<int>, status: string, total: int)

  datatype Sale = Sale(at: int, total: int)

  datatype Tally = Tally(revenue: int, orders: int)

  datatype Entry = Entry(bucket: Label, tally: Tally)

  datatype SalesResult = SalesResult(series: seq<Entry>, totals: Tally)

  const PAID_STATUSES := ["paid", "completed", "shipped", "delivered"]

  /** The paid orders of the range. */
  function PaidIn(orders: seq<OrderRecord>, start: int, end: int): (sales: seq<Sale>)
    ensures forall k :: 0 <= k < |sales| ==> start <= sales[k].at <= end
  {
    if orders == [] then []
    else
      var o := orders[|orders| - 1];
      PaidIn(orders[..|orders| - 1], start, end)
      + if o.createdAt.Some? && start <= o.createdAt.value <= end && o.status in PAID_STATUSES
        then [Sale(o.createdAt.value, o.total)] else []
  }

  /** The order was placed in the range and its payment went through. */
  predicate Sold(o: OrderRecord, start: int, end: int) {
    && o.createdAt.Some? && start <= o.createdAt.value <= end
    && (o.status == "paid" || o.status == "completed" || o.status == "shipped" || o.status == "delivered")
  }

  predicate SoldAt(o: OrderRecord, start: int, end: int, g: GroupBy, l: Label) {
    Sold(o, start, end) && GetDateBucket(o.createdAt.value, g) == l
  }

  /** Revenue and number of the orders sold in the range. */
  function SoldTally(orders: seq<OrderRecord>, start: int, end: int): Tally {
    if orders == [] then Tally(0, 0)
    else
      var before, o := SoldTally(orders[..|orders| - 1], start, end), orders[|orders| - 1];
      if Sold(o, start, end) then Tally(before.revenue + o.total, before.orders + 1) else before
  }

  /** Revenue and number of the orders sold in the range in one bucket. */
  function SoldTallyAt(orders: seq<OrderRecord>, start: int, end: int, g: GroupBy, l: Label): Tally {
    if orders == [] then Tally(0, 0)
    else
      var before, o := SoldTallyAt(orders[..|orders| - 1], start, end, g, l), orders[|orders| - 1];
      if SoldAt(o, start, end, g, l) then Tally(before.revenue + o.total, before.orders + 1) else before
  }

  lemma PaidIsSold(o: OrderRecord, start: int, end: int)
    ensures Sold(o, start, end)
            <==> o.createdAt.Some? && start <= o.createdAt.value <= end && o.status in PAID_STATUSES
  {
    assert PAID_STATUSES == ["paid", "completed", "shipped", "delivered"];
    assert PAID_STATUSES[0] == "paid" && PAID_STATUSES[1] == "completed";
    assert PAID_STATUSES[2] == "shipped" && PAID_STATUSES[3] == "delivered";
  }

  /** What is counted is exactly the totals of the orders sold in the range, each once. */
  lemma {:induction false} PaidTally(orders: seq<OrderRecord>, start: int, end: int)
    ensures TallyAll(PaidIn(orders, start, end)) == SoldTally(orders, start, end)
  {
    if orders != [] {
      var n := |orders| - 1;
      var before := PaidIn(orders[..n], start, end);
      PaidTally(orders[..n], start, end);
      PaidIsSold(orders[n], start, end);
      hide Sold;
      if Sold(orders[n], start, end) {
        var sale := Sale(orders[n].createdAt.value, orders[n].total);
        assert PaidIn(orders, start, end) == before + [sale] && (before + [sale])[..|before|] == before;
      } else {
        assert PaidIn(orders, start, end) == before + [];
        assert before + [] == before;
      }
    }
  }

  /** The same, bucket by bucket. */
  lemma {:induction false} PaidTallyAt(orders: seq<OrderRecord>, start: int, end: int, g: GroupBy, l: Label)
    ensures TallyIn(PaidIn(orders, start, end), [l], g) == SoldTallyAt(orders, start, end, g, l)
  {
    hide GetDateBucket;
    if orders != [] {
      var n := |orders| - 1;
      var before := PaidIn(orders[..n], start, end);
      PaidTallyAt(orders[..n], start, end, g, l);
      PaidIsSold(orders[n], start, end);
      hide Sold;
      if Sold(orders[n], start, end) {
        var sale := Sale(orders[n].createdAt.value, orders[n].total);
        assert PaidIn(orders, start, end) == before + [sale] && (before + [sale])[..|before|] == before;
      } else {
        assert PaidIn(orders, start, end) == before + [];
        assert before + [] == before;
      }
    }
  }

  function Plus(a: Tally, b: Tally): Tally {
    Tally(a.revenue + b.revenue, a.orders + b.orders)
  }

  /** Revenue and count of the sales whose label is one of `labels`. */
  function TallyIn(sales: seq<Sale>, labels: seq<Label>, g: GroupBy): Tally {
    if sales == [] then Tally(0, 0)
    else
      var s := sales[|sales| - 1];
      var before := TallyIn(sales[..|sales| - 1], labels, g);
      if GetDateBucket(s.at, g) in labels then Plus(before, Tally(s.total, 1)) else before
  }

  /** Revenue and count of all the sales. */
  function TallyAll(sales: seq<Sale>): Tally {
    if sales == [] then Tally(0, 0)
    else Plus(TallyAll(sales[..|sales| - 1]), Tally(sales[|sales| - 1].total, 1))
  }

  function SumSeries(series: seq<Entry>): Tally {
    if series == [] then Tally(0, 0)
    else Plus(SumSeries(series[..|series| - 1]), series[|series| - 1].tally)
  }

  /** One entry per label, holding what the sales of that label add up to. */
  function Series(sales: seq<Sale>, labels: seq<Label>, g: GroupBy): seq<Entry> {
    seq(|labels|, i requires 0 <= i < |labels| => Entry(labels[i], TallyIn(sales, [labels[i]], g)))
  }

  /** Opens one empty entry per label, remembering the insertion order. */
  method OpenBuckets(buckets: seq<Label>) returns (keys: seq<Label>, grouped: map<Label, Tally>)
    requires NoDuplicates(buckets)
    ensures keys == buckets
    ensures forall l :: l in grouped <==> l in keys
    ensures forall l :: l in keys ==> grouped[l] == Tally(0, 0)
  {
    keys, grouped := [], map[];
    for i := 0 to |buckets|
      invariant keys == buckets[..i]
      invariant forall l :: l in grouped <==> l in keys
      invariant forall l :: l in keys ==> grouped[l] == Tally(0, 0)
    {
      if buckets[i] !in grouped {
        keys := keys + [buckets[i]];
      }
      grouped := grouped[buckets[i] := Tally(0, 0)];
    }
  }

  /** Adds every sale to the entry of its label; a sale without an entry is dropped. */
  method CountSales(sales: seq<Sale>, emptied: map<Label, Tally>, g: GroupBy) returns (grouped: map<Label, Tally>)
    requires forall l :: l in emptied ==> emptied[l] == Tally(0, 0)
    ensures grouped.Keys == emptied.Keys
    ensures forall l :: l in grouped ==> grouped[l] == TallyIn(sales, [l], g)
  {
    hide GetDateBucket;
    grouped := emptied;
    for i := 0 to |sales|
      invariant grouped.Keys == emptied.Keys
      invariant forall l :: l in grouped ==> grouped[l] == TallyIn(sales[..i], [l], g)
    {
      assert sales[..i + 1][..i] == sales[..i];
      var bucket := GetDateBucket(sales[i].at, g);
      if bucket in grouped {
        grouped := grouped[bucket := Plus(grouped[bucket], Tally(sales[i].total, 1))];
      }
    }
    assert sales[..|sales|] == sales;
  }

  method GetSales(orders: seq<OrderRecord>, now: int, period: Period, g: GroupBy) returns (result: SalesResult)
    ensures result.series == Series(PaidIn(orders, StartAt(period, now), now),
                                    Labels(Walk(StartAt(period, now), now, g), g), g)
    ensures result.totals == SumSeries(result.series)
    ensures forall i :: 0 <= i < |result.series| ==>
              result.series[i].tally == SoldTallyAt(orders, StartAt(period, now), now, g, result.series[i].bucket)
    ensures now < StartAt(period, now) || ComboOk(period, g, now) ==>
              result.totals == SoldTally(orders, StartAt(period, now), now)
  {
    ReportInOrders(orders, now, period, g);
    hide SoldTally, SoldTallyAt, ComboOk, StartAt, GetDateBucket, Walk, Labels, BucketOf, PaidIn, TallyIn;
    var start := StartAt(period, now);
    var filtered := PaidIn(orders, start, now);
    var buckets := GenerateDateBuckets(start, now, g);
    WalkLabelsDistinct(start, now, g);
    var keys, emptied := OpenBuckets(buckets);
    var grouped := CountSales(filtered, emptied, g);
    assert forall l :: l in keys ==> l in grouped.Keys;

    var series, totals := [], Tally(0, 0);
    for i := 0 to |keys|
      invariant series == Series(filtered, keys, g)[..i]
      invariant totals == SumSeries(series)
    {
      assert keys[i] in keys;
      var entry := Entry(keys[i], grouped[keys[i]]);
      assert (series + [entry])[..|series|] == series;
      series := series + [entry];
      totals := Plus(totals, grouped[keys[i]]);
    }
    result := SalesResult(series, totals);
  }

  lemma WalkLabelsDistinct(start: int, end: int, g: GroupBy)
    ensures NoDuplicates(Labels(Walk(start, end, g), g))
  {
    hide Walk, GetDateBucket, BucketOf, BucketLabel;
    var walk := Walk(start, end, g);
    WalkIncreases(start, end, g);
    forall i, j | 0 <= i < j < |walk|
      ensures Labels(walk, g)[i] != Labels(walk, g)[j]
    {
      LabelIsBucketLabel(walk[i], g);
      LabelIsBucketLabel(walk[j], g);
      if BucketLabel(BucketOf(walk[i], g), g) == BucketLabel(BucketOf(walk[j], g), g) {
        LabelsInjective(BucketOf(walk[i], g), BucketOf(walk[j], g), g);
      }
    }
  }

  lemma {:induction false} TallyNewLabel(sales: seq<Sale>, labels: seq<Label>, l: Label, g: GroupBy)
    requires l !in labels
    ensures TallyIn(sales, labels + [l], g) == Plus(TallyIn(sales, labels, g), TallyIn(sales, [l], g))
  {
    hide GetDateBucket;
    if sales != [] {
      TallyNewLabel(sales[..|sales| - 1], labels, l, g);
    }
  }

  lemma {:induction false} TallyNoLabels(sales: seq<Sale>, g: GroupBy)
    ensures TallyIn(sales, [], g) == Tally(0, 0)
  {
    hide GetDateBucket;
    if sales != [] {
      TallyNoLabels(sales[..|sales| - 1], g);
    }
  }

  /** The series adds up to exactly the sales that have a bucket, each counted once. */
  lemma {:induction false} SeriesTotal(sales: seq<Sale>, labels: seq<Label>, g: GroupBy)
    requires NoDuplicates(labels)
    ensures SumSeries(Series(sales, labels, g)) == TallyIn(sales, labels, g)
  {
    hide GetDateBucket, TallyIn;
    if labels == [] {
      TallyNoLabels(sales, g);
    } else {
      var n := |labels| - 1;
      var series := Series(sales, labels, g);
      SeriesTotal(sales, labels[..n], g);
      assert series[..n] == Series(sales, labels[..n], g);
      assert SumSeries(series) == Plus(SumSeries(series[..n]), TallyIn(sales, [labels[n]], g));
      assert labels == labels[..n] + [labels[n]];
      TallyNewLabel(sales, labels[..n], labels[n], g);
    }
  }

  lemma {:induction false} TallyCovered(sales: seq<Sale>, labels: seq<Label>, g: GroupBy)
    requires forall k :: 0 <= k < |sales| ==> GetDateBucket(sales[k].at, g) in labels
    ensures TallyIn(sales, labels, g) == TallyAll(sales)
  {
    hide GetDateBucket;
    if sales != [] {
      TallyCovered(sales[..|sales| - 1], labels, g);
    }
  }

  // ------------------------------------------------------------------------------------------
  // Main theorem: exactly when the report loses nothing
  // ------------------------------------------------------------------------------------------

  /** The totals `getSales` reports; its series is the argument of SumSeries. */
  function Totals(orders: seq<OrderRecord>, start: int, end: int, g: GroupBy): Tally {
    SumSeries(Series(PaidIn(orders, start, end), Labels(Walk(start, end, g), g), g))
  }

  ghost predicate Conserves(start: int, end: int, g: GroupBy) {
    forall orders :: Totals(orders, start, end, g) == TallyAll(PaidIn(orders, start, end))
  }

  lemma ConservesIfCovers(start: int, end: int, g: GroupBy, orders: seq<OrderRecord>)
    requires Covers(start, end, g)
    ensures Totals(orders, start, end, g) == TallyAll(PaidIn(orders, start, end))
  {
    hide GetDateBucket, Walk, Labels, PaidIn, SumSeries, Series;
    var sales := PaidIn(orders, start, end);
    WalkLabelsDistinct(start, end, g);
    SeriesTotal(sales, Labels(Walk(start, end, g), g), g);
    TallyCovered(sales, Labels(Walk(start, end, g), g), g);
  }

  /** An order whose label is not generated is missing from the totals. */
  lemma LostSale(start: int, end: int, g: GroupBy, t: int)
    requires start <= t <= end && GetDateBucket(t, g) !in Labels(Walk(start, end, g), g)
    ensures var orders := [OrderRecord(Some(t), "paid", 1)];
            Totals(orders, start, end, g) == Tally(0, 0) && TallyAll(PaidIn(orders, start, end)) == Tally(1, 1)
  {
    hide GetDateBucket, Walk, Labels, SumSeries, Series, TallyIn, TallyAll, PaidIn;
    var labels := Labels(Walk(start, end, g), g);
    OnePaidOrder(t, start, end);
    WalkLabelsDistinct(start, end, g);
    SeriesTotal([Sale(t, 1)], labels, g);
    OneSaleTally(t, labels, g);
  }

  lemma OneLostSale(start: int, end: int, g: GroupBy, t: int)
    requires start <= t <= end && GetDateBucket(t, g) !in Labels(Walk(start, end, g), g)
    ensures !Conserves(start, end, g)
  {
    hide GetDateBucket, Walk, Labels, Totals, TallyAll, PaidIn;
    LostSale(start, end, g, t);
    var orders := [OrderRecord(Some(t), "paid", 1)];
    assert Totals(orders, start, end, g) != TallyAll(PaidIn(orders, start, end));
  }

  lemma OnePaidOrder(t: int, start: int, end: int)
    requires start <= t <= end
    ensures PaidIn([OrderRecord(Some(t), "paid", 1)], start, end) == [Sale(t, 1)]
  {
    assert "paid" == PAID_STATUSES[0];
    assert PaidIn([OrderRecord(Some(t), "paid", 1)], start, end) == PaidIn([], start, end) + [Sale(t, 1)];
  }

  lemma OneSaleTally(t: int, labels: seq<Label>, g: GroupBy)
    requires GetDateBucket(t, g) !in labels
    ensures TallyIn([Sale(t, 1)], labels, g) == Tally(0, 0)
    ensures TallyAll([Sale(t, 1)]) == Tally(1, 1)
  {
    hide GetDateBucket;
    assert [Sale(t, 1)][..0] == [];
    assert TallyIn([Sale(t, 1)], labels, g) == TallyIn([], labels, g);
  }

  /** For every non-empty range and grouping: nothing is lost, whatever the orders, iff there is no gap. */
  lemma ConservesExactly(start: int, end: int, g: GroupBy)
    requires start <= end
    ensures Conserves(start, end, g) <==> NoGap(start, end, g)
  {
    hide NoGap, Totals, TallyAll, PaidIn, GetDateBucket, Labels, Walk;
    CoversExactly(start, end, g);
    if Covers(start, end, g) {
      forall orders
        ensures Totals(orders, start, end, g) == TallyAll(PaidIn(orders, start, end))
      {
        ConservesIfCovers(start, end, g, orders);
      }
    } else {
      var t :| start <= t <= end && GetDateBucket(t, g) !in Labels(Walk(start, end, g), g);
      OneLostSale(start, end, g, t);
    }
  }

  /** Starts at the first instant of a bucket, and ranges inside one bucket, never lose anything. */
  lemma AlignedStartsConserve(start: int, end: int, g: GroupBy)
    requires start <= end
    requires Position(start, g) == 0 || BucketOf(start, g) == BucketOf(end, g)
    ensures Conserves(start, end, g)
  {
    hide Conserves, BucketOf, BucketStart, MonthLength;
    ConservesExactly(start, end, g);
    BucketBounds(end, g);
    if BucketOf(start, g) != BucketOf(end, g) && g == ByMonth {
      FirstOfMonthDate(start);
      forall mi
        ensures Date(start) <= MonthLength(mi)
      {
        MonthLengths(mi);
      }
    }
  }

  lemma FirstOfMonthDate(start: int)
    requires Position(start, ByMonth) == 0
    ensures Date(start) == 1
  {
    hide MonthStart, MonthOf;
    MidnightDay(MonthStart(MonthOf(Day(start))), 0);
  }

  /** Which of the report's period and grouping combinations are safe at a given clock. */
  predicate ComboOk(period: Period, g: GroupBy, now: int) {
    match g
    case ByDay => true
    case ByWeek => period.OfDay? || period.OfWeek? || MondayOffset(StartAt(period, now)) <= MondayOffset(now)
    case ByMonth => !period.OfWeek? || MonthOf(Day(StartAt(period, now))) == MonthOf(Day(now))
  }

  lemma MidnightPosition(t: int)
    requires t % MS_PER_DAY == 0
    ensures Position(t, ByDay) == 0
    ensures Position(t, ByWeek) == MondayOffset(t) * MS_PER_DAY
  {
    MondayOffsetRange(t);
  }

  lemma WeekPosition(t: int)
    ensures MondayOffset(t) * MS_PER_DAY <= Position(t, ByWeek) < (MondayOffset(t) + 1) * MS_PER_DAY
  {
    MondayOffsetRange(t);
  }

  lemma ComboNoGap(period: Period, g: GroupBy, now: int)
    requires StartAt(period, now) <= now
    ensures NoGap(StartAt(period, now), now, g) <==> ComboOk(period, g, now)
  {
    hide StartAt, MonthStart, MonthOf, Position, MondayOffset, FullYear, DayFromYear, MonthLength, Date;
    var start := StartAt(period, now);
    StartAtMidnight(period, now);
    if TwoDigit(FullYear(now)) {
      StartInCentury(period, now);
      FullYearAtLeast(now, 100);
      CenturyIsLater();
      assert false;
    }
    StartIsCivil(period, now);
    match g {
      case ByDay =>
        MidnightPosition(start);
        DayPosition(now);
      case ByWeek =>
        MidnightPosition(start);
        WeekPosition(now);
        ComboWeek(period, now);
      case ByMonth =>
        ComboMonth(period, now);
    }
  }

  lemma DayPosition(t: int)
    ensures 0 <= Position(t, ByDay)
  {
  }

  /** Day and week periods start on the Monday of, or on the very day of, the clock. */
  lemma ComboWeek(period: Period, now: int)
    ensures period.OfDay? || period.OfWeek?
            ==> MondayOffset(PeriodStart(period, now)) <= MondayOffset(now)
  {
    var start := PeriodStart(period, now);
    MondayOffsetRange(now);
    MondayOffsetRange(start);
    if period.OfDay? || period.OfWeek? {
      MidnightDay(FirstDay(period, Day(now)), 0);
    }
  }

  lemma ComboMonth(period: Period, now: int)
    ensures NoGap(PeriodStart(period, now), now, ByMonth)
            <==> !period.OfWeek? || MonthOf(Day(PeriodStart(period, now))) == MonthOf(Day(now))
  {
    hide NoGap, MonthStart, MonthOf;
    var start := PeriodStart(period, now);
    FirstDayBounds(period, Day(now));
    MidnightDay(FirstDay(period, Day(now)), 0);
    match period
    case OfDay => SameBucketNoGap(start, now, ByMonth);
    case OfWeek =>
      if MonthOf(Day(start)) == MonthOf(Day(now)) {
        SameBucketNoGap(start, now, ByMonth);
      } else {
        WeekAcrossMonths(now);
      }
    case _ => MonthAligned(period, now);
  }

  lemma MonthAligned(period: Period, now: int)
    requires period.OfMonth? || period.OfQuarter? || period.OfYear?
    ensures NoGap(PeriodStart(period, now), now, ByMonth)
  {
    hide MonthStart, MonthOf;
    var mi := MonthOf(Day(now));
    var first := if period.OfMonth? then mi else if period.OfQuarter? then mi / 3 * 3 else mi / 12 * 12;
    var start := PeriodStart(period, now);
    MidnightDay(MonthStart(first), 0);
    MonthLengths(first);
    MonthUnique(MonthStart(first), first);
    BucketBounds(now, ByMonth);
    forall m
      ensures Date(start) <= MonthLength(m)
    {
      MonthLengths(m);
    }
  }

  /** A week that starts in the month before: the Monday is late in its month, the clock early in the next. */
  lemma WeekAcrossMonths(now: int)
    requires MonthOf(Day(PeriodStart(OfWeek, now))) != MonthOf(Day(now))
    ensures !NoGap(PeriodStart(OfWeek, now), now, ByMonth)
  {
    hide MonthStart, MonthOf;
    var start := PeriodStart(OfWeek, now);
    var i, j := MonthOf(Day(start)), MonthOf(Day(now));
    FirstDayBounds(OfWeek, Day(now));
    MidnightDay(FirstDay(OfWeek, Day(now)), 0);
    if j < i {
      MonthsIncrease(j + 1, i);
    } else {
      MonthsIncrease(i + 1, j);
      MonthLengths(i);
      MonthLengths(j);
    }
  }

  /**
   For every clock, period and grouping: whatever the orders are, the reported totals equal the totals of
   the paid orders in the range, except for weekly series that start on a later weekday than the clock's
   and monthly series of a week that crosses a month.
   */
  lemma ReportConserves(period: Period, g: GroupBy, now: int)
    ensures Conserves(StartAt(period, now), now, g) <==> now < StartAt(period, now) || ComboOk(period, g, now)
  {
    hide Conserves, ComboOk, StartAt;
    var start := StartAt(period, now);
    if now < start {
      EmptyRangeConserves(start, now, g);
    } else {
      ConservesExactly(start, now, g);
      ComboNoGap(period, g, now);
    }
  }

  /** Monday 5 January 1970 at midnight, in a month that started on a Thursday. */
  const FIRST_MONDAY := 4 * MS_PER_DAY

  lemma JanuaryStart()
    ensures StartAt(OfMonth, FIRST_MONDAY) == 0
  {
    assert Day(FIRST_MONDAY) == 4 && DayFromYear(1970) == 0;
    hide StartAt, FullYear, MonthOf, MonthStart, DayFromYear;
    YearStartsMonth(1970);
    MonthLengths(12 * 1970);
    MonthUnique(4, 12 * 1970);
    FullYearIs1970();
    StartIsCivil(OfMonth, FIRST_MONDAY);
  }

  lemma FullYearIs1970()
    ensures !TwoDigit(FullYear(FIRST_MONDAY))
  {
    assert DayFromYear(100) < 0;
    hide FullYear, DayFromYear;
    FullYearAtLeast(FIRST_MONDAY, 100);
  }

  /** The loop from Thursday 1 January pushes the week of that Thursday only. */
  lemma OneWeekOnly()
    ensures Walk(0, FIRST_MONDAY, ByWeek) == [0]
    ensures !Visits(Walk(0, FIRST_MONDAY, ByWeek), BucketOf(FIRST_MONDAY, ByWeek), ByWeek)
  {
    hide SetDate, Date;
    SetDateShifts(0, 7);
    assert Advance(0, ByWeek) == 7 * MS_PER_DAY;
    assert Walk(7 * MS_PER_DAY, FIRST_MONDAY, ByWeek) == [];
    assert BucketOf(0, ByWeek) == 0 && BucketOf(FIRST_MONDAY, ByWeek) == 1;
  }

  /** A monthly report by week, asked for on that Monday, leaves out an order paid on that Monday. */
  lemma MonthByWeekLosesMonday()
    ensures var orders := [OrderRecord(Some(FIRST_MONDAY), "paid", 1)];
            && Totals(orders, StartAt(OfMonth, FIRST_MONDAY), FIRST_MONDAY, ByWeek) == Tally(0, 0)
            && TallyAll(PaidIn(orders, StartAt(OfMonth, FIRST_MONDAY), FIRST_MONDAY)) == Tally(1, 1)
  {
    hide StartAt, Walk, Visits, GetDateBucket, Labels, Totals, TallyAll, PaidIn, BucketOf;
    JanuaryStart();
    OneWeekOnly();
    LabelInLabels(FIRST_MONDAY, Walk(0, FIRST_MONDAY, ByWeek), ByWeek);
    LostSale(0, FIRST_MONDAY, ByWeek, FIRST_MONDAY);
  }

  /** The report in terms of the orders: each entry is what was sold in its bucket, and a safe total what was sold. */
  lemma ReportInOrders(orders: seq<OrderRecord>, now: int, period: Period, g: GroupBy)
    ensures var start := StartAt(period, now);
            var series := Series(PaidIn(orders, start, now), Labels(Walk(start, now, g), g), g);
            && (forall i :: 0 <= i < |series| ==> series[i].tally == SoldTallyAt(orders, start, now, g, series[i].bucket))
            && (now < start || ComboOk(period, g, now) ==> SumSeries(series) == SoldTally(orders, start, now))
  {
    hide StartAt, GetDateBucket, Walk, Labels, PaidIn, TallyIn, TallyAll, SumSeries, SoldTally, SoldTallyAt, ComboOk;
    var start := StartAt(period, now);
    var labels := Labels(Walk(start, now, g), g);
    forall i | 0 <= i < |labels|
      ensures TallyIn(PaidIn(orders, start, now), [labels[i]], g) == SoldTallyAt(orders, start, now, g, labels[i])
    {
      PaidTallyAt(orders, start, now, g, labels[i]);
    }
    ReportConserves(period, g, now);
    PaidTally(orders, start, now);
    assert Totals(orders, start, now, g) == SumSeries(Series(PaidIn(orders, start, now), labels, g));
  }

  lemma EmptyRangeConserves(start: int, end: int, g: GroupBy)
    requires end < start
    ensures Conserves(start, end, g)
  {
    hide GetDateBucket;
    forall orders
      ensures Totals(orders, start, end, g) == TallyAll(PaidIn(orders, start, end))
    {
      ConservesIfCovers(start, end, g, orders);
    }
  }
}
