/**
 * The monthly expense chart. With a single month selected it shows one bar per
 * day of that month; with all months it shows one bar per month of the current
 * year. Bars are scaled against the largest total (for the months, never
 * below one currency unit), and a chart whose buckets are all zero shows the
 * empty state instead.
 */
module Charts {
  import opened Wrappers
  import opened Text
  import opened Calendar
  import opened Seqs
  import opened Ledger

  /** One bar: its caption, the expense it stands for and its height in percent. */
  datatype Bar = Bar(caption: string, total: int, height: real)

  /** What the chart area shows: the empty-state message, or a row of bars. */
  datatype Chart = EmptyChart | Bars(bars: seq<Bar>)

  const MonthNames: seq<string> :=
    ["Jan", "Feb", "Mar", "Apr", "May", "Jun", "Jul", "Aug", "Sep", "Oct", "Nov", "Dec"]

  /** The expense on date `year`-`month`-`day`. */
  function DayPart(year: nat, month: nat, day: nat): Transaction -> int {
    (t: Transaction) =>
      if t.amount < 0 && t.date == Date(year, month, day) then -t.amount else 0
  }

  /** The expense in month `month` of `year`. */
  function MonthPart(year: nat, month: nat): Transaction -> int {
    (t: Transaction) =>
      if t.amount < 0 && t.date.year == year && t.date.month == month then -t.amount else 0
  }

  /** The expense in `year`. */
  function YearPart(year: nat): Transaction -> int {
    (t: Transaction) => if t.amount < 0 && t.date.year == year then -t.amount else 0
  }

  /** The daily bucket (day - 1) of an expense in the selected month; -1 for any other record. */
  function DaySlot(year: nat, month: nat): Transaction -> int {
    (t: Transaction) =>
      if t.amount < 0 && t.date.year == year && t.date.month == month then t.date.day - 1 else -1
  }

  /** The monthly bucket (month - 1) of an expense in `year`; -1 for any other record. */
  function MonthSlot(year: nat): Transaction -> int {
    (t: Transaction) => if t.amount < 0 && t.date.year == year then t.date.month - 1 else -1
  }

  /** No expense falls in month `month` of `year`. */
  predicate NoExpenseInMonth(ts: seq<Transaction>, year: nat, month: nat) {
    forall t :: t in ts ==> !(t.amount < 0 && t.date.year == year && t.date.month == month)
  }

  /** No expense falls in `year`. */
  predicate NoExpenseInYear(ts: seq<Transaction>, year: nat) {
    forall t :: t in ts ==> !(t.amount < 0 && t.date.year == year)
  }

  /**
   * The daily buckets of the selected month: bucket `d` holds the expense of
   * day `d + 1`. Every stored date is a calendar date, so each expense of that
   * month lands inside the `days` buckets.
   */
  method DailyTotals(ts: seq<Transaction>, year: nat, month: nat, days: nat) returns (totals: array<int>)
    requires forall t :: t in ts ==> ValidDate(t.date)
    requires days == JsDaysInMonth(year, month)
    ensures fresh(totals)
    ensures totals[..] == Histogram(ts, days, DaySlot(year, month), ExpenseOf)
  {
    totals := new int[days](_ => 0);
    var i := 0;
    while i < |ts|
      invariant i <= |ts|
      invariant forall k :: 0 <= k < days ==> totals[k] == Histogram(ts[..i], days, DaySlot(year, month), ExpenseOf)[k]
    {
      var t := ts[i];
      assert ts[..i + 1][..i] == ts[..i];
      if t.amount < 0 {
        if t.date.year == year && t.date.month == month {
          DayWithinJsMonth(t.date);
          totals[t.date.day - 1] := totals[t.date.day - 1] + Abs(t.amount);
        }
      }
      i := i + 1;
    }
    assert ts[..i] == ts;
  }

  /** The monthly buckets of `year`: bucket `k` holds the expense of month `k + 1`. */
  method MonthlyTotals(ts: seq<Transaction>, year: nat) returns (totals: array<int>)
    requires forall t :: t in ts ==> ValidDate(t.date)
    ensures fresh(totals)
    ensures totals[..] == Histogram(ts, 12, MonthSlot(year), ExpenseOf)
  {
    totals := new int[12](_ => 0);
    var i := 0;
    while i < |ts|
      invariant i <= |ts|
      invariant forall k :: 0 <= k < 12 ==> totals[k] == Histogram(ts[..i], 12, MonthSlot(year), ExpenseOf)[k]
    {
      var t := ts[i];
      assert ts[..i + 1][..i] == ts[..i];
      if t.amount < 0 {
        if t.date.year == year {
          assert ValidDate(t.date);
          totals[t.date.month - 1] := totals[t.date.month - 1] + Abs(t.amount);
        }
      }
      i := i + 1;
    }
    assert ts[..i] == ts;
  }

  /** The largest of a non-empty list of totals. */
  function MaxOf(s: seq<int>): (m: int)
    requires s != []
    ensures m in s
    ensures forall x :: x in s ==> x <= m
  {
    if |s| == 1 then s[0]
    else
      var m := MaxOf(s[..|s| - 1]);
      assert forall x :: x in s ==> x in s[..|s| - 1] || x == s[|s| - 1];
      if s[|s| - 1] > m then s[|s| - 1] else m
  }

  /** The height of a bar in percent of the largest total; 0 when that is not positive. */
  function Height(total: int, max: int): real {
    if max > 0 then total as real / max as real * 100.0 else 0.0
  }

  /** The bars for `totals`, labelled by `labels` and scaled against `max`. */
  function ScaledBars(labels: seq<string>, totals: seq<int>, max: int): (r: seq<Bar>)
    requires |labels| == |totals|
    ensures |r| == |totals|
    ensures forall k :: 0 <= k < |r| ==> r[k].caption == labels[k] && r[k].total == totals[k]
    ensures forall k :: 0 <= k < |r| ==> r[k].height == Height(totals[k], max)
  {
    seq(|totals|, k requires 0 <= k < |totals| => Bar(labels[k], totals[k], Height(totals[k], max)))
  }

  /** A bar's height lies between 0 and 100, a bar at the maximum is full
      height, and a larger total never gets a lower bar. */
  lemma HeightBounds(a: int, b: int, max: int)
    requires 0 <= a <= max && 0 <= b <= max
    ensures 0.0 <= Height(a, max) <= 100.0
    ensures a == max && max > 0 ==> Height(a, max) == 100.0
    ensures a <= b ==> Height(a, max) <= Height(b, max)
  {
    if max > 0 {
      ShareAtMostOne(a, max);
      if a <= b {
        ShareMonotone(a, b, max);
      }
    }
  }

  lemma ShareAtMostOne(a: int, max: int)
    requires 0 <= a <= max && max > 0
    ensures 0.0 <= a as real / max as real <= 1.0
    ensures a == max ==> a as real / max as real == 1.0
  {
    var q := a as real / max as real;
    assert q * max as real == a as real;
  }

  lemma ShareMonotone(a: int, b: int, max: int)
    requires a <= b && max > 0
    ensures a as real / max as real <= b as real / max as real
  {
    assert b as real / max as real - a as real / max as real == (b - a) as real / max as real;
  }

  /** Bar `k` holds the largest total of the chart. */
  predicate IsPeak(bars: seq<Bar>, k: int) {
    0 <= k < |bars| && forall j :: 0 <= j < |bars| ==> bars[j].total <= bars[k].total
  }

  /** The scale of a chart whose largest total is `peak`: that total, but never below `floor`. */
  function AtLeast(peak: int, floor: int): (r: int)
    ensures r >= peak && r >= floor
    ensures r == peak || r == floor
  {
    if peak >= floor then peak else floor
  }

  /** Every bar's height is its total in percent of the largest total of the
      chart, or of `floor` when the largest total is below it. */
  ghost predicate ScaledToPeak(bars: seq<Bar>, floor: int) {
    exists k :: IsPeak(bars, k) && forall j :: 0 <= j < |bars| ==>
      bars[j].height == Height(bars[j].total, AtLeast(bars[k].total, floor))
  }

  /** Every height lies between 0 and 100, and a bar holding a positive largest
      total that reaches `floor` is full height. */
  ghost predicate Gauged(bars: seq<Bar>, floor: int) {
    && (forall j :: 0 <= j < |bars| ==> 0.0 <= bars[j].height <= 100.0)
    && (forall j :: IsPeak(bars, j) && bars[j].total > 0 && bars[j].total >= floor ==> bars[j].height == 100.0)
  }

  /** Bars scaled against the largest of their non-negative totals, or a
      non-negative floor, are gauged, and a larger total never gets a lower bar. */
  lemma PeakHeights(bars: seq<Bar>, floor: int)
    requires ScaledToPeak(bars, floor)
    requires floor >= 0
    requires forall j :: 0 <= j < |bars| ==> bars[j].total >= 0
    ensures Gauged(bars, floor)
    ensures forall i, j :: 0 <= i < |bars| && 0 <= j < |bars| && bars[i].total <= bars[j].total ==>
      bars[i].height <= bars[j].height
  {
    var k :| IsPeak(bars, k) && forall j :: 0 <= j < |bars| ==>
      bars[j].height == Height(bars[j].total, AtLeast(bars[k].total, floor));
    var m := AtLeast(bars[k].total, floor);
    forall i, j | 0 <= i < |bars| && 0 <= j < |bars|
      ensures 0.0 <= bars[i].height <= 100.0
      ensures bars[i].total <= bars[j].total ==> bars[i].height <= bars[j].height
      ensures IsPeak(bars, i) && bars[i].total > 0 && bars[i].total >= floor ==> bars[i].height == 100.0
    {
      HeightBounds(bars[i].total, bars[j].total, m);
      if IsPeak(bars, i) {
        assert bars[i].total == bars[k].total;
      }
    }
  }

  /** Bars built by `ScaledBars` against the largest of the totals, or `floor`
      when that is larger, are scaled to their peak. */
  lemma ScaledBarsToPeak(labels: seq<string>, totals: seq<int>, floor: int)
    requires |labels| == |totals| && totals != []
    ensures ScaledToPeak(ScaledBars(labels, totals, AtLeast(MaxOf(totals), floor)), floor)
  {
    var bars := ScaledBars(labels, totals, AtLeast(MaxOf(totals), floor));
    var k :| 0 <= k < |totals| && totals[k] == MaxOf(totals);
    forall j | 0 <= j < |bars|
      ensures bars[j].total <= bars[k].total
    {
      assert totals[j] in totals;
    }
    assert IsPeak(bars, k);
  }

  /** The labels of the daily chart: "1" up to the number of days. */
  function DayLabels(days: nat): (r: seq<string>)
    ensures |r| == days
    ensures forall d :: 0 <= d < days ==> r[d] == NatToString(d + 1)
  {
    seq(days, d requires 0 <= d < days => NatToString(d + 1))
  }

  /** The day labels read back as the numbers 1 up to the number of days, in
      ascending order, the order the numeric sort of the day keys gives. */
  lemma DayLabelsReadBack(days: nat)
    ensures forall d :: 0 <= d < days ==> AllDigits(DayLabels(days)[d]) && ParseNat(DayLabels(days)[d]) == d + 1
    ensures forall d, e :: 0 <= d < e < days ==> ParseNat(DayLabels(days)[d]) < ParseNat(DayLabels(days)[e])
  {
    forall d | 0 <= d < days
      ensures ParseNat(DayLabels(days)[d]) == d + 1
    {
      ParseNatToString(d + 1);
    }
  }

  /**
   * The daily chart from the daily buckets. No buckets at all (a month key
   * that does not read back as a year and month) renders no bars, and the
   * empty state is not shown; all-zero buckets show the empty state.
   */
  function DailyChart(totals: seq<int>): (c: Chart)
    ensures totals == [] ==> c == Bars([])
    ensures totals != [] ==> (c.EmptyChart? <==> MaxOf(totals) == 0)
    ensures c.Bars? ==> c.bars == ScaledBars(DayLabels(|totals|), totals, if totals == [] then 0 else MaxOf(totals))
  {
    if totals == [] then Bars([])
    else
      var max := MaxOf(totals);
      if max == 0 then EmptyChart
      else Bars(ScaledBars(DayLabels(|totals|), totals, max))
  }

  /** The least scale of the all-months chart: one currency unit, in cents. */
  const AllMonthsFloor: int := 100

  /**
   * The all-months chart as the code computes it: the largest total is taken
   * together with one currency unit, so it is never 0 and the empty state is
   * never shown; a year whose largest month is below one unit is drawn
   * against one unit rather than against that month.
   */
  function AllMonthsChartAsWritten(totals: seq<int>): (c: Chart)
    requires |totals| == 12
    ensures c.Bars? && |c.bars| == 12
    ensures forall k :: 0 <= k < 12 ==>
      && c.bars[k].caption == MonthNames[k] && c.bars[k].total == totals[k]
      && c.bars[k].height == Height(totals[k], AtLeast(MaxOf(totals), AllMonthsFloor))
    ensures ScaledToPeak(c.bars, AllMonthsFloor)
  {
    var max := MaxOf(totals + [AllMonthsFloor]);
    assert max == AtLeast(MaxOf(totals), AllMonthsFloor) by {
      assert AllMonthsFloor in totals + [AllMonthsFloor];
      assert MaxOf(totals) in totals + [AllMonthsFloor];
      assert forall x :: x in totals + [AllMonthsFloor] ==> x in totals || x == AllMonthsFloor;
    }
    ScaledBarsToPeak(MonthNames, totals, AllMonthsFloor);
    if max == 0 then EmptyChart
    else Bars(ScaledBars(MonthNames, totals, max))
  }

  /**
   * The all-months chart as the check after the maximum intends: a year whose
   * buckets are all zero shows the empty state; any other year draws the bars
   * the code draws.
   */
  function AllMonthsChart(totals: seq<int>): (c: Chart)
    requires |totals| == 12
    ensures c.EmptyChart? <==> MaxOf(totals) == 0
    ensures c.Bars? ==> c == AllMonthsChartAsWritten(totals)
  {
    if MaxOf(totals) == 0 then EmptyChart
    else AllMonthsChartAsWritten(totals)
  }

  /** With no negative bucket, the corrected chart is empty exactly when every
      bucket is zero, and otherwise draws twelve bars scaled against the
      largest month, or against one currency unit when every month is below it. */
  lemma AllMonthsChartEmptyIff(totals: seq<int>)
    requires |totals| == 12
    requires forall k :: 0 <= k < 12 ==> totals[k] >= 0
    ensures AllMonthsChart(totals).EmptyChart? <==> forall k :: 0 <= k < 12 ==> totals[k] == 0
    ensures var c := AllMonthsChart(totals);
      c.Bars? ==> |c.bars| == 12 && ScaledToPeak(c.bars, AllMonthsFloor) && Gauged(c.bars, AllMonthsFloor)
  {
    ZeroMaxIffAllZero(totals);
    var c := AllMonthsChart(totals);
    if c.Bars? {
      PeakHeights(c.bars, AllMonthsFloor);
    }
  }

  /** Daily bucket `d - 1` is the expense of day `d`. */
  lemma DailyBucketIsDayExpense(ts: seq<Transaction>, year: nat, month: nat, days: nat, d: nat)
    requires 1 <= d <= days
    ensures Histogram(ts, days, DaySlot(year, month), ExpenseOf)[d - 1] == SumBy(ts, DayPart(year, month, d))
  {
    HistogramBucket(ts, days, DaySlot(year, month), ExpenseOf, d - 1);
    SumByExtensional(ts, Slotted(DaySlot(year, month), ExpenseOf, d - 1), DayPart(year, month, d));
  }

  /** The daily buckets together hold every expense of the month. */
  lemma DailyBucketsCoverMonth(ts: seq<Transaction>, year: nat, month: nat)
    requires forall t :: t in ts ==> ValidDate(t.date)
    ensures Sum(Histogram(ts, JsDaysInMonth(year, month), DaySlot(year, month), ExpenseOf))
         == SumBy(ts, MonthPart(year, month))
  {
    var days := JsDaysInMonth(year, month);
    HistogramSum(ts, days, DaySlot(year, month), ExpenseOf);
    forall t | t in ts
      ensures InRange(DaySlot(year, month), ExpenseOf, days)(t) == MonthPart(year, month)(t)
    {
      if t.amount < 0 && t.date.year == year && t.date.month == month {
        DayWithinJsMonth(t.date);
      }
    }
    SumByExtensional(ts, InRange(DaySlot(year, month), ExpenseOf, days), MonthPart(year, month));
  }

  /** Monthly bucket `k` is the expense of month `k + 1`. */
  lemma MonthlyBucketIsMonthExpense(ts: seq<Transaction>, year: nat, k: nat)
    requires k < 12
    ensures Histogram(ts, 12, MonthSlot(year), ExpenseOf)[k] == SumBy(ts, MonthPart(year, k + 1))
  {
    HistogramBucket(ts, 12, MonthSlot(year), ExpenseOf, k);
    SumByExtensional(ts, Slotted(MonthSlot(year), ExpenseOf, k), MonthPart(year, k + 1));
  }

  /** The monthly buckets together hold every expense of the year. */
  lemma MonthlyBucketsCoverYear(ts: seq<Transaction>, year: nat)
    requires forall t :: t in ts ==> ValidDate(t.date)
    ensures Sum(Histogram(ts, 12, MonthSlot(year), ExpenseOf)) == SumBy(ts, YearPart(year))
  {
    HistogramSum(ts, 12, MonthSlot(year), ExpenseOf);
    forall t | t in ts
      ensures InRange(MonthSlot(year), ExpenseOf, 12)(t) == YearPart(year)(t)
    {
      if t.amount < 0 && t.date.year == year {
        assert ValidDate(t.date);
      }
    }
    SumByExtensional(ts, InRange(MonthSlot(year), ExpenseOf, 12), YearPart(year));
  }

  /** The daily buckets are all zero exactly when the month has no expense. */
  lemma DailyBucketsZeroIff(ts: seq<Transaction>, year: nat, month: nat)
    requires forall t :: t in ts ==> ValidDate(t.date)
    ensures var h := Histogram(ts, JsDaysInMonth(year, month), DaySlot(year, month), ExpenseOf);
      (forall k :: 0 <= k < |h| ==> h[k] == 0) <==> NoExpenseInMonth(ts, year, month)
  {
    var days := JsDaysInMonth(year, month);
    HistogramAllZero(ts, days, DaySlot(year, month), ExpenseOf);
    forall t | t in ts && t.amount < 0 && t.date.year == year && t.date.month == month
      ensures 0 <= DaySlot(year, month)(t) < days
    {
      DayWithinJsMonth(t.date);
    }
  }

  /** The monthly buckets are all zero exactly when the year has no expense. */
  lemma MonthlyBucketsZeroIff(ts: seq<Transaction>, year: nat)
    requires forall t :: t in ts ==> ValidDate(t.date)
    ensures var h := Histogram(ts, 12, MonthSlot(year), ExpenseOf);
      (forall k :: 0 <= k < 12 ==> h[k] == 0) <==> NoExpenseInYear(ts, year)
  {
    HistogramAllZero(ts, 12, MonthSlot(year), ExpenseOf);
    forall t | t in ts && t.amount < 0 && t.date.year == year
      ensures 0 <= MonthSlot(year)(t) < 12
    {
      assert ValidDate(t.date);
    }
  }

  /**
   * The daily chart of month `month` of `year`: one bar per day, each holding
   * that day's expense and scaled against the largest day, or the empty state
   * when the month has no expense.
   */
  method DailyExpenseChart(ts: seq<Transaction>, year: nat, month: nat) returns (chart: Chart)
    requires forall t :: t in ts ==> ValidDate(t.date)
    ensures chart.EmptyChart? <==> NoExpenseInMonth(ts, year, month)
    ensures chart.Bars? ==>
      && |chart.bars| == JsDaysInMonth(year, month)
      && (forall d :: 0 <= d < |chart.bars| ==>
            chart.bars[d].caption == NatToString(d + 1) && chart.bars[d].total == SumBy(ts, DayPart(year, month, d + 1)))
      && ScaledToPeak(chart.bars, 0) && Gauged(chart.bars, 0)
  {
    var days := JsDaysInMonth(year, month);
    var totals := DailyTotals(ts, year, month, days);
    chart := DailyChart(totals[..]);
    DailyChartEmptyIff(ts, year, month);
    DailyChartBars(ts, year, month);
    DailyChartScaled(ts, year, month);
  }

  /** The daily buckets of month `month` of `year`, as the daily chart reads them. */
  function MonthTotals(ts: seq<Transaction>, year: nat, month: nat): seq<int> {
    Histogram(ts, JsDaysInMonth(year, month), DaySlot(year, month), ExpenseOf)
  }

  /** The daily chart shows the empty state exactly when the month has no expense. */
  lemma DailyChartEmptyIff(ts: seq<Transaction>, year: nat, month: nat)
    requires forall t :: t in ts ==> ValidDate(t.date)
    ensures DailyChart(MonthTotals(ts, year, month)).EmptyChart? <==> NoExpenseInMonth(ts, year, month)
  {
    var days := JsDaysInMonth(year, month);
    var h := MonthTotals(ts, year, month);
    assert h == Histogram(ts, days, DaySlot(year, month), ExpenseOf);
    DailyBucketsZeroIff(ts, year, month);
    assert (forall k :: 0 <= k < |h| ==> h[k] == 0) <==> NoExpenseInMonth(ts, year, month);
    HistogramNonNegative(ts, days, DaySlot(year, month), ExpenseOf);
    assert forall k :: 0 <= k < |h| ==> h[k] >= 0;
    ZeroMaxIffAllZero(h);
  }

  /** The bars of the daily chart are the days of the month, each with its expense. */
  lemma DailyChartBars(ts: seq<Transaction>, year: nat, month: nat)
    ensures var c := DailyChart(MonthTotals(ts, year, month));
      c.Bars? ==>
        && |c.bars| == JsDaysInMonth(year, month)
        && forall d :: 0 <= d < |c.bars| ==>
             c.bars[d].caption == NatToString(d + 1) && c.bars[d].total == SumBy(ts, DayPart(year, month, d + 1))
  {
    var days := JsDaysInMonth(year, month);
    var h := MonthTotals(ts, year, month);
    forall d | 0 <= d < days
      ensures h[d] == SumBy(ts, DayPart(year, month, d + 1))
    {
      DailyBucketIsDayExpense(ts, year, month, days, d + 1);
    }
  }

  /** The bars of the daily chart are scaled against the largest day, with no
      floor, and gauged. */
  lemma DailyChartScaled(ts: seq<Transaction>, year: nat, month: nat)
    ensures var c := DailyChart(MonthTotals(ts, year, month));
      c.Bars? ==> ScaledToPeak(c.bars, 0) && Gauged(c.bars, 0)
  {
    var h := MonthTotals(ts, year, month);
    var c := DailyChart(h);
    if c.Bars? {
      HistogramNonNegative(ts, |h|, DaySlot(year, month), ExpenseOf);
      assert MaxOf(h) in h;
      ScaledBarsToPeak(DayLabels(|h|), h, 0);
      PeakHeights(c.bars, 0);
    }
  }

  /** The monthly buckets of `year`, as the all-months chart reads them. */
  function YearTotals(ts: seq<Transaction>, year: nat): seq<int> {
    Histogram(ts, 12, MonthSlot(year), ExpenseOf)
  }

  /**
   * The chart of the months of `year`: one bar per month, each holding that
   * month's expense and scaled against the largest month, or against one
   * currency unit when every month is below it; the empty state when the year
   * has no expense. Whenever it draws bars, they are the bars the code draws.
   */
  method YearExpenseChart(ts: seq<Transaction>, year: nat) returns (chart: Chart)
    requires forall t :: t in ts ==> ValidDate(t.date)
    ensures chart.EmptyChart? <==> NoExpenseInYear(ts, year)
    ensures chart.Bars? ==>
      && |chart.bars| == 12
      && (forall k :: 0 <= k < 12 ==>
            chart.bars[k].caption == MonthNames[k] && chart.bars[k].total == SumBy(ts, MonthPart(year, k + 1)))
      && ScaledToPeak(chart.bars, AllMonthsFloor) && Gauged(chart.bars, AllMonthsFloor)
      && chart == AllMonthsChartAsWritten(YearTotals(ts, year))
  {
    var totals := MonthlyTotals(ts, year);
    ghost var h := totals[..];
    chart := AllMonthsChart(totals[..]);
    MonthlyBucketsZeroIff(ts, year);
    HistogramNonNegative(ts, 12, MonthSlot(year), ExpenseOf);
    ZeroMaxIffAllZero(h);
    AllMonthsChartEmptyIff(h);
    forall k | 0 <= k < 12
      ensures h[k] == SumBy(ts, MonthPart(year, k + 1))
    {
      MonthlyBucketIsMonthExpense(ts, year, k);
    }
  }

  /**
   * The all-months chart as the code draws it from the records: always twelve
   * bars, Jan to Dec, each holding its month's expense; in a year without any
   * expense every bar has height 0 and the empty state is never shown.
   */
  lemma YearChartAsWritten(ts: seq<Transaction>, year: nat)
    requires forall t :: t in ts ==> ValidDate(t.date)
    ensures var c := AllMonthsChartAsWritten(YearTotals(ts, year));
      && c.Bars? && |c.bars| == 12
      && (forall k :: 0 <= k < 12 ==>
            c.bars[k].caption == MonthNames[k] && c.bars[k].total == SumBy(ts, MonthPart(year, k + 1)))
      && (NoExpenseInYear(ts, year) ==> forall k :: 0 <= k < 12 ==> c.bars[k].height == 0.0)
  {
    var h := YearTotals(ts, year);
    var c := AllMonthsChartAsWritten(h);
    forall k | 0 <= k < 12
      ensures h[k] == SumBy(ts, MonthPart(year, k + 1))
    {
      MonthlyBucketIsMonthExpense(ts, year, k);
    }
    if NoExpenseInYear(ts, year) {
      MonthlyBucketsZeroIff(ts, year);
      assert h == Histogram(ts, 12, MonthSlot(year), ExpenseOf);
      assert forall k :: 0 <= k < 12 ==> h[k] == 0;
      AllMonthsAsWrittenFlat(h);
    }
  }

  /** With every bucket 0, the code's all-months chart still draws its twelve bars, all of height 0. */
  lemma AllMonthsAsWrittenFlat(totals: seq<int>)
    requires |totals| == 12
    requires forall k :: 0 <= k < 12 ==> totals[k] == 0
    ensures forall k :: 0 <= k < 12 ==> AllMonthsChartAsWritten(totals).bars[k].height == 0.0
  {
    ZeroMaxIffAllZero(totals);
    assert forall k :: 0 <= k < 12 ==> AllMonthsChartAsWritten(totals).bars[k].height == Height(0, AllMonthsFloor);
  }

  /**
   * The expense chart. With a month selected, the daily chart of that month;
   * a key that does not read back as a year and month draws no bars. With all
   * months, the chart of the months of `currentYear`.
   */
  method MonthlyExpenseChart(ts: seq<Transaction>, filter: MonthFilter, currentYear: nat) returns (chart: Chart)
    requires forall t :: t in ts ==> ValidDate(t.date)
    ensures filter.AllMonths? ==>
      && (chart.EmptyChart? <==> NoExpenseInYear(ts, currentYear))
      && (chart.Bars? ==>
            && |chart.bars| == 12
            && (forall k :: 0 <= k < 12 ==>
                  chart.bars[k].caption == MonthNames[k] && chart.bars[k].total == SumBy(ts, MonthPart(currentYear, k + 1)))
            && ScaledToPeak(chart.bars, AllMonthsFloor) && Gauged(chart.bars, AllMonthsFloor)
            && chart == AllMonthsChartAsWritten(YearTotals(ts, currentYear)))
    ensures filter.OnlyMonth? && ParseMonthKey(filter.key).None? ==> chart == Bars([])
    ensures filter.OnlyMonth? && ParseMonthKey(filter.key).Some? ==>
      var (year, month) := ParseMonthKey(filter.key).value;
      && (chart.EmptyChart? <==> NoExpenseInMonth(ts, year, month))
      && (chart.Bars? ==>
            && |chart.bars| == JsDaysInMonth(year, month)
            && (forall d :: 0 <= d < |chart.bars| ==>
                  chart.bars[d].caption == NatToString(d + 1) && chart.bars[d].total == SumBy(ts, DayPart(year, month, d + 1)))
            && ScaledToPeak(chart.bars, 0) && Gauged(chart.bars, 0))
  {
    if filter.OnlyMonth? {
      match ParseMonthKey(filter.key) {
        case None =>
          chart := DailyChart([]);
        case Some((year, month)) =>
          chart := DailyExpenseChart(ts, year, month);
      }
    } else {
      chart := YearExpenseChart(ts, currentYear);
    }
  }

  /** The largest of some non-negative totals is 0 exactly when all of them are. */
  lemma ZeroMaxIffAllZero(totals: seq<int>)
    requires totals != []
    requires forall k :: 0 <= k < |totals| ==> totals[k] >= 0
    ensures MaxOf(totals) == 0 <==> forall k :: 0 <= k < |totals| ==> totals[k] == 0
  {
    if MaxOf(totals) == 0 {
      forall k | 0 <= k < |totals|
        ensures totals[k] == 0
      {
        assert totals[k] in totals;
      }
    }
  }
}
