/**
 * The quick-stats panel over the month-scoped subset: today's expense, the
 * trailing week's expense, the top expense category and the average expense
 * per month that has expenses.
 */
module QuickStats {
  import opened Wrappers
  import opened Text
  import opened Calendar
  import opened Seqs
  import opened Ledger

  /** What an expense on `today` adds to today's total. */
  function TodayPart(today: Date): Transaction -> int {
    (t: Transaction) => if t.amount < 0 && t.date == today then -t.amount else 0
  }

  /** What an expense on or after `weekStart` adds to the week's total. */
  function WeekPart(weekStart: Date): Transaction -> int {
    (t: Transaction) => if t.amount < 0 && OnOrBefore(weekStart, t.date) then -t.amount else 0
  }

  /** What an expense in category `c` adds to that category's total. */
  function CategoryPart(c: string): Transaction -> int {
    (t: Transaction) => if t.amount < 0 && t.category == c then -t.amount else 0
  }

  /** The categories of the expense records, each once, in order of first appearance. */
  function ExpenseCategories(ts: seq<Transaction>): seq<string> {
    if ts == [] then []
    else
      var cs := ExpenseCategories(ts[..|ts| - 1]);
      var t := ts[|ts| - 1];
      if t.amount < 0 && t.category !in cs then cs + [t.category] else cs
  }

  /** The category totals as an insertion-ordered list of (category, total). */
  function CategoryTotals(ts: seq<Transaction>): seq<(string, int)> {
    var cs := ExpenseCategories(ts);
    seq(|cs|, j requires 0 <= j < |cs| => (cs[j], SumBy(ts, CategoryPart(cs[j]))))
  }

  /** The (year, month) of every expense record. */
  function ExpenseMonths(ts: seq<Transaction>): set<(nat, nat)> {
    if ts == [] then {}
    else
      var t := ts[|ts| - 1];
      ExpenseMonths(ts[..|ts| - 1]) + (if t.amount < 0 then {(t.date.year, t.date.month)} else {})
  }

  /** Total expense over the number of months with expenses; 0 when there are none. */
  function Average(total: int, months: nat): real {
    if months > 0 then total as real / months as real else 0.0
  }

  /** Entry `k` is the top category: its total is positive, at least every
      other total, and strictly above every total before it. */
  predicate IsTop(entries: seq<(string, int)>, k: int) {
    && 0 <= k < |entries|
    && entries[k].1 > 0
    && (forall j :: 0 <= j < |entries| ==> entries[j].1 <= entries[k].1)
    && (forall j :: 0 <= j < k ==> entries[j].1 < entries[k].1)
  }

  /** No category total exceeds 0. */
  predicate NoTop(entries: seq<(string, int)>) {
    forall j :: 0 <= j < |entries| ==> entries[j].1 <= 0
  }

  /**
   * The top-category scan: the running maximum starts at 0 and is replaced
   * only by a strictly greater total, so ties go to the earlier category.
   */
  method TopCategory(entries: seq<(string, int)>) returns (top: Option<nat>)
    ensures top.None? <==> NoTop(entries)
    ensures top.Some? ==> IsTop(entries, top.value)
  {
    top := None;
    var maxAmount := 0;
    var i := 0;
    while i < |entries|
      invariant i <= |entries|
      invariant top.None? ==> maxAmount == 0 && forall j :: 0 <= j < i ==> entries[j].1 <= 0
      invariant top.Some? ==>
        && top.value < i && maxAmount == entries[top.value].1 && maxAmount > 0
        && (forall j :: 0 <= j < i ==> entries[j].1 <= maxAmount)
        && (forall j :: 0 <= j < top.value ==> entries[j].1 < maxAmount)
    {
      if entries[i].1 > maxAmount {
        maxAmount := entries[i].1;
        top := Some(i);
      }
      i := i + 1;
    }
  }

  /** There is at most one top category. */
  lemma TopIsUnique(entries: seq<(string, int)>, k1: int, k2: int)
    requires IsTop(entries, k1) && IsTop(entries, k2)
    ensures k1 == k2
  {
  }

  /** The quick stats; `top` is the raw category of the top entry and
      `topLabel` the text the top-category stat shows. */
  datatype Stats = Stats(todayExpense: int, weekExpense: int, top: Option<string>, topLabel: string, averageMonthly: real)

  /** The text of the top-category stat: `-` when there is none, otherwise the
      category with its first letter in upper case and the rest as stored. */
  function TopLabel(top: Option<string>): (r: string)
    ensures top.None? ==> r == "-"
    ensures top.Some? ==> |r| == |top.value| && Lower(r) == Lower(top.value)
    ensures top.Some? && top.value != [] ==> !('a' <= r[0] <= 'z') && r[1..] == top.value[1..]
  {
    if top.None? then "-" else Capitalize(top.value)
  }

  /** Index of category `c` among the entries, or `|entries|` when it has none. */
  function IndexOfCategory(entries: seq<(string, int)>, c: string): (k: nat)
    ensures k <= |entries|
    ensures k < |entries| ==> entries[k].0 == c
    ensures forall j :: 0 <= j < k ==> entries[j].0 != c
  {
    if entries == [] then 0
    else if entries[0].0 == c then 0
    else 1 + IndexOfCategory(entries[1..], c)
  }

  /**
   * Adds `amount` to the entry of category `c`, appending an entry that starts
   * at 0 when `c` has none yet.
   */
  function AddToCategory(entries: seq<(string, int)>, c: string, amount: int): (r: seq<(string, int)>)
    ensures var k := IndexOfCategory(entries, c);
      && |r| == (if k == |entries| then |entries| + 1 else |entries|)
      && r[k] == (c, (if k == |entries| then 0 else entries[k].1) + amount)
      && forall j :: 0 <= j < |r| && j != k ==> r[j] == entries[j]
  {
    var k := IndexOfCategory(entries, c);
    var grown := if k == |entries| then entries + [(c, 0)] else entries;
    grown[k := (c, grown[k].1 + amount)]
  }

  /** The entries track the category totals of `ts`, in first-appearance order. */
  predicate TracksCategories(entries: seq<(string, int)>, ts: seq<Transaction>) {
    var cs := ExpenseCategories(ts);
    && |entries| == |cs|
    && forall j :: 0 <= j < |entries| ==> entries[j].0 == cs[j] && entries[j].1 == SumBy(ts, CategoryPart(cs[j]))
  }

  /** The running state of the `forEach` pass of the quick stats. */
  datatype Scan = Scan(todayExpense: int, weekExpense: int, totalExpense: int,
                       categoryTotals: seq<(string, int)>, monthlyTotals: map<(nat, nat), int>, monthCount: nat)

  /** One call of the `forEach` callback: a record that is not an expense changes
      nothing; an expense adds its magnitude to each total it belongs to and opens
      its month at 0 the first time the month is seen. */
  function Visit(acc: Scan, t: Transaction, today: Date, weekStart: Date): Scan {
    if t.amount >= 0 then acc
    else
      var amount := Abs(t.amount);
      var key := (t.date.year, t.date.month);
      var months := if key in acc.monthlyTotals then acc.monthlyTotals else acc.monthlyTotals[key := 0];
      Scan(acc.todayExpense + (if t.date == today then amount else 0),
           acc.weekExpense + (if OnOrBefore(weekStart, t.date) then amount else 0),
           acc.totalExpense + amount,
           AddToCategory(acc.categoryTotals, t.category, amount),
           months[key := months[key] + amount],
           acc.monthCount + (if key in acc.monthlyTotals then 0 else 1))
  }

  /** The state after the callback has run over every record of `ts` in order. */
  function ScanOf(ts: seq<Transaction>, today: Date, weekStart: Date): Scan {
    if ts == [] then Scan(0, 0, 0, [], map[], 0)
    else Visit(ScanOf(ts[..|ts| - 1], today, weekStart), ts[|ts| - 1], today, weekStart)
  }

  /**
   * What the pass computes: today's, the week's and the total expense as sums
   * over the records, the category totals in first-appearance order, one
   * monthly entry per month that has an expense, and the count of those months.
   */
  lemma {:induction false} ScanOfMeaning(ts: seq<Transaction>, today: Date, weekStart: Date)
    ensures var r := ScanOf(ts, today, weekStart);
      && r.todayExpense == SumBy(ts, TodayPart(today))
      && r.weekExpense == SumBy(ts, WeekPart(weekStart))
      && r.totalExpense == SumBy(ts, ExpenseOf)
      && TracksCategories(r.categoryTotals, ts)
      && r.monthlyTotals.Keys == ExpenseMonths(ts)
      && r.monthCount == |ExpenseMonths(ts)|
  {
    if ts != [] {
      var init := ts[..|ts| - 1];
      var acc := ScanOf(init, today, weekStart);
      ScanOfMeaning(init, today, weekStart);
      ScanStep(ts, today, weekStart);
      MonthKeysStep(acc.monthlyTotals, ts);
      if ts[|ts| - 1].amount < 0 {
        CategoryStep(acc.categoryTotals, ts);
      } else {
        IncomeLeavesCategories(acc.categoryTotals, ts);
      }
    }
  }

  /** The body of the `forEach` callback, run on one record. */
  method RecordExpense(t: Transaction, today: Date, weekStart: Date,
                       todayExpense: int, weekExpense: int, totalExpense: int,
                       categoryTotals: seq<(string, int)>, monthlyTotals: map<(nat, nat), int>, monthCount: nat)
    returns (todayExpense': int, weekExpense': int, totalExpense': int,
             categoryTotals': seq<(string, int)>, monthlyTotals': map<(nat, nat), int>, monthCount': nat)
    ensures Scan(todayExpense', weekExpense', totalExpense', categoryTotals', monthlyTotals', monthCount')
         == Visit(Scan(todayExpense, weekExpense, totalExpense, categoryTotals, monthlyTotals, monthCount), t, today, weekStart)
  {
    todayExpense', weekExpense', totalExpense' := todayExpense, weekExpense, totalExpense;
    categoryTotals', monthlyTotals', monthCount' := categoryTotals, monthlyTotals, monthCount;
    if t.amount < 0 {
      var amount := Abs(t.amount);
      if t.date == today {
        todayExpense' := todayExpense' + amount;
      }
      if OnOrBefore(weekStart, t.date) {
        weekExpense' := weekExpense' + amount;
      }
      categoryTotals' := AddToCategory(categoryTotals', t.category, amount);
      var monthKey := (t.date.year, t.date.month);
      if monthKey !in monthlyTotals' {
        monthlyTotals' := monthlyTotals'[monthKey := 0];
        monthCount' := monthCount' + 1;
      }
      monthlyTotals' := monthlyTotals'[monthKey := monthlyTotals'[monthKey] + amount];
      totalExpense' := totalExpense' + amount;
    }
  }

  /**
   * The `forEach` pass of the quick stats: today's, the week's and the total
   * expense, the category totals, and the months that have expenses.
   */
  method ScanExpenses(scoped: seq<Transaction>, today: Date, weekStart: Date)
    returns (todayExpense: int, weekExpense: int, totalExpense: int,
             categoryTotals: seq<(string, int)>, monthCount: nat)
    ensures todayExpense == SumBy(scoped, TodayPart(today))
    ensures weekExpense == SumBy(scoped, WeekPart(weekStart))
    ensures totalExpense == SumBy(scoped, ExpenseOf)
    ensures categoryTotals == CategoryTotals(scoped)
    ensures monthCount == |ExpenseMonths(scoped)|
  {
    todayExpense, weekExpense, totalExpense, monthCount := 0, 0, 0, 0;
    categoryTotals := [];
    var monthlyTotals: map<(nat, nat), int> := map[];
    var i := 0;
    while i < |scoped|
      invariant i <= |scoped|
      invariant Scan(todayExpense, weekExpense, totalExpense, categoryTotals, monthlyTotals, monthCount)
             == ScanOf(scoped[..i], today, weekStart)
    {
      assert scoped[..i + 1][..i] == scoped[..i];
      todayExpense, weekExpense, totalExpense, categoryTotals, monthlyTotals, monthCount :=
        RecordExpense(scoped[i], today, weekStart, todayExpense, weekExpense, totalExpense, categoryTotals, monthlyTotals, monthCount);
      i := i + 1;
    }
    assert scoped[..i] == scoped;
    ScanOfMeaning(scoped, today, weekStart);
    TracksAreTotals(categoryTotals, scoped);
  }

  /**
   * The quick stats of the month-scoped subset. `today` is the current date and
   * `weekStart` the first date inside the trailing seven-day window.
   */
  method ComputeQuickStats(ts: seq<Transaction>, filter: MonthFilter, today: Date, weekStart: Date) returns (stats: Stats)
    ensures var scoped := MonthScoped(ts, filter);
      && stats.todayExpense == SumBy(scoped, TodayPart(today))
      && stats.weekExpense == SumBy(scoped, WeekPart(weekStart))
      && (stats.top.None? <==> NoTop(CategoryTotals(scoped)))
      && (stats.top.Some? ==> exists k :: IsTop(CategoryTotals(scoped), k) && CategoryTotals(scoped)[k].0 == stats.top.value)
      && stats.topLabel == TopLabel(stats.top)
      && stats.averageMonthly == Average(SumBy(scoped, ExpenseOf), |ExpenseMonths(scoped)|)
  {
    var scoped := ScopeToMonth(ts, filter);
    var todayExpense, weekExpense, totalExpense, categoryTotals, monthCount := ScanExpenses(scoped, today, weekStart);
    var top := TopCategory(categoryTotals);
    var average := if monthCount > 0 then totalExpense as real / monthCount as real else 0.0;
    var topName := if top.Some? then Some(categoryTotals[top.value].0) else None;
    stats := Stats(todayExpense, weekExpense, topName, TopLabel(topName), average);
  }

  /** What the last record of `s` adds to each running sum. */
  lemma ScanStep(s: seq<Transaction>, today: Date, weekStart: Date)
    requires s != []
    ensures var init, t := s[..|s| - 1], s[|s| - 1];
      var amount := if t.amount < 0 then Abs(t.amount) else 0;
      && SumBy(s, TodayPart(today)) == SumBy(init, TodayPart(today)) + (if t.date == today then amount else 0)
      && SumBy(s, WeekPart(weekStart)) == SumBy(init, WeekPart(weekStart)) + (if OnOrBefore(weekStart, t.date) then amount else 0)
      && SumBy(s, ExpenseOf) == SumBy(init, ExpenseOf) + amount
  {
  }

  /** The months with expenses grow by the month of the last record when it is an
      expense, and the count grows exactly when that month is new. */
  lemma MonthKeysStep(m: map<(nat, nat), int>, s: seq<Transaction>)
    requires s != [] && m.Keys == ExpenseMonths(s[..|s| - 1])
    ensures var t := s[|s| - 1];
      var key := (t.date.year, t.date.month);
      && (t.amount < 0 ==> ExpenseMonths(s) == m.Keys + {key} && |ExpenseMonths(s)| == |m.Keys| + (if key in m then 0 else 1))
      && (t.amount >= 0 ==> ExpenseMonths(s) == m.Keys)
  {
    var t := s[|s| - 1];
    var key := (t.date.year, t.date.month);
    if key in m {
      assert m.Keys + {key} == m.Keys;
    }
  }

  lemma TracksAreTotals(entries: seq<(string, int)>, ts: seq<Transaction>)
    requires TracksCategories(entries, ts)
    ensures entries == CategoryTotals(ts)
  {
  }

  /** A category is listed exactly when some expense record has it, and each is listed once. */
  lemma {:induction false} ExpenseCategoriesSound(ts: seq<Transaction>)
    ensures forall c :: c in ExpenseCategories(ts) <==> exists t :: t in ts && t.amount < 0 && t.category == c
    ensures forall i, j :: 0 <= i < j < |ExpenseCategories(ts)| ==> ExpenseCategories(ts)[i] != ExpenseCategories(ts)[j]
  {
    if ts != [] {
      var init, last := ts[..|ts| - 1], ts[|ts| - 1];
      assert ts == init + [last];
      ExpenseCategoriesSound(init);
      forall c
        ensures c in ExpenseCategories(ts) <==> exists t :: t in ts && t.amount < 0 && t.category == c
      {
        if exists t :: t in ts && t.amount < 0 && t.category == c {
          var t :| t in ts && t.amount < 0 && t.category == c;
          if t != last {
            assert t in init;
          }
        }
      }
    }
  }

  /** A category never listed has a zero total. */
  lemma {:induction false} UnlistedCategoryIsZero(ts: seq<Transaction>, c: string)
    requires c !in ExpenseCategories(ts)
    ensures SumBy(ts, CategoryPart(c)) == 0
  {
    if ts != [] {
      var init := ts[..|ts| - 1];
      assert c !in ExpenseCategories(init);
      UnlistedCategoryIsZero(init, c);
    }
  }

  /** An expense record updates the entry of its category, appending it when new. */
  lemma CategoryStep(entries: seq<(string, int)>, ts': seq<Transaction>)
    requires ts' != [] && ts'[|ts'| - 1].amount < 0
    requires TracksCategories(entries, ts'[..|ts'| - 1])
    ensures var t := ts'[|ts'| - 1];
      TracksCategories(AddToCategory(entries, t.category, Abs(t.amount)), ts')
  {
    var ts, t := ts'[..|ts'| - 1], ts'[|ts'| - 1];
    assert ts' == ts + [t];
    var k := IndexOfCategory(entries, t.category);
    var cs := ExpenseCategories(ts);
    var cs' := ExpenseCategories(ts');
    var grown := if k == |entries| then entries + [(t.category, 0)] else entries;
    var r := grown[k := (t.category, grown[k].1 + Abs(t.amount))];
    ExpenseCategoriesSound(ts);
    if k == |entries| {
      assert forall j :: 0 <= j < |cs| ==> cs[j] == entries[j].0 != t.category;
      assert t.category !in cs;
      UnlistedCategoryIsZero(ts, t.category);
    } else {
      assert cs[k] == t.category;
    }
    forall j | 0 <= j < |r|
      ensures r[j].0 == cs'[j] && r[j].1 == SumBy(ts', CategoryPart(cs'[j]))
    {
      SumBySnoc(ts, t, CategoryPart(cs'[j]));
      if j != k {
        assert cs'[j] == cs[j];
        assert cs[j] != t.category;
      }
    }
  }

  /** A record that is not an expense leaves every category total as it was. */
  lemma IncomeLeavesCategories(entries: seq<(string, int)>, ts': seq<Transaction>)
    requires ts' != [] && ts'[|ts'| - 1].amount >= 0
    requires TracksCategories(entries, ts'[..|ts'| - 1])
    ensures TracksCategories(entries, ts')
  {
    var ts, t := ts'[..|ts'| - 1], ts'[|ts'| - 1];
    assert ts' == ts + [t];
    forall j | 0 <= j < |entries|
      ensures SumBy(ts', CategoryPart(entries[j].0)) == SumBy(ts, CategoryPart(entries[j].0))
    {
      SumBySnoc(ts, t, CategoryPart(entries[j].0));
    }
  }

  /** Today's expense is part of the week's, which is part of the total, as long
      as today falls inside the week. */
  lemma TodayWithinWeekWithinTotal(ts: seq<Transaction>, today: Date, weekStart: Date)
    requires OnOrBefore(weekStart, today)
    ensures SumBy(ts, TodayPart(today)) <= SumBy(ts, WeekPart(weekStart)) <= SumBy(ts, ExpenseOf)
  {
    SumByMonotone(ts, TodayPart(today), WeekPart(weekStart));
    SumByMonotone(ts, WeekPart(weekStart), ExpenseOf);
  }

  /** The average times the number of expense months gives back the total, and
      the average lies between 0 and the total. */
  lemma AverageBounds(total: int, months: nat)
    requires total >= 0
    ensures 0.0 <= Average(total, months) <= total as real
    ensures months > 0 ==> Average(total, months) * months as real == total as real
  {
    if months > 0 {
      QuotientBounds(total as real, months as real);
    }
  }

  lemma QuotientBounds(x: real, m: real)
    requires x >= 0.0 && m >= 1.0
    ensures 0.0 <= x / m <= x
    ensures x / m * m == x
  {
    var a := x / m;
    assert a * m == x;
    assert a >= 0.0;
    assert a * m - a == a * (m - 1.0);
    NonNegativeProduct(a, m - 1.0);
  }

  lemma NonNegativeProduct(a: real, b: real)
    requires a >= 0.0 && b >= 0.0
    ensures a * b >= 0.0
  {
  }

  /** The top category is absent exactly when there is no expense at all. */
  lemma {:induction false} NoTopIffNoExpense(ts: seq<Transaction>)
    ensures NoTop(CategoryTotals(ts)) <==> forall t :: t in ts ==> t.amount >= 0
  {
    var cs := ExpenseCategories(ts);
    var entries := CategoryTotals(ts);
    ExpenseCategoryHasPositiveTotal(ts);
    if forall t :: t in ts ==> t.amount >= 0 {
      NoExpenseNoCategories(ts);
    } else {
      var t :| t in ts && t.amount < 0;
      ListedWhenSpent(ts, t);
      var j :| 0 <= j < |cs| && cs[j] == t.category;
      assert entries[j].1 > 0;
    }
  }

  lemma {:induction false} NoExpenseNoCategories(ts: seq<Transaction>)
    requires forall t :: t in ts ==> t.amount >= 0
    ensures ExpenseCategories(ts) == []
  {
    if ts != [] {
      NoExpenseNoCategories(ts[..|ts| - 1]);
    }
  }

  /** The category of every expense record is listed. */
  lemma {:induction false} ListedWhenSpent(ts: seq<Transaction>, t: Transaction)
    requires t in ts && t.amount < 0
    ensures t.category in ExpenseCategories(ts)
  {
    var init := ts[..|ts| - 1];
    if t != ts[|ts| - 1] {
      assert t in init by {
        var k :| 0 <= k < |ts| && ts[k] == t;
        assert init[k] == t;
      }
      ListedWhenSpent(init, t);
    }
  }

  /** Every listed category has a positive total. */
  lemma {:induction false} ExpenseCategoryHasPositiveTotal(ts: seq<Transaction>)
    ensures forall c :: c in ExpenseCategories(ts) ==> SumBy(ts, CategoryPart(c)) > 0
  {
    if ts != [] {
      var init, t := ts[..|ts| - 1], ts[|ts| - 1];
      ExpenseCategoryHasPositiveTotal(init);
      forall c | c in ExpenseCategories(ts) ensures SumBy(ts, CategoryPart(c)) > 0 {
        SumByNonNegative(init, CategoryPart(c));
      }
    }
  }
}
