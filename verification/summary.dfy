/**
 * The summary cards (income, expense, balance) and the income-versus-expense
 * comparison bars, both over the month-scoped subset.
 */
module Summary {
  import opened Seqs
  import opened Ledger

  /**
   * Totals of the month-scoped subset: income sums the positive amounts,
   * expense the magnitudes of the rest, and the balance is their difference.
   */
  method Summarize(ts: seq<Transaction>, filter: MonthFilter) returns (income: int, expense: int, balance: int)
    ensures income == SumBy(MonthScoped(ts, filter), IncomeOf)
    ensures expense == SumBy(MonthScoped(ts, filter), ExpenseOf)
    ensures income >= 0 && expense >= 0
    ensures balance == income - expense
    ensures balance == SumBy(MonthScoped(ts, filter), AmountOf)
  {
    var scoped := ScopeToMonth(ts, filter);
    income, expense := TotalUp(scoped);
    balance := income - expense;
    TotalsAreNonNegative(scoped);
    BalanceIsSignedSum(scoped);
  }

  /** The `forEach` pass of the summary: the positive amounts and the magnitudes of the rest. */
  method TotalUp(scoped: seq<Transaction>) returns (income: int, expense: int)
    ensures income == SumBy(scoped, IncomeOf)
    ensures expense == SumBy(scoped, ExpenseOf)
  {
    income, expense := 0, 0;
    var i := 0;
    while i < |scoped|
      invariant i <= |scoped|
      invariant income == SumBy(scoped[..i], IncomeOf)
      invariant expense == SumBy(scoped[..i], ExpenseOf)
    {
      var t := scoped[i];
      assert scoped[..i + 1][..i] == scoped[..i];
      if t.amount > 0 {
        income := income + t.amount;
      } else {
        expense := expense + Abs(t.amount);
      }
      i := i + 1;
    }
    assert scoped[..i] == scoped;
  }

  lemma TotalsAreNonNegative(ts: seq<Transaction>)
    ensures SumBy(ts, IncomeOf) >= 0 && SumBy(ts, ExpenseOf) >= 0
  {
    SumByNonNegative(ts, IncomeOf);
    SumByNonNegative(ts, ExpenseOf);
  }

  /** Income minus expense is the plain sum of the signed amounts. */
  lemma BalanceIsSignedSum(ts: seq<Transaction>)
    ensures SumBy(ts, IncomeOf) - SumBy(ts, ExpenseOf) == SumBy(ts, AmountOf)
  {
    SumByAdditive(ts, AmountOf, ExpenseOf, IncomeOf);
  }

  /**
   * The comparison bar heights: each side's share of income + expense, in
   * percent, and both 0 when there is nothing to compare.
   */
  function ComparisonPercents(income: int, expense: int): (r: (real, real))
    ensures income + expense <= 0 ==> r == (0.0, 0.0)
    ensures income + expense > 0 ==>
      && r.0 + r.1 == 100.0
      && r.0 * (income + expense) as real == 100.0 * income as real
      && r.1 * (income + expense) as real == 100.0 * expense as real
    ensures income >= 0 && expense >= 0 ==> 0.0 <= r.0 <= 100.0 && 0.0 <= r.1 <= 100.0
  {
    var total := income + expense;
    if total > 0 then
      var t := total as real;
      var a := (income as real / t) * 100.0;
      var b := (expense as real / t) * 100.0;
      assert a * t == 100.0 * income as real;
      assert b * t == 100.0 * expense as real;
      assert (a + b) * t == a * t + b * t;
      assert a + b == 100.0;
      (a, b)
    else
      (0.0, 0.0)
  }

  /** The comparison chart: the summary totals of the month-scoped subset, as shares. */
  method ComparisonChart(ts: seq<Transaction>, filter: MonthFilter) returns (incomePercent: real, expensePercent: real)
    ensures var income := SumBy(MonthScoped(ts, filter), IncomeOf);
      var expense := SumBy(MonthScoped(ts, filter), ExpenseOf);
      (incomePercent, expensePercent) == ComparisonPercents(income, expense)
  {
    var income, expense, _ := Summarize(ts, filter);
    var r := ComparisonPercents(income, expense);
    incomePercent, expensePercent := r.0, r.1;
  }
}
