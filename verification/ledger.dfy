/**
 * The transaction record, the per-record amounts the aggregates add up, and
 * the filter predicate of the transaction list: a case-insensitive search, a
 * type filter and a month filter, all three required.
 */
module Ledger {
  import opened Wrappers
  import opened Text
  import opened Calendar
  import opened Seqs

  /** One ledger record. `amount` is in minor units: positive is income,
      negative is expense, and zero is neither. */
  datatype Transaction = Transaction(id: int, description: string, amount: int, category: string, date: Date)

  /** What `parseFloat` makes of an amount field: nothing typed, not a number, or a value. */
  datatype AmountField = Empty | NotANumber | Parsed(value: int)

  /** The type select: `all`, `income` or `expense`. */
  datatype TypeFilter = AllTypes | IncomeOnly | ExpenseOnly

  /** The month select: `all`, or one `YYYY-MM` key. */
  datatype MonthFilter = AllMonths | OnlyMonth(key: string)

  function Abs(x: int): (r: int)
    ensures r >= 0
  {
    if x < 0 then -x else x
  }

  /** What a record adds to total income. */
  function IncomeOf(t: Transaction): int {
    if t.amount > 0 then t.amount else 0
  }

  /** What a record adds to total expense: the magnitude of a negative amount. */
  function ExpenseOf(t: Transaction): int {
    if t.amount < 0 then -t.amount else 0
  }

  function AmountOf(t: Transaction): int {
    t.amount
  }

  /** The search box: the lower-cased term occurs in the description or the
      category; an empty search matches every record. */
  predicate MatchesSearch(t: Transaction, term: string)
    ensures MatchesSearch(t, term) <==>
      || (exists i :: OccursAt(Lower(t.description), Lower(term), i))
      || (exists i :: OccursAt(Lower(t.category), Lower(term), i))
    ensures term == "" ==> MatchesSearch(t, term)
    ensures |term| > |t.description| && |term| > |t.category| ==> !MatchesSearch(t, term)
  {
    ContainsEmpty(Lower(t.description));
    var needle := Lower(term);
    Contains(Lower(t.description), needle) || Contains(Lower(t.category), needle)
  }

  /** The type select: `income` keeps exactly the records that add to total
      income, `expense` exactly those that add to total expense. */
  predicate MatchesType(t: Transaction, filter: TypeFilter)
    ensures MatchesType(t, filter) <==>
      || filter == AllTypes
      || (filter == IncomeOnly && IncomeOf(t) > 0)
      || (filter == ExpenseOnly && ExpenseOf(t) > 0)
  {
    match filter
    case AllTypes => true
    case IncomeOnly => t.amount > 0
    case ExpenseOnly => t.amount < 0
  }

  /** The month filter, shared by the list, the totals, the stats, the charts
      and the export: `all` keeps every record, and a key keeps only records
      whose year and month it reads back as. */
  predicate InMonth(t: Transaction, filter: MonthFilter)
    ensures filter.AllMonths? ==> InMonth(t, filter)
    ensures filter.OnlyMonth? && InMonth(t, filter) ==> ParseMonthKey(filter.key) == Some((t.date.year, t.date.month))
  {
    filter.AllMonths? || KeyOf(t.date) == filter.key
  }

  predicate Matches(t: Transaction, term: string, kind: TypeFilter, month: MonthFilter) {
    MatchesSearch(t, term) && MatchesType(t, kind) && InMonth(t, month)
  }

  function InMonthOf(filter: MonthFilter): Transaction -> bool {
    t => InMonth(t, filter)
  }

  function MatchesOf(term: string, kind: TypeFilter, month: MonthFilter): Transaction -> bool {
    t => Matches(t, term, kind, month)
  }

  /** The month-scoped subset every aggregate works on. */
  function MonthScoped(ts: seq<Transaction>, filter: MonthFilter): seq<Transaction> {
    Select(ts, InMonthOf(filter))
  }

  /** The transaction list shown to the user. */
  function Visible(ts: seq<Transaction>, term: string, kind: TypeFilter, month: MonthFilter): seq<Transaction> {
    Select(ts, MatchesOf(term, kind, month))
  }

  /** A record is shown exactly when it is stored and passes all three checks. */
  lemma VisibleMembers(ts: seq<Transaction>, term: string, kind: TypeFilter, month: MonthFilter, t: Transaction)
    ensures t in Visible(ts, term, kind, month)
      <==> t in ts && MatchesSearch(t, term) && MatchesType(t, kind) && InMonth(t, month)
  {
  }

  /** The shown list keeps the store's order. */
  lemma VisibleIsSubsequence(ts: seq<Transaction>, term: string, kind: TypeFilter, month: MonthFilter)
    ensures IsSubsequence(Visible(ts, term, kind, month), ts)
  {
    SelectIsSubsequence(ts, MatchesOf(term, kind, month));
  }

  /** With an empty search, type `all` and month `all`, every record is shown, in order. */
  lemma UnfilteredShowsAll(ts: seq<Transaction>)
    ensures Visible(ts, "", AllTypes, AllMonths) == ts
  {
    forall t | t in ts
      ensures MatchesOf("", AllTypes, AllMonths)(t)
    {
      ContainsEmpty(Lower(t.description));
    }
    SelectAll(ts, MatchesOf("", AllTypes, AllMonths));
  }

  /** Without a search term or a type, the shown list is the month-scoped subset
      the aggregates use. */
  lemma UnsearchedViewIsMonthScope(ts: seq<Transaction>, month: MonthFilter)
    ensures Visible(ts, "", AllTypes, month) == MonthScoped(ts, month)
  {
    forall t | t in ts
      ensures MatchesOf("", AllTypes, month)(t) == InMonthOf(month)(t)
    {
      ContainsEmpty(Lower(t.description));
    }
    SelectExtensional(ts, MatchesOf("", AllTypes, month), InMonthOf(month));
  }

  /** The month-scoped subset holds exactly the stored records of the selected
      month, in the store's order. */
  lemma MonthScopedMembers(ts: seq<Transaction>, filter: MonthFilter, t: Transaction)
    ensures t in MonthScoped(ts, filter) <==> t in ts && InMonth(t, filter)
    ensures IsSubsequence(MonthScoped(ts, filter), ts)
  {
    SelectIsSubsequence(ts, InMonthOf(filter));
  }

  /** Month `all` scopes nothing out. */
  lemma AllMonthsScopesNothing(ts: seq<Transaction>)
    ensures MonthScoped(ts, AllMonths) == ts
  {
    SelectAll(ts, InMonthOf(AllMonths));
  }

  /**
   * The month scoping the totals, the quick stats and the export start with:
   * with month `all` the records stay as they are, otherwise they are
   * filtered to the selected month.
   */
  method ScopeToMonth(ts: seq<Transaction>, filter: MonthFilter) returns (scoped: seq<Transaction>)
    ensures scoped == MonthScoped(ts, filter)
    ensures filter.AllMonths? ==> scoped == ts
  {
    scoped := ts;
    if filter.OnlyMonth? {
      scoped := MonthScoped(ts, filter);
    } else {
      AllMonthsScopesNothing(ts);
    }
  }

  /**
   * The search ignores the case of ASCII letters: two search terms that differ
   * only in case find the same records, and so do two records whose
   * descriptions and categories differ only in case.
   */
  lemma SearchIgnoresCase(t: Transaction, u: Transaction, a: string, b: string)
    requires SameUpToCase(t.description, u.description) && SameUpToCase(t.category, u.category)
    requires SameUpToCase(a, b)
    ensures MatchesSearch(t, a) <==> MatchesSearch(u, b)
  {
    LowerCanonical(t.description, u.description);
    LowerCanonical(t.category, u.category);
    LowerCanonical(a, b);
  }

  /** A zero amount passes neither the income nor the expense filter. */
  lemma ZeroAmountHasNoType(t: Transaction)
    requires t.amount == 0
    ensures !MatchesType(t, IncomeOnly) && !MatchesType(t, ExpenseOnly) && MatchesType(t, AllTypes)
  {
  }

  /** Filtering by the key of a month selects exactly the records of that year and month. */
  lemma InMonthByKey(t: Transaction, year: nat, month: nat)
    ensures InMonth(t, OnlyMonth(MonthKey(year, month))) <==> t.date.year == year && t.date.month == month
  {
    MonthKeyInjective(t.date.year, t.date.month, year, month);
  }
}
