# Expense tracker ledger, modelled in Dafny

A model of the ledger engine of a browser expense tracker (`script.js`). The
ledger keeps an ordered list of transactions, newest first. Each transaction
has an id, a description, a signed amount (positive is income, negative is
expense, zero is neither), a category and a date. On top of that list the
model covers:

- the store operations: add at the head, delete by id, edit by id with the
  sign rule for expenses, clear all, open the edit form, pick a month;
- the list filter: search, type and month, all three required;
- the aggregates over the month-scoped subset: the summary cards, the
  income/expense comparison, and the quick stats (today, trailing week, top
  category, average per expense month);
- the expense chart in its two modes: days of one month, or months of the
  current year;
- the month select: its distinct keys, newest first, and the reset of a
  filter whose key has gone;
- the CSV export: its rows and the quoting of the description;
- the sign step of the currency formatter.

Amounts are integers in minor units (cents), so a constant of one currency
unit in the code, such as the floor of the all-months chart scale, is 100.
Percentages, bar heights and the monthly average are `real`. Dates are an abstract `Date(year, month, day)`.
A stored date is a calendar date with a four-digit year (`Calendar.ValidDate`).
Month keys are the real `YYYY-MM` strings, and reading one back with
`ParseMonthKey` is proved to give the year and month it was built from.

Files:

| file | contents |
|---|---|
| `wrappers.dfy` | `Option` |
| `text.dfy` | trim with the exact whitespace set, ASCII case mapping, substring search, decimal digits and zero padding |
| `calendar.dfy` | dates, days in a month, month keys and their parse |
| `seqs.dfy` | `filter` as `Select`, running sums, bucket histograms |
| `ledger.dfy` | the transaction record and the filter predicate |
| `month_selector.dfy` | the month select options and the filter reset |
| `store.dfy` | the `Tracker` class with the store operations |
| `summary.dfy` | summary totals and the comparison percentages |
| `quick_stats.dfy` | the quick-stats pass and the top category |
| `charts.dfy` | daily and monthly buckets, scaling, the empty state |
| `csv.dfy` | the CSV rows and the description escaping |
| `currency.dfy` | the sign step of the currency formatter |

The store is a class whose methods update its fields in place:
`transactions`, `monthFilter` and `editingId`. Its invariant `Valid()` says
that ids are unique and that every record has a calendar date and a trimmed,
non-empty description. The aggregation and chart loops are methods with loop
invariants. Each is proved against a specification function: `SumBy` for
running totals, `CategoryTotals` for the category dictionary, and `Histogram`
for the chart buckets. What the source promises is then proved about those
functions as lemmas.

## Model

| member | source | states |
|---|---|---|
| Store.Tracker.constructor | script.js:39-41 | the store starts from the loaded records, with month filter `all` and nothing being edited |
| Store.Tracker.SelectMonth | script.js:70-71 | picking a month in the select sets the active month filter to it |
| Store.Tracker.RefreshMonthFilter | script.js:621-633 | after the select is rebuilt, a month filter whose key no record has any more falls back to `all`; any other filter stays |
| Store.Tracker.Add | script.js:95-122 | rejected exactly when the trimmed description is empty or the amount is not a number, and then nothing changes; otherwise the new record (fresh id, trimmed description, today's date) becomes element 0 and the old store is exactly the tail; the month filter is refreshed; ids stay unique |
| Text.Trim | script.js:98 | the trimmed text is a contiguous part of the input with only whitespace before and after it; it has no whitespace at either end, and it is empty exactly when the input is whitespace only |
| Text.TrimIdempotent | script.js:98 | trimming a trimmed text changes nothing |
| Store.Tracker.Prepend | script.js:115-122 | the new record goes in front of the store, which is otherwise unchanged; ids stay unique and records well formed; the month select is rebuilt and the month filter refreshed |
| Store.PrependKeepsWellFormed | script.js:107-115 | adding a record with a fresh id, a valid date and a trimmed description keeps ids unique and every record well formed |
| Store.Tracker.Delete | script.js:316-320 | the store becomes the order-preserving filter of the records whose id differs; the month select is not rebuilt |
| Store.DeleteRemovesExactly | script.js:319 | a record survives delete exactly when it was stored and its id differs |
| Store.DeleteKeepsOrder | script.js:319 | the survivors are a subsequence of the store, in the same relative order |
| Store.DeleteAbsentIsNoop | script.js:318-319 | deleting an id no record has leaves the store unchanged |
| Store.DeletePresentRemovesOne | script.js:319 | with unique ids, deleting a present id removes exactly one record |
| Store.DeleteIdempotent | script.js:319 | deleting the same id twice is deleting it once |
| Store.WithoutIdKeepsWellFormed | script.js:319 | delete keeps ids unique and every record well formed |
| Store.Lookup | script.js:318 | `find` by id: nothing exactly when no record has the id, otherwise the first record with that id |
| Store.Tracker.OpenEdit | script.js:332-337 | the edit form opens (the editing id is set) exactly when a record has that id; otherwise nothing changes |
| Store.EditedAmount | script.js:362-367 | an edit of an expense stores minus the magnitude of the entered value; an edit of an income or zero record stores the entered value as is, so an income can become an expense |
| Store.Tracker.SaveEdit | script.js:349-392 | the checks run in the source's order: an empty description, amount or date; then no record with the editing id; then an amount that is not a number. Each failure changes nothing. On success only the edited record changes, by the sign rule; the month filter is refreshed and the editing id cleared |
| Store.Tracker.Commit | script.js:376-392 | the edited fields are written onto the record with the editing id and nothing else changes; the store stays well formed, the month filter is refreshed and the editing id is cleared |
| Store.ReplaceChangesOnlyThatRecord | script.js:376-381 | the edited record keeps its id and position and takes the new description, amount, category and date; every other record is unchanged |
| Store.ReplaceKeepsIds | script.js:376-381 | an edit keeps the length of the store and the id at every position, so also the set of ids |
| Store.ReplaceKeepsWellFormed | script.js:376-381 | an edit with a valid date and a trimmed description keeps the store well formed |
| Store.Tracker.ClearAll | script.js:398-412 | refuses on an empty store and changes nothing; otherwise leaves the store empty and the month filter `all` |
| Ledger.VisibleMembers | script.js:138-160 | a record is listed exactly when it is stored and passes the search, type and month checks |
| Ledger.MatchesSearch | script.js:134-141 | a record matches exactly when the lower-cased term occurs at some position of the lower-cased description or of the lower-cased category; an empty search matches every record, and a term longer than both fields matches none |
| Ledger.MatchesType | script.js:144-150 | `all` keeps every record, `income` exactly the records that add to total income, `expense` exactly those that add to total expense |
| Ledger.InMonth | script.js:151-156 | month `all` keeps every record; a month key keeps a record only when the key reads back as that record's year and month |
| Text.LowerCanonical | script.js:134-141 | lower-casing leaves the text the same up to case and leaves no upper-case letter, so doing it twice is doing it once; two texts lower-case alike exactly when they are the same up to case |
| Ledger.SearchIgnoresCase | script.js:134-141 | the search ignores case: changing the case of the term, of the description or of the category never changes whether a record matches |
| Ledger.VisibleIsSubsequence | script.js:138-160 | the listed records keep the store's order |
| Ledger.UnfilteredShowsAll | script.js:134-160 | with an empty search, type `all` and month `all`, the list is the whole store |
| Ledger.UnsearchedViewIsMonthScope | script.js:138-160 | without search and type, the list is exactly the month-scoped subset the aggregates use |
| Ledger.AllMonthsScopesNothing | script.js:214-222 | month `all` keeps every record |
| Ledger.MonthScopedMembers | script.js:214-222 | the month-scoped subset holds exactly the stored records of the selected month, in the store's order |
| Ledger.ScopeToMonth | script.js:647-655 | the month scoping that the totals, the quick stats and the export start from: month `all` keeps the records as they are, a month key filters them to that month, giving the month-scoped subset |
| Ledger.ZeroAmountHasNoType | script.js:145-150 | a zero amount passes neither the income nor the expense filter |
| Ledger.InMonthByKey | script.js:152-156 | the month filter with the key of a year and month keeps exactly the records of that year and month |
| Calendar.DaysInMonth | script.js:490 | days in a Gregorian month: 31 exactly for January, March, May, July, August, October and December; 30 exactly for April, June, September and November; 29 exactly for February of a leap year and 28 exactly for February of any other year |
| Calendar.JsDaysInMonth | script.js:490 | `new Date(y, m, 0).getDate()` for any year and month number is between 28 and 31 |
| Calendar.JsDaysInMonthIsGregorian | script.js:490 | for a four-digit year and a month 1 to 12, the day-0-of-next-month rule gives the Gregorian month length |
| Calendar.DayWithinJsMonth | script.js:490-507 | the day of every stored date is a day of its month as `new Date(y, m, 0)` counts it, so a daily bucket exists for it |
| Calendar.MonthKeyRoundTrip | script.js:594-607 | a month key, split at the dash and read as numbers, gives back its year and month |
| Calendar.KeyOf | script.js:152-155 | the month key of a date reads back as that date's year and month |
| Calendar.MonthKeyInjective | script.js:152-156 | two month keys are equal exactly when their years and months are |
| MonthSelector.ComparePeriods | script.js:605-611 | the comparator is negative exactly when the first period is the later one (a later year, or the same year and a later month), and zero exactly when the periods are equal |
| MonthSelector.InsertPeriod | script.js:605-611 | adding a year and month to a strictly newest-first list keeps it strictly newest first and adds exactly that period |
| MonthSelector.MonthOptions | script.js:590-611 | the options are every month key of the store, each once, ordered by year then month, newest first under the source's comparator |
| MonthSelector.RefreshedFilter | script.js:627-633 | a kept month filter names a key some record still has; `all` stays `all` |
| Summary.Summarize | script.js:210-232 | income sums the positive amounts and expense the magnitudes of the rest in the month-scoped subset; both are non-negative and balance = income - expense = the sum of the signed amounts |
| Summary.TotalUp | script.js:224-230 | the one pass over the month-scoped records ends with income = the sum of the positive amounts and expense = the sum of the magnitudes of the others |
| Summary.TotalsAreNonNegative | script.js:224-230 | total income and total expense are never negative |
| Summary.BalanceIsSignedSum | script.js:224-232 | income minus expense is the sum of the signed amounts |
| Summary.ComparisonPercents | script.js:447-454 | both shares are 0 when income + expense is not positive; otherwise they are the two proportions, sum to 100 and each lies in [0, 100] |
| Summary.ComparisonChart | script.js:424-454 | the comparison bars are the shares of the month-scoped income and expense totals |
| QuickStats.ScanExpenses | script.js:262-293 | the pass yields today's expense, the week's expense, the total expense, the category totals in first-appearance order, and the number of distinct expense months |
| QuickStats.RecordExpense | script.js:263-291 | one run of the callback is one step of the pass: an income or zero record changes nothing; an expense adds its magnitude to today, to the week when on or after its start, to the total, to its category and to its month, counting the month when it is new |
| QuickStats.ScanOfMeaning | script.js:262-293 | after the whole pass, today, week and total are the expense sums over the records, the category list tracks the category totals, the monthly dictionary has exactly the months that have an expense, and the month count is their number |
| QuickStats.MonthKeysStep | script.js:285-289 | an expense adds its month to the months seen, and the count grows exactly when that month was not there yet; another record leaves them alone |
| QuickStats.CategoryStep | script.js:279-283 | one expense adds its magnitude to its category's entry, appending the category when it is new, and the entries still track the category totals |
| QuickStats.IncomeLeavesCategories | script.js:263 | a record that is not an expense leaves the category totals as they were |
| QuickStats.ExpenseCategoriesSound | script.js:279-283 | a category is listed exactly when some expense record has it, and each is listed once |
| QuickStats.ListedWhenSpent | script.js:279-283 | the category of every expense is listed |
| QuickStats.ExpenseCategoryHasPositiveTotal | script.js:279-283 | every listed category has a positive total |
| QuickStats.TopCategory | script.js:296-303 | none exactly when no category total exceeds 0; otherwise the chosen entry is positive, at least every other total, and strictly above every earlier one (ties go to the first) |
| QuickStats.TopIsUnique | script.js:296-303 | at most one entry meets that description |
| QuickStats.NoTopIffNoExpense | script.js:296-303 | there is no top category (the stat stays `-`) exactly when the month-scoped subset has no expense |
| QuickStats.TopLabel | script.js:296-303 | the top-category text is `-` when there is no top category; otherwise it has the category's length and lower-cases to the same text, with its first letter not lower-case and the rest as stored |
| QuickStats.ComputeQuickStats | script.js:240-312 | today's and the week's expense are the sums over the month-scoped subset; the top category is absent exactly when no total is positive, and otherwise it is the top entry; the shown text is that category's label (`-` when absent); the average is total expense over distinct expense months, or 0 |
| QuickStats.TodayWithinWeekWithinTotal | script.js:268-291 | when today falls inside the week, today's expense <= the week's expense <= the total expense |
| QuickStats.AverageBounds | script.js:306 | the average lies between 0 and the total, and times the number of months it gives the total back |
| Charts.DailyTotals | script.js:491-507 | the daily buckets of the selected month, filled in one pass: bucket d holds the expense of day d + 1, and every expense of that month lands in a bucket |
| Charts.DailyBucketIsDayExpense | script.js:494-507 | daily bucket d - 1 is the expense of day d |
| Charts.DailyBucketsCoverMonth | script.js:489-507 | the daily buckets sum to the expense of that year and month |
| Charts.DailyBucketsZeroIff | script.js:509-517 | every daily bucket is 0 exactly when the month has no expense |
| Charts.MonthlyTotals | script.js:472-483 | the twelve buckets of the current year, filled in one pass: bucket k holds the expense of month k + 1 |
| Charts.MonthlyBucketIsMonthExpense | script.js:538-559 | monthly bucket k is the expense of month k + 1 of the current year |
| Charts.MonthlyBucketsCoverYear | script.js:538-559 | the monthly buckets sum to the expense of the current year |
| Charts.MonthlyBucketsZeroIff | script.js:538-559 | every monthly bucket is 0 exactly when the current year has no expense |
| Charts.MaxOf | script.js:511 | the largest bucket is one of the buckets and at least each of them |
| Charts.ZeroMaxIffAllZero | script.js:511-517 | the largest of non-negative buckets is 0 exactly when all are |
| Charts.HeightBounds | script.js:522 | a bar's height lies in [0, 100], a bar at the maximum is full height, and a larger total never gets a lower bar |
| Charts.ScaledBars | script.js:520-532 | one bar per bucket, carrying that bucket's label and total, with height that total in percent of the given maximum (0 when the maximum is not positive) |
| Charts.ScaledBarsToPeak | script.js:511-522 | bars scaled against the larger of their largest total and a floor have every height equal to its total in percent of the largest bar's total, or of the floor when that is larger |
| Charts.PeakHeights | script.js:522 | bars scaled to their peak (with a non-negative floor) with non-negative totals have heights in [0, 100], the bar with the largest positive total is at 100 when that total reaches the floor, and a larger total never gets a lower bar |
| Charts.DailyChart | script.js:509-532 | no buckets render no bars; otherwise the chart is the empty state exactly when the largest bucket is 0, and its bars are the buckets scaled against their maximum, labelled 1 to the number of days |
| Charts.DayLabelsReadBack | script.js:493-529 | the labels of the daily chart are digit strings that read back as 1 up to the number of days, one per day, in ascending order as the numeric sort of the day keys leaves them |
| Charts.DailyExpenseChart | script.js:487-535 | the chart of one month: the empty state exactly when that month has no expense; otherwise one bar per day of the month, labelled with the day, holding that day's expense, with heights scaled against the largest day: each in [0, 100], the largest day at 100 |
| Charts.DailyChartEmptyIff | script.js:509-517 | the daily chart of a month shows the empty state exactly when that month has no expense |
| Charts.DailyChartBars | script.js:493-529 | the bars of the daily chart are the days of the month, each labelled with its day and holding that day's expense |
| Charts.DailyChartScaled | script.js:511-522 | the bars of the daily chart are scaled against the largest day, with no floor: heights in [0, 100], the largest day at 100 |
| Charts.YearExpenseChart | script.js:537-585 | corrected chart of the current year (see Findings): the empty state exactly when the year has no expense; otherwise twelve bars Jan..Dec, each holding its month's expense, with heights in percent of the larger of the largest month and one currency unit (100 cents), all in [0, 100], the largest month at 100 when it is at least one unit; these are exactly the bars the code draws |
| Charts.AllMonthsChartAsWritten | script.js:556-584 | the all-months chart as the code computes it: always 12 bars, Jan..Dec, each with its month's total and height that total in percent of the larger of the largest total and one currency unit (100 cents) |
| Charts.YearChartAsWritten | script.js:537-584 | the code's all-months chart of the records always draws twelve bars Jan..Dec, each with its month's expense; in a year without expense all heights are 0 and the empty state is never shown |
| Charts.AllMonthsAsWrittenFlat | script.js:562-568 | with every month bucket 0, the code's all-months chart still draws its twelve bars, all of height 0 (0 in percent of one currency unit) |
| Charts.AllMonthsChart | script.js:556-584 | corrected all-months chart: the empty state exactly when the largest month total is 0; otherwise exactly the code's chart, with its one-unit floor |
| Charts.AllMonthsChartEmptyIff | script.js:556-584 | with non-negative buckets, the corrected all-months chart is empty exactly when every bucket is 0; otherwise its 12 bars are scaled against the larger of the largest month and one currency unit, heights in [0, 100], the largest month at 100 when it is at least one unit |
| Charts.MonthlyExpenseChart | script.js:468-585 | month `all` (corrected, see Findings): the empty state exactly when the current year has no expense, otherwise 12 bars Jan..Dec, each with its month's expense, scaled against the larger of the largest month and one currency unit (100 cents), and equal to the bars the code draws. One month: the empty state exactly when that month has no expense, otherwise one bar per day 1..daysInMonth, each with its day's expense, scaled against the largest day with no floor. In both modes heights lie in [0, 100] and a largest bar that reaches the floor is at 100. A key that does not read as year and month renders no bars |
| Csv.HeaderText | script.js:644-645 | the header row is `Date,Description,Category,Amount,Type` |
| Csv.EscapeDescriptionSound | script.js:664-666 | the description is quoted exactly when it holds a comma or a double quote; inside the quotes every quote is doubled; otherwise it is emitted as it is; and the field reads back as the description |
| Csv.UndoubleDoubleQuotes | script.js:665 | doubling the quotes can be undone |
| Csv.DoubledQuotesArePaired | script.js:665 | after doubling, every quote is one of a pair |
| Csv.ContainsChar | script.js:664 | `includes` of a one-character string is membership of that character |
| Csv.TypeLabel | script.js:658 | the type column is one of `Income` and `Expense` |
| Csv.TypeLabelIsIncomeIff | script.js:658 | the type column is `Income` exactly when the amount is positive, `Expense` otherwise |
| Csv.Fixed2RoundTrip | script.js:660 | the amount column, read back as decimal text with two fraction digits, is the amount's magnitude in cents |
| Csv.RowColumns | script.js:657-674 | the columns of a record's row, in header order: its ISO date; a description field that reads back as the description; its category, equal up to case; its amount's magnitude, read back from the two-decimal text; `Income` exactly when the amount is positive |
| Text.Capitalize | script.js:661 | the category column upper-cases the first character only: the first character is not a lower-case letter, the rest is unchanged, and the text is the same up to case |
| Csv.ExportRows | script.js:637-675 | nothing is exported from an empty store; otherwise the header row and then one row per month-scoped record, in store order |
| Csv.AppendRows | script.js:656-674 | one CSV row is pushed per record, in order, after the rows already there, which stay as they were |
| Currency.SignShowsNegative | script.js:703-713 | the formatted text starts with a minus sign exactly when the amount is negative, and dropping that sign gives the formatted magnitude |
| Currency.NegationOnlyFlipsSign | script.js:712 | an amount and its negation format alike up to the leading minus sign |

## Left out

- DOM rendering, modals, event wiring, `alert`/`confirm`, notifications and their timers are not modelled. Confirmations are taken as given.
- Persistence is not modelled: no `localStorage` and no JSON load or save. `Store.Tracker.constructor` takes the loaded records as a parameter and requires them to be well formed. The source trusts whatever it loads.
- Clock and ids are parameters: `Date.now()` becomes the `id` argument of `Add`, which must be fresh. The current date is `today`, the trailing-week threshold `weekStart`, and the current year `currentYear`.
- QuickStats.ComputeQuickStats: the trailing week is a date threshold (`weekStart`), not the sliding 7 × 24-hour instant of the source.
- Timezone effects are not modelled. The source parses `YYYY-MM-DD` as UTC and reads it back with local-time getters, which near midnight can move a record to the previous day. The model reads dates as written.
- Amounts are integers in minor units. `parseFloat` becomes `AmountField` (empty, not a number, or a value). Floating-point rounding, `Infinity` and `-0` are not modelled.
- Store.Tracker.SaveEdit: when no record has the editing id the source throws a `TypeError` before changing anything. The model returns `UnknownRecord` with no change. The date field is taken as a calendar date (`requires ValidDate`), which a date input supplies.
- `Intl.NumberFormat` grouping and fraction digits are not modelled, nor `toLocaleDateString` month names or the Today/Yesterday display of `formatDate`. `Currency.FormatCurrency` takes the formatted magnitude as a parameter and models only the sign step.
- Csv.Fixed2RoundTrip: `toFixed(2)` is modelled as exact decimal text of a cent amount, with no binary floating-point rounding.
- The CSV join of all rows with line breaks, the file name and the download are not modelled. The code does not quote a description that holds a line break, and neither does the model.
- Text.Lower and Text.Capitalize map ASCII letters only; other Unicode case mappings are not modelled.
- Category totals keep insertion order. This is the iteration order of an object for keys that are not array indices. A category named like an integer would be visited first by the source; that case is not modelled.
- Category names that are also names on `Object.prototype` (`constructor`, `toString`, `__proto__`, ...) are not modelled. For them the `!categoryTotals[c]` test at script.js:280-283 finds the inherited member, so the total is never set to 0: `+=` then concatenates text onto a function, or a `__proto__` total is not stored at all. The model treats every category as a plain key.
- MonthSelector.RefreshedFilter: the select's option labels (`month|name` strings) are not modelled, only the keys.
- Calendar.ParseMonthKey reads only keys shaped digits-dash-digits. `Number` would also accept surrounding whitespace, an empty part or a third part. Month keys come only from the select, which always builds well-formed keys.
- Charts.YearExpenseChart: deliberately differs from the code in one case: in a year without expense it shows the empty state, where the code draws twelve zero-height bars (see Findings). Whenever it draws bars, they equal the code's bars (`AllMonthsChartAsWritten`), including the one-unit floor of the scale.
- Charts.MonthlyExpenseChart: with month `all` it uses the corrected all-months chart, as `Charts.YearExpenseChart` does; the daily mode follows the code.
- Charts.MonthlyTotals: expenses of other years, which the source adds to its dictionary and then drops (`filter` on the year), are not kept at all. The bars are the same.
- Charts.DailyTotals: the source adds each day into its dictionary without a range check. The model requires stored dates to be calendar dates, so every matched day is in range; the proof shows this.
- Years are restricted to 1000..9999. This keeps `String(year)` at four digits and keeps the two-digit-year rule of `new Date(y, m, 0)` out of stored dates. That rule is modelled in `Calendar.JsDaysInMonth` for parsed keys.

## Findings

| source | as written | input that shows it | evidently intended | confidence | as-written member | corrected member |
|---|---|---|---|---|---|---|
| script.js:562-568 | the all-months maximum is `Math.max(...totals, 1)` over amounts in currency units, so it is at least one unit (100 cents in the model) and the `maxExpense === 0` empty-state branch can never run | a store with no expense in the current year: the chart draws 12 zero-height bars instead of the empty state | the empty state when every month bucket is 0, as in the daily mode | not executed | Charts.YearChartAsWritten | Charts.AllMonthsChartEmptyIff |
