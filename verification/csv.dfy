/**
 * The CSV export: a header row, then one row per month-scoped record with its
 * ISO date, its escaped description, its capitalised category, the magnitude
 * of its amount with two decimals and its type. A description that holds a
 * comma or a double quote is wrapped in double quotes with every inner quote
 * doubled, the escaping of section 2, items 6 and 7, of RFC 4180.
 */
module Csv {
  import opened Wrappers
  import opened Text
  import opened Calendar
  import opened Seqs
  import opened Ledger

  /** `parts.join(sep)`. */
  function Join(parts: seq<string>, sep: char): string {
    if parts == [] then ""
    else if |parts| == 1 then parts[0]
    else Join(parts[..|parts| - 1], sep) + [sep] + parts[|parts| - 1]
  }

  /** The column names, in column order. */
  const HeaderFields: seq<string> := ["Date", "Description", "Category", "Amount", "Type"]

  /** The header row: the column names joined with commas. */
  function Header(): string {
    Join(HeaderFields, ',')
  }

  /** The header row reads `Date,Description,Category,Amount,Type`. */
  lemma HeaderText()
    ensures Header() == "Date,Description,Category,Amount,Type"
  {
    var parts := HeaderFields;
    assert parts[..1] == ["Date"];
    assert parts[..2][..1] == ["Date"];
    assert parts[..3][..2] == parts[..2];
    assert parts[..4][..3] == parts[..3];
    assert parts[..4] == parts[..5][..4];
    assert Join(parts[..2], ',') == "Date,Description";
    assert Join(parts[..3], ',') == "Date,Description,Category";
    assert Join(parts[..4], ',') == "Date,Description,Category,Amount";
    assert parts[..5] == parts;
  }

  /** `s.replace(/"/g, '""')`: every double quote doubled. */
  function DoubleQuotes(s: string): (r: string)
    ensures |r| >= |s|
  {
    if s == [] then []
    else (if s[0] == '"' then "\"\"" else [s[0]]) + DoubleQuotes(s[1..])
  }

  /** Reads a doubled-quote text back: each pair of quotes becomes one. */
  function UndoubleQuotes(s: string): string {
    if s == [] then []
    else if |s| >= 2 && s[0] == '"' && s[1] == '"' then "\"" + UndoubleQuotes(s[2..])
    else [s[0]] + UndoubleQuotes(s[1..])
  }

  /** Every double quote in `s` is one of an adjacent pair. */
  predicate QuotesPaired(s: string) {
    if s == [] then true
    else if s[0] == '"' then |s| >= 2 && s[1] == '"' && QuotesPaired(s[2..])
    else QuotesPaired(s[1..])
  }

  /** Doubling the quotes can be undone. */
  lemma {:induction false} UndoubleDoubleQuotes(s: string)
    ensures UndoubleQuotes(DoubleQuotes(s)) == s
  {
    if s != [] {
      var rest := DoubleQuotes(s[1..]);
      UndoubleDoubleQuotes(s[1..]);
      if s[0] == '"' {
        assert DoubleQuotes(s) == "\"\"" + rest;
        assert (("\"\"" + rest)[2..]) == rest;
      } else {
        assert DoubleQuotes(s) == [s[0]] + rest;
        assert ([s[0]] + rest)[1..] == rest;
      }
    }
  }

  /** After doubling, no quote stands alone. */
  lemma {:induction false} DoubledQuotesArePaired(s: string)
    ensures QuotesPaired(DoubleQuotes(s))
  {
    if s != [] {
      var rest := DoubleQuotes(s[1..]);
      DoubledQuotesArePaired(s[1..]);
      if s[0] == '"' {
        assert ("\"\"" + rest)[2..] == rest;
      } else {
        assert ([s[0]] + rest)[1..] == rest;
      }
    }
  }

  /** Searching for a one-character string is asking whether the character occurs. */
  lemma ContainsChar(hay: string, c: char)
    ensures Contains(hay, [c]) <==> c in hay
  {
    if c in hay {
      var i :| 0 <= i < |hay| && hay[i] == c;
      assert OccursAt(hay, [c], i);
    }
    if Contains(hay, [c]) {
      var i :| 0 <= i <= |hay| - 1 && OccursAt(hay, [c], i);
      assert hay[i] == hay[i..i + 1][0];
    }
  }

  /** Whether a CSV field is wrapped in double quotes. */
  predicate IsQuoted(field: string) {
    |field| >= 2 && field[0] == '"' && field[|field| - 1] == '"'
  }

  /** The description column: quoted with doubled inner quotes when it holds `,` or `"`. */
  function EscapeDescription(d: string): string {
    if Contains(d, ",") || Contains(d, "\"") then "\"" + DoubleQuotes(d) + "\"" else d
  }

  /** How a CSV reader takes a field back: a quoted field loses its outer quotes
      and has its doubled quotes undone; any other field is taken as it is. */
  function UnescapeField(field: string): string {
    if IsQuoted(field) then UndoubleQuotes(field[1..|field| - 1]) else field
  }

  /**
   * A description is quoted exactly when it holds a comma or a double quote;
   * inside the quotes every quote is doubled; and the field reads back as the
   * description.
   */
  lemma EscapeDescriptionSound(d: string)
    ensures IsQuoted(EscapeDescription(d)) <==> ',' in d || '"' in d
    ensures IsQuoted(EscapeDescription(d)) ==> QuotesPaired(EscapeDescription(d)[1..|EscapeDescription(d)| - 1])
    ensures !IsQuoted(EscapeDescription(d)) ==> EscapeDescription(d) == d
    ensures UnescapeField(EscapeDescription(d)) == d
  {
    ContainsChar(d, ',');
    ContainsChar(d, '"');
    var e := EscapeDescription(d);
    if ',' in d || '"' in d {
      var inner := DoubleQuotes(d);
      assert e[1..|e| - 1] == inner;
      UndoubleDoubleQuotes(d);
      DoubledQuotesArePaired(d);
    } else if d != [] {
      assert d[0] != '"';
    }
  }

  /** `'Income'` for a positive amount, `'Expense'` otherwise. */
  function TypeLabel(amount: int): (r: string)
    ensures r == "Income" || r == "Expense"
  {
    if amount > 0 then "Income" else "Expense"
  }

  lemma TypeLabelIsIncomeIff(amount: int)
    ensures TypeLabel(amount) == "Income" <==> amount > 0
  {
    assert "Expense" != "Income" by {
      assert "Expense"[0] != "Income"[0];
    }
  }

  /** A non-negative amount in cents as decimal text with two fraction digits. */
  function Fixed2(cents: nat): string {
    NatToString(cents / 100) + "." + PadZeros(NatToString(cents % 100), 2)
  }

  /** Reads decimal text with a point back as cents. */
  function ParseFixed2(s: string): Option<nat> {
    var i := IndexOf(s, '.');
    if i < |s| && 0 < i && |s| - (i + 1) == 2 && AllDigits(s[..i]) && AllDigits(s[i + 1..]) then
      Some(ParseNat(s[..i]) * 100 + ParseNat(s[i + 1..]))
    else
      None
  }

  /** The amount column reads back as the amount it was written from. */
  lemma Fixed2RoundTrip(cents: nat)
    ensures ParseFixed2(Fixed2(cents)) == Some(cents)
  {
    var a, b := NatToString(cents / 100), PadZeros(NatToString(cents % 100), 2);
    Fixed2Digits(cents);
    ParseFixed2Of(a, b, cents);
    assert Fixed2(cents) == a + "." + b;
  }

  /** Both parts of the amount text are digits and read back as the parts of the amount. */
  lemma Fixed2Digits(cents: nat)
    ensures var a := NatToString(cents / 100);
      a != [] && AllDigits(a) && ParseNat(a) == cents / 100
    ensures var b := PadZeros(NatToString(cents % 100), 2);
      |b| == 2 && AllDigits(b) && ParseNat(b) == cents % 100
    ensures ParseNat(NatToString(cents / 100)) * 100 + ParseNat(PadZeros(NatToString(cents % 100), 2)) == cents
  {
    TwoDigits(cents % 100);
    ParseNatToString(cents / 100);
    PaddedRoundTrip(cents % 100, 2);
  }

  /** Digits, a point and two digits read as the whole part times 100 plus the fraction. */
  lemma ParseFixed2Of(a: string, b: string, cents: nat)
    requires a != [] && AllDigits(a) && AllDigits(b) && |b| == 2
    requires ParseNat(a) * 100 + ParseNat(b) == cents
    ensures ParseFixed2(a + "." + b) == Some(cents)
  {
    SplitAfterDigits(a, '.', b);
  }

  lemma TwoDigits(n: nat)
    requires n < 100
    ensures |NatToString(n)| <= 2
  {
    if n >= 10 {
      assert NatToString(n) == NatToString(n / 10) + [DigitChar(n % 10)];
    }
  }

  /** The five fields of the row of one record, in column order. */
  function RowFields(t: Transaction): (r: seq<string>)
    ensures |r| == 5
  {
    [IsoDate(t.date), EscapeDescription(t.description), Capitalize(t.category), Fixed2(Abs(t.amount)), TypeLabel(t.amount)]
  }

  /**
   * What each column of a record's row holds: its ISO date, a description
   * field that reads back as the description, its category up to case, the
   * magnitude of its amount and `Income` exactly for a positive amount.
   */
  lemma RowColumns(t: Transaction)
    ensures RowFields(t)[0] == IsoDate(t.date)
    ensures UnescapeField(RowFields(t)[1]) == t.description
    ensures Lower(RowFields(t)[2]) == Lower(t.category)
    ensures ParseFixed2(RowFields(t)[3]) == Some(Abs(t.amount))
    ensures RowFields(t)[4] == "Income" <==> t.amount > 0
  {
    EscapeDescriptionSound(t.description);
    Fixed2RoundTrip(Abs(t.amount));
    TypeLabelIsIncomeIff(t.amount);
  }

  /** The CSV row of one record. */
  function CsvRow(t: Transaction): string {
    Join(RowFields(t), ',')
  }

  /**
   * The rows of the export: nothing when the store is empty; otherwise the
   * header, then one row per month-scoped record in store order.
   */
  method ExportRows(ts: seq<Transaction>, filter: MonthFilter) returns (rows: Option<seq<string>>)
    ensures rows.None? <==> ts == []
    ensures rows.Some? ==>
      var scoped := MonthScoped(ts, filter);
      && |rows.value| == |scoped| + 1
      && rows.value[0] == Header()
      && forall k :: 0 <= k < |scoped| ==> rows.value[1 + k] == CsvRow(scoped[k])
  {
    if |ts| == 0 {
      return None;
    }
    var scoped := ScopeToMonth(ts, filter);
    var csvRows := AppendRows([Header()], scoped);
    rows := Some(csvRows);
  }

  /**
   * The `forEach` pass of the export: pushes the row of each record, in order,
   * after the rows already there.
   */
  method AppendRows(csvRows: seq<string>, scoped: seq<Transaction>) returns (rows: seq<string>)
    ensures |rows| == |csvRows| + |scoped|
    ensures forall k :: 0 <= k < |csvRows| ==> rows[k] == csvRows[k]
    ensures forall k :: 0 <= k < |scoped| ==> rows[|csvRows| + k] == CsvRow(scoped[k])
  {
    rows := csvRows;
    var i := 0;
    while i < |scoped|
      invariant i <= |scoped|
      invariant |rows| == |csvRows| + i
      invariant forall k :: 0 <= k < |csvRows| ==> rows[k] == csvRows[k]
      invariant forall k :: 0 <= k < i ==> rows[|csvRows| + k] == CsvRow(scoped[k])
    {
      rows := rows + [CsvRow(scoped[i])];
      i := i + 1;
    }
  }
}
