/**
 * The transaction store: the ledger's one piece of mutable state, together
 * with the month filter and the id of the record open for editing. Records
 * are kept newest first.
 */
module Store {
  import opened Wrappers
  import opened Text
  import opened Calendar
  import opened Seqs
  import opened Ledger
  import opened MonthSelector

  function Ids(ts: seq<Transaction>): set<int> {
    set t | t in ts :: t.id
  }

  predicate UniqueIds(ts: seq<Transaction>) {
    forall i, j :: 0 <= i < j < |ts| ==> ts[i].id != ts[j].id
  }

  /** What add and edit guarantee of every stored record: a valid date and a
      trimmed, non-empty description. */
  predicate WellFormed(t: Transaction) {
    ValidDate(t.date) && IsTrimmed(t.description)
  }

  predicate WellFormedStore(ts: seq<Transaction>) {
    UniqueIds(ts) && forall t :: t in ts ==> WellFormed(t)
  }

  function IdIsNot(id: int): Transaction -> bool {
    (t: Transaction) => t.id != id
  }

  /** `transactions.filter(t => t.id !== id)`. */
  function WithoutId(ts: seq<Transaction>, id: int): seq<Transaction> {
    Select(ts, IdIsNot(id))
  }

  /** `transactions.find(t => t.id === id)`: the first record with that id. */
  function Lookup(ts: seq<Transaction>, id: int): (r: Option<Transaction>)
    ensures r.None? <==> id !in Ids(ts)
    ensures r.Some? ==> r.value in ts && r.value.id == id
    ensures r.Some? ==> exists i :: 0 <= i < |ts| && ts[i] == r.value && forall j :: 0 <= j < i ==> ts[j].id != id
  {
    if ts == [] then None
    else if ts[0].id == id then Some(ts[0])
    else
      var r := Lookup(ts[1..], id);
      assert forall t :: t in ts ==> t == ts[0] || t in ts[1..];
      if r.Some? then
        assert exists i :: 0 <= i < |ts| && ts[i] == r.value && forall j :: 0 <= j < i ==> ts[j].id != id by {
          var i :| 0 <= i < |ts[1..]| && ts[1..][i] == r.value && forall j :: 0 <= j < i ==> ts[1..][j].id != id;
          assert ts[i + 1] == r.value;
          assert forall j :: 0 <= j < i + 1 ==> ts[j].id != id by {
            forall j | 0 <= j < i + 1 ensures ts[j].id != id {
              if j > 0 { assert ts[j] == ts[1..][j - 1]; }
            }
          }
        }
        r
      else r
  }

  /**
   * The sign rule of an edit: the editing form shows a magnitude, so a positive
   * value entered for an expense is stored negated. Nothing guards the other
   * direction, so an income edited to a negative value becomes an expense.
   */
  function EditedAmount(original: int, entered: int): (r: int)
    ensures original < 0 ==> r == -Abs(entered)
    ensures original >= 0 ==> r == entered
  {
    if original < 0 && entered > 0 then -entered else entered
  }

  /** The record with id `id` gets new description, amount, category and date;
      its id and position stay, and every other record is kept as it is. */
  function ReplaceById(ts: seq<Transaction>, id: int, description: string, amount: int, category: string, date: Date): (r: seq<Transaction>)
    ensures |r| == |ts|
  {
    seq(|ts|, i requires 0 <= i < |ts| =>
      if ts[i].id == id then Transaction(ts[i].id, description, amount, category, date) else ts[i])
  }

  /** The result of saving the edit form. */
  datatype EditOutcome =
    | Updated
    | MissingField    // description, amount or date left empty
    | UnknownRecord   // no record has the editing id (the source throws here)
    | InvalidAmount   // the amount is not a number

  class Tracker {
    var transactions: seq<Transaction>
    var monthFilter: MonthFilter
    var editingId: Option<int>

    ghost predicate Valid()
      reads this
    {
      WellFormedStore(transactions)
    }

    /** Starts from the records the persistence layer loaded. */
    constructor (loaded: seq<Transaction>)
      requires WellFormedStore(loaded)
      ensures Valid()
      ensures transactions == loaded && monthFilter == AllMonths && editingId == None
    {
      transactions := loaded;
      monthFilter := AllMonths;
      editingId := None;
    }

    /** Rebuilds the month select and drops a month filter whose key is gone. */
    method RefreshMonthFilter()
      modifies this`monthFilter
      ensures monthFilter == RefreshedFilter(old(monthFilter), transactions)
    {
      var keys := MonthOptions(transactions);
      if monthFilter.OnlyMonth? && monthFilter.key !in keys {
        monthFilter := AllMonths;
      }
    }

    /** The user picks a month (or `all`) in the month select. */
    method SelectMonth(choice: MonthFilter)
      modifies this`monthFilter
      ensures monthFilter == choice
    {
      monthFilter := choice;
    }

    /**
     * Adds a record at the head. The description is trimmed; an empty one or an
     * amount that is not a number is rejected and nothing changes. `id` is the
     * fresh id the clock supplies and `today` the current date.
     */
    method Add(description: string, amount: AmountField, category: string, id: int, today: Date) returns (added: bool)
      requires Valid()
      requires ValidDate(today)
      requires id !in Ids(transactions)
      modifies this
      ensures Valid()
      ensures added <==> Trim(description) != [] && amount.Parsed?
      ensures added ==> transactions == [Transaction(id, Trim(description), amount.value, category, today)] + old(transactions)
      ensures added ==> monthFilter == RefreshedFilter(old(monthFilter), transactions)
      ensures !added ==> transactions == old(transactions) && monthFilter == old(monthFilter)
      ensures editingId == old(editingId)
    {
      var trimmed := Trim(description);
      if trimmed == [] || !amount.Parsed? {
        return false;
      }
      var t := Transaction(id, trimmed, amount.value, category, today);
      Prepend(t);
      added := true;
    }

    /** Puts a new record at the head and rebuilds the month select. */
    method Prepend(t: Transaction)
      requires Valid()
      requires WellFormed(t) && t.id !in Ids(transactions)
      modifies this`transactions, this`monthFilter
      ensures Valid()
      ensures transactions == [t] + old(transactions)
      ensures monthFilter == RefreshedFilter(old(monthFilter), transactions)
    {
      PrependKeepsWellFormed(t, transactions);
      transactions := [t] + transactions;
      RefreshMonthFilter();
    }

    /** Removes every record with id `id`; the month select is not rebuilt. */
    method Delete(id: int)
      requires Valid()
      modifies this`transactions
      ensures Valid()
      ensures transactions == WithoutId(old(transactions), id)
    {
      WithoutIdKeepsWellFormed(transactions, id);
      transactions := WithoutId(transactions, id);
    }

    /** Opens the edit form for the record with id `id`, if there is one. */
    method OpenEdit(id: int) returns (found: bool)
      requires Valid()
      modifies this`editingId
      ensures found <==> id in Ids(transactions)
      ensures editingId == if found then Some(id) else old(editingId)
    {
      var t := Lookup(transactions, id);
      found := t.Some?;
      if found {
        editingId := Some(id);
      }
    }

    /**
     * Saves the edit form onto the record being edited. The checks run in the
     * source's order: an empty field, then a missing record, then an amount
     * that is not a number; each leaves everything as it was.
     */
    method SaveEdit(description: string, amount: AmountField, category: string, date: Option<Date>) returns (outcome: EditOutcome)
      requires Valid()
      requires date.Some? ==> ValidDate(date.value)
      modifies this
      ensures Valid()
      ensures outcome == MissingField <==> Trim(description) == [] || amount.Empty? || date.None?
      ensures outcome == UnknownRecord <==>
        !(Trim(description) == [] || amount.Empty? || date.None?)
        && (old(editingId).None? || old(editingId).value !in Ids(old(transactions)))
      ensures outcome == InvalidAmount <==>
        !(Trim(description) == [] || amount.Empty? || date.None?)
        && old(editingId).Some? && old(editingId).value in Ids(old(transactions))
        && amount.NotANumber?
      ensures outcome == Updated ==>
        && old(editingId).Some? && amount.Parsed? && date.Some?
        && var id := old(editingId).value;
           var original := Lookup(old(transactions), id).value;
           && transactions == ReplaceById(old(transactions), id, Trim(description),
                EditedAmount(original.amount, amount.value), category, date.value)
           && monthFilter == RefreshedFilter(old(monthFilter), transactions)
           && editingId == None
      ensures outcome != Updated ==> transactions == old(transactions) && monthFilter == old(monthFilter) && editingId == old(editingId)
    {
      var trimmed := Trim(description);
      if trimmed == [] || amount.Empty? || date.None? {
        return MissingField;
      }
      if editingId.None? {
        return UnknownRecord;
      }
      var id := editingId.value;
      var original := Lookup(transactions, id);
      if original.None? {
        assert id !in Ids(transactions);
        return UnknownRecord;
      }
      assert id in Ids(transactions);
      if amount.NotANumber? {
        return InvalidAmount;
      }
      var newAmount := EditedAmount(original.value.amount, amount.value);
      Commit(id, trimmed, newAmount, category, date.value);
      outcome := Updated;
    }

    /** Writes the edited fields onto record `id`, rebuilds the month select and closes the form. */
    method Commit(id: int, description: string, amount: int, category: string, date: Date)
      requires Valid()
      requires IsTrimmed(description) && ValidDate(date)
      modifies this
      ensures Valid()
      ensures transactions == ReplaceById(old(transactions), id, description, amount, category, date)
      ensures monthFilter == RefreshedFilter(old(monthFilter), transactions)
      ensures editingId == None
    {
      ReplaceKeepsWellFormed(transactions, id, description, amount, category, date);
      transactions := ReplaceById(transactions, id, description, amount, category, date);
      RefreshMonthFilter();
      editingId := None;
    }

    /** Clears the store; on an empty store it refuses and changes nothing. */
    method ClearAll() returns (cleared: bool)
      requires Valid()
      modifies this
      ensures Valid()
      ensures cleared <==> old(transactions) != []
      ensures cleared ==> transactions == [] && monthFilter == AllMonths
      ensures !cleared ==> transactions == old(transactions) && monthFilter == old(monthFilter)
      ensures editingId == old(editingId)
    {
      if transactions == [] {
        return false;
      }
      transactions := [];
      RefreshMonthFilter();
      cleared := true;
    }
  }

  lemma PrependKeepsWellFormed(t: Transaction, ts: seq<Transaction>)
    requires WellFormedStore(ts) && WellFormed(t) && t.id !in Ids(ts)
    ensures WellFormedStore([t] + ts)
  {
    var r := [t] + ts;
    forall i, j | 0 <= i < j < |r| ensures r[i].id != r[j].id {
      if i == 0 {
        assert r[j] in ts;
      } else {
        assert r[i] == ts[i - 1] && r[j] == ts[j - 1];
      }
    }
  }

  lemma {:induction false} WithoutIdKeepsWellFormed(ts: seq<Transaction>, id: int)
    requires WellFormedStore(ts)
    ensures WellFormedStore(WithoutId(ts, id))
  {
    if ts != [] {
      var init, last := ts[..|ts| - 1], ts[|ts| - 1];
      assert WellFormedStore(init) by {
        forall t | t in init ensures t in ts { }
      }
      WithoutIdKeepsWellFormed(init, id);
      var r := WithoutId(ts, id);
      if last.id != id {
        var rest := WithoutId(init, id);
        assert r == rest + [last];
        forall i | 0 <= i < |rest| ensures rest[i].id != last.id {
          assert rest[i] in init;
          var k :| 0 <= k < |init| && init[k] == rest[i];
          assert ts[k] == rest[i];
        }
      } else {
        assert r == WithoutId(init, id);
      }
    }
  }

  lemma ReplaceKeepsWellFormed(ts: seq<Transaction>, id: int, description: string, amount: int, category: string, date: Date)
    requires WellFormedStore(ts)
    requires ValidDate(date) && IsTrimmed(description)
    ensures WellFormedStore(ReplaceById(ts, id, description, amount, category, date))
  {
    var r := ReplaceById(ts, id, description, amount, category, date);
    assert forall i :: 0 <= i < |r| ==> r[i].id == ts[i].id;
    forall t | t in r ensures WellFormed(t) {
      var i :| 0 <= i < |r| && r[i] == t;
      assert ts[i] in ts;
    }
  }

  /** Delete keeps exactly the records whose id differs. */
  lemma DeleteRemovesExactly(ts: seq<Transaction>, id: int, t: Transaction)
    ensures t in WithoutId(ts, id) <==> t in ts && t.id != id
  {
  }

  /** Delete keeps the remaining records in their relative order. */
  lemma DeleteKeepsOrder(ts: seq<Transaction>, id: int)
    ensures IsSubsequence(WithoutId(ts, id), ts)
  {
    SelectIsSubsequence(ts, IdIsNot(id));
  }

  /** Deleting an id no record has changes nothing. */
  lemma {:induction false} DeleteAbsentIsNoop(ts: seq<Transaction>, id: int)
    requires id !in Ids(ts)
    ensures WithoutId(ts, id) == ts
  {
    forall t | t in ts ensures IdIsNot(id)(t) {
      assert t.id in Ids(ts);
    }
    SelectAll(ts, IdIsNot(id));
  }

  /** In a store with unique ids, deleting a present id removes exactly one record. */
  lemma {:induction false} DeletePresentRemovesOne(ts: seq<Transaction>, id: int)
    requires UniqueIds(ts) && id in Ids(ts)
    ensures |WithoutId(ts, id)| == |ts| - 1
  {
    var init, last := ts[..|ts| - 1], ts[|ts| - 1];
    assert UniqueIds(init);
    if last.id == id {
      assert id !in Ids(init) by {
        forall t | t in init ensures t.id != id {
          var k :| 0 <= k < |init| && init[k] == t;
          assert ts[k] == t;
        }
      }
      DeleteAbsentIsNoop(init, id);
    } else {
      var t :| t in ts && t.id == id;
      assert t in init by {
        var k :| 0 <= k < |ts| && ts[k] == t;
        assert k < |ts| - 1;
        assert init[k] == t;
      }
      DeletePresentRemovesOne(init, id);
    }
  }

  /** Deleting twice is deleting once: the second call finds nothing. */
  lemma DeleteIdempotent(ts: seq<Transaction>, id: int)
    ensures WithoutId(WithoutId(ts, id), id) == WithoutId(ts, id)
  {
    DeleteAbsentIsNoop(WithoutId(ts, id), id);
  }

  /** An edit touches only the record with the edited id: that record keeps its
      id and position and takes the new fields; every other record is unchanged. */
  lemma ReplaceChangesOnlyThatRecord(ts: seq<Transaction>, id: int, description: string, amount: int, category: string, date: Date, i: int)
    requires 0 <= i < |ts|
    ensures var r := ReplaceById(ts, id, description, amount, category, date);
      && r[i].id == ts[i].id
      && (ts[i].id == id ==> r[i].description == description && r[i].amount == amount
                             && r[i].category == category && r[i].date == date)
      && (ts[i].id != id ==> r[i] == ts[i])
  {
  }

  /** An edit keeps every record's id in its place, so the set of ids too. */
  lemma ReplaceKeepsIds(ts: seq<Transaction>, id: int, description: string, amount: int, category: string, date: Date)
    ensures var r := ReplaceById(ts, id, description, amount, category, date);
      |r| == |ts| && forall i :: 0 <= i < |ts| ==> r[i].id == ts[i].id
    ensures Ids(ReplaceById(ts, id, description, amount, category, date)) == Ids(ts)
  {
    var r := ReplaceById(ts, id, description, amount, category, date);
    forall x | x in Ids(ts) ensures x in Ids(r) {
      var k :| 0 <= k < |ts| && ts[k].id == x;
      assert r[k].id == x;
    }
    forall x | x in Ids(r) ensures x in Ids(ts) {
      var k :| 0 <= k < |r| && r[k].id == x;
      assert ts[k].id == x;
    }
  }
}
