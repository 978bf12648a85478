/**
 * The month select: the distinct month keys of the store, newest first, and
 * the reset of the active month filter when its key is no longer offered.
 */
module MonthSelector {
  import opened Wrappers
  import opened Text
  import opened Calendar
  import opened Ledger

  /** The month keys of all stored records. */
  function KeySet(ts: seq<Transaction>): set<string> {
    set t | t in ts :: KeyOf(t.date)
  }

  /** The sort comparator on two parsed keys: negative when `a` is the later period, which goes first. */
  function ComparePeriods(a: (nat, nat), b: (nat, nat)): (r: int)
    ensures r < 0 <==> a.0 > b.0 || (a.0 == b.0 && a.1 > b.1)
    ensures r == 0 <==> a == b
  {
    if a.0 != b.0 then b.0 - a.0 else b.1 - a.1
  }

  /** The sort comparator on two month keys, reading each back as year and month. */
  function CompareKeys(a: string, b: string): int
    requires ParseMonthKey(a).Some? && ParseMonthKey(b).Some?
  {
    ComparePeriods(ParseMonthKey(a).value, ParseMonthKey(b).value)
  }

  /** Every key reads back as a year and month, and the comparator puts each
      key strictly before all keys after it. */
  predicate NewestKeysFirst(keys: seq<string>) {
    forall i, j :: 0 <= i < j < |keys| ==>
      ParseMonthKey(keys[i]).Some? && ParseMonthKey(keys[j]).Some? && CompareKeys(keys[i], keys[j]) < 0
  }

  /** Strictly newest first: every period is later than all after it. */
  predicate NewestFirst(ps: seq<(nat, nat)>) {
    forall i, j :: 0 <= i < j < |ps| ==> ComparePeriods(ps[i], ps[j]) < 0
  }

  /** Adds one (year, month) to a newest-first list, unless it is there already. */
  function InsertPeriod(ps: seq<(nat, nat)>, p: (nat, nat)): (r: seq<(nat, nat)>)
    requires NewestFirst(ps)
    ensures NewestFirst(r)
    ensures forall q :: q in r <==> q in ps || q == p
  {
    if ps == [] then [p]
    else if ps[0] == p then ps
    else if ComparePeriods(p, ps[0]) < 0 then [p] + ps
    else
      var rest := InsertPeriod(ps[1..], p);
      assert forall q :: q in rest ==> ComparePeriods(ps[0], q) < 0 by {
        forall q | q in rest ensures ComparePeriods(ps[0], q) < 0 {
          if q != p {
            var j :| 0 <= j < |ps[1..]| && ps[1..][j] == q;
            assert ps[j + 1] == q;
          }
        }
      }
      [ps[0]] + rest
  }

  function PeriodOf(t: Transaction): (nat, nat) {
    (t.date.year, t.date.month)
  }

  /** The (year, month) pairs of all stored records. */
  function PeriodSet(ts: seq<Transaction>): set<(nat, nat)> {
    set t | t in ts :: PeriodOf(t)
  }

  lemma PeriodSetSnoc(ts: seq<Transaction>, t: Transaction)
    ensures PeriodSet(ts + [t]) == PeriodSet(ts) + {PeriodOf(t)}
  {
    assert forall u :: u in ts + [t] <==> u in ts || u == t;
  }

  /**
   * The option values of the month select: every month key of the store once,
   * ordered by year and then month, newest first.
   */
  method MonthOptions(ts: seq<Transaction>) returns (keys: seq<string>)
    ensures forall k :: k in keys <==> k in KeySet(ts)
    ensures NewestKeysFirst(keys)
    ensures forall i, j :: 0 <= i < j < |keys| ==> keys[i] != keys[j]
  {
    var periods: seq<(nat, nat)> := [];
    var n := 0;
    while n < |ts|
      invariant n <= |ts|
      invariant NewestFirst(periods)
      invariant forall p :: p in periods <==> p in PeriodSet(ts[..n])
    {
      periods := InsertPeriod(periods, PeriodOf(ts[n]));
      assert ts[..n + 1] == ts[..n] + [ts[n]];
      PeriodSetSnoc(ts[..n], ts[n]);
      n := n + 1;
    }
    assert ts[..n] == ts;
    keys := seq(|periods|, i requires 0 <= i < |periods| => MonthKey(periods[i].0, periods[i].1));
    KeysOfPeriods(ts, periods, keys);
  }

  lemma KeysOfPeriods(ts: seq<Transaction>, periods: seq<(nat, nat)>, keys: seq<string>)
    requires NewestFirst(periods)
    requires forall p :: p in periods <==> p in PeriodSet(ts)
    requires |keys| == |periods|
    requires forall i :: 0 <= i < |keys| ==> keys[i] == MonthKey(periods[i].0, periods[i].1)
    ensures forall k :: k in keys <==> k in KeySet(ts)
    ensures NewestKeysFirst(keys)
    ensures forall i, j :: 0 <= i < j < |keys| ==> keys[i] != keys[j]
  {
    forall i | 0 <= i < |periods|
      ensures ParseMonthKey(keys[i]) == Some(periods[i])
    {
      MonthKeyRoundTrip(periods[i].0, periods[i].1);
    }
    forall k | k in KeySet(ts)
      ensures k in keys
    {
      var t :| t in ts && k == KeyOf(t.date);
      assert PeriodOf(t) in PeriodSet(ts);
      var i :| 0 <= i < |periods| && periods[i] == PeriodOf(t);
      assert keys[i] == k;
    }
    forall k | k in keys
      ensures k in KeySet(ts)
    {
      var i :| 0 <= i < |keys| && keys[i] == k;
      assert periods[i] in PeriodSet(ts);
      var t :| t in ts && PeriodOf(t) == periods[i];
      assert KeyOf(t.date) == k;
    }
  }

  /** The filter after the select is rebuilt: a key that is no longer offered falls back to `all`. */
  function RefreshedFilter(filter: MonthFilter, ts: seq<Transaction>): (r: MonthFilter)
    ensures r.OnlyMonth? ==> r == filter && r.key in KeySet(ts)
    ensures filter.AllMonths? ==> r == AllMonths
    ensures filter.OnlyMonth? && filter.key in KeySet(ts) ==> r == filter
  {
    if filter.OnlyMonth? && filter.key !in KeySet(ts) then AllMonths else filter
  }
}
