/**
 * Sequence operations that the ledger's JavaScript gets from `Array.prototype`:
 * `filter` (as Select) and the running sums its `forEach` loops accumulate.
 * Both are defined from the last element backwards, the way a left-to-right
 * loop extends its prefix.
 */
module Seqs {

  /** `s.filter(p)`: the elements satisfying `p`, in their original order. */
  function Select<T(==,!new)>(s: seq<T>, p: T -> bool): (r: seq<T>)
    ensures |r| <= |s|
    ensures forall x :: x in r <==> x in s && p(x)
  {
    if s == [] then []
    else Select(s[..|s| - 1], p) + (if p(s[|s| - 1]) then [s[|s| - 1]] else [])
  }

  /** `a` is `b` with some elements left out and the rest kept in order. */
  predicate IsSubsequence<T(==)>(a: seq<T>, b: seq<T>) {
    if a == [] then true
    else if b == [] then false
    else if a[|a| - 1] == b[|b| - 1] then IsSubsequence(a[..|a| - 1], b[..|b| - 1])
    else IsSubsequence(a, b[..|b| - 1])
  }

  lemma {:induction false} SelectIsSubsequence<T(!new)>(s: seq<T>, p: T -> bool)
    ensures IsSubsequence(Select(s, p), s)
  {
    if s != [] {
      var init, last := s[..|s| - 1], s[|s| - 1];
      SelectIsSubsequence(init, p);
      if p(last) {
        var r := Select(s, p);
        assert r[..|r| - 1] == Select(init, p);
      } else {
        SubsequenceExtend(Select(init, p), init, last);
        assert init + [last] == s;
        assert Select(s, p) == Select(init, p);
      }
    }
  }

  /** A subsequence of `b` is a subsequence of `b` with one more element. */
  lemma {:induction false} SubsequenceExtend<T>(a: seq<T>, b: seq<T>, x: T)
    requires IsSubsequence(a, b)
    ensures IsSubsequence(a, b + [x])
    decreases |a| + |b|, 1
  {
    var bx := b + [x];
    assert bx[..|bx| - 1] == b;
    if a != [] && a[|a| - 1] == x {
      SubsequenceDropLast(a, b);
    }
  }

  /** Dropping the last element of a subsequence leaves a subsequence. */
  lemma {:induction false} SubsequenceDropLast<T>(a: seq<T>, b: seq<T>)
    requires a != [] && IsSubsequence(a, b)
    ensures IsSubsequence(a[..|a| - 1], b)
    decreases |a| + |b|, 0
  {
    var ai, bi := a[..|a| - 1], b[..|b| - 1];
    assert bi + [b[|b| - 1]] == b;
    if a[|a| - 1] == b[|b| - 1] {
      SubsequenceExtend(ai, bi, b[|b| - 1]);
    } else {
      SubsequenceDropLast(a, bi);
      SubsequenceExtend(ai, bi, b[|b| - 1]);
    }
  }

  /** Selecting with a predicate every element satisfies keeps everything. */
  lemma {:induction false} SelectAll<T(!new)>(s: seq<T>, p: T -> bool)
    requires forall x :: x in s ==> p(x)
    ensures Select(s, p) == s
  {
    if s != [] {
      var init, last := s[..|s| - 1], s[|s| - 1];
      forall x | x in init
        ensures p(x)
      {
        var k :| 0 <= k < |init| && init[k] == x;
        assert s[k] == x;
      }
      SelectAll(init, p);
      assert p(last);
      assert init + [last] == s;
    }
  }

  /** Selecting with two predicates that agree on `s` gives the same result. */
  lemma {:induction false} SelectExtensional<T(!new)>(s: seq<T>, p: T -> bool, q: T -> bool)
    requires forall x :: x in s ==> p(x) == q(x)
    ensures Select(s, p) == Select(s, q)
  {
    if s != [] {
      SelectExtensional(s[..|s| - 1], p, q);
    }
  }

  /** The running total of `f` over `s`, as a `forEach` loop accumulates it. */
  function SumBy<T>(s: seq<T>, f: T -> int): int {
    if s == [] then 0 else SumBy(s[..|s| - 1], f) + f(s[|s| - 1])
  }

  lemma SumBySnoc<T>(s: seq<T>, x: T, f: T -> int)
    ensures SumBy(s + [x], f) == SumBy(s, f) + f(x)
  {
    assert (s + [x])[..|s|] == s;
  }

  lemma {:induction false} SumByNonNegative<T>(s: seq<T>, f: T -> int)
    requires forall x :: x in s ==> f(x) >= 0
    ensures SumBy(s, f) >= 0
  {
    if s != [] {
      SumByNonNegative(s[..|s| - 1], f);
    }
  }

  lemma {:induction false} SumByMonotone<T>(s: seq<T>, f: T -> int, g: T -> int)
    requires forall x :: x in s ==> f(x) <= g(x)
    ensures SumBy(s, f) <= SumBy(s, g)
  {
    if s != [] {
      SumByMonotone(s[..|s| - 1], f, g);
    }
  }

  lemma {:induction false} SumByExtensional<T>(s: seq<T>, f: T -> int, g: T -> int)
    requires forall x :: x in s ==> f(x) == g(x)
    ensures SumBy(s, f) == SumBy(s, g)
  {
    if s != [] {
      SumByExtensional(s[..|s| - 1], f, g);
    }
  }

  lemma {:induction false} SumByAdditive<T>(s: seq<T>, f: T -> int, g: T -> int, h: T -> int)
    requires forall x :: x in s ==> h(x) == f(x) + g(x)
    ensures SumBy(s, h) == SumBy(s, f) + SumBy(s, g)
  {
    if s != [] {
      SumByAdditive(s[..|s| - 1], f, g, h);
    }
  }

  /** `f` where `p` holds, 0 elsewhere. */
  function Masked<T>(p: T -> bool, f: T -> int): T -> int {
    x => if p(x) then f(x) else 0
  }

  /** Summing over the selected elements is summing `f` masked by the selection. */
  lemma {:induction false} SumBySelect<T(!new)>(s: seq<T>, p: T -> bool, f: T -> int)
    ensures SumBy(Select(s, p), f) == SumBy(s, Masked(p, f))
  {
    if s != [] {
      var init, last := s[..|s| - 1], s[|s| - 1];
      SumBySelect(init, p, f);
      if p(last) {
        SumBySnoc(Select(init, p), last, f);
      } else {
        assert Select(s, p) == Select(init, p);
      }
    }
  }

  /** The plain sum of a sequence of bucket totals. */
  function Sum(s: seq<int>): int {
    if s == [] then 0 else Sum(s[..|s| - 1]) + s[|s| - 1]
  }

  /** Adding `w` to one bucket adds `w` to the sum. */
  lemma {:induction false} SumUpdate(s: seq<int>, k: nat, w: int)
    requires k < |s|
    ensures Sum(s[k := s[k] + w]) == Sum(s) + w
  {
    var t := s[k := s[k] + w];
    if k == |s| - 1 {
      assert t[..|t| - 1] == s[..|s| - 1];
    } else {
      assert t[..|t| - 1] == s[..|s| - 1][k := s[k] + w];
      SumUpdate(s[..|s| - 1], k, w);
    }
  }

  /** A sequence of `n` zeros sums to zero. */
  lemma {:induction false} SumZeros(n: nat)
    ensures Sum(seq(n, _ => 0)) == 0
  {
    if n > 0 {
      assert seq(n, _ => 0)[..n - 1] == seq(n - 1, _ => 0);
      SumZeros(n - 1);
    }
  }

  /** Every term is zero, so the total is zero. */
  lemma {:induction false} SumByZero<T>(s: seq<T>, f: T -> int)
    requires forall x :: x in s ==> f(x) == 0
    ensures SumBy(s, f) == 0
  {
    if s != [] {
      SumByZero(s[..|s| - 1], f);
    }
  }

  /** With no negative term, the total is at least any one term. */
  lemma {:induction false} SumByAtLeast<T>(s: seq<T>, f: T -> int, x: T)
    requires forall y :: y in s ==> f(y) >= 0
    requires x in s
    ensures SumBy(s, f) >= f(x)
  {
    var init, last := s[..|s| - 1], s[|s| - 1];
    SumByNonNegative(init, f);
    if x != last {
      assert x in init by {
        var k :| 0 <= k < |s| && s[k] == x;
        assert init[k] == x;
      }
      SumByAtLeast(init, f, x);
    }
  }

  /**
   * `n` buckets: each element adds its weight `w` to bucket `slot(x)`, and an
   * element whose slot is not a bucket adds nothing.
   */
  function Histogram<T>(s: seq<T>, n: nat, slot: T -> int, w: T -> int): (r: seq<int>)
    ensures |r| == n
  {
    if s == [] then seq(n, _ => 0)
    else
      var h := Histogram(s[..|s| - 1], n, slot, w);
      var last := s[|s| - 1];
      var k := slot(last);
      if 0 <= k < n then h[k := h[k] + w(last)] else h
  }

  /** The weight of the elements that fall in bucket `k`. */
  function Slotted<T>(slot: T -> int, w: T -> int, k: int): T -> int {
    x => if slot(x) == k then w(x) else 0
  }

  /** The weight of the elements that fall in any of the `n` buckets. */
  function InRange<T>(slot: T -> int, w: T -> int, n: nat): T -> int {
    x => if 0 <= slot(x) < n then w(x) else 0
  }

  /** Bucket `k` holds the total weight of the elements whose slot is `k`. */
  lemma {:induction false} HistogramBucket<T>(s: seq<T>, n: nat, slot: T -> int, w: T -> int, k: nat)
    requires k < n
    ensures Histogram(s, n, slot, w)[k] == SumBy(s, Slotted(slot, w, k))
  {
    if s != [] {
      HistogramBucket(s[..|s| - 1], n, slot, w, k);
    }
  }

  /** The buckets together hold the weight of every element that has a bucket. */
  lemma {:induction false} HistogramSum<T>(s: seq<T>, n: nat, slot: T -> int, w: T -> int)
    ensures Sum(Histogram(s, n, slot, w)) == SumBy(s, InRange(slot, w, n))
  {
    if s == [] {
      SumZeros(n);
    } else {
      var init, last := s[..|s| - 1], s[|s| - 1];
      HistogramSum(init, n, slot, w);
      var k := slot(last);
      if 0 <= k < n {
        SumUpdate(Histogram(init, n, slot, w), k, w(last));
      }
    }
  }

  /** With no negative weight, every bucket is empty exactly when no element
      that has a bucket carries any weight. */
  lemma HistogramAllZero<T>(s: seq<T>, n: nat, slot: T -> int, w: T -> int)
    requires forall x :: x in s ==> w(x) >= 0
    ensures (forall k :: 0 <= k < n ==> Histogram(s, n, slot, w)[k] == 0)
        <==> (forall x :: x in s && 0 <= slot(x) < n ==> w(x) == 0)
  {
    WeightlessHistogramIsZero(s, n, slot, w);
    ZeroHistogramIsWeightless(s, n, slot, w);
  }

  lemma WeightlessHistogramIsZero<T>(s: seq<T>, n: nat, slot: T -> int, w: T -> int)
    ensures (forall x :: x in s && 0 <= slot(x) < n ==> w(x) == 0)
        ==> (forall k :: 0 <= k < n ==> Histogram(s, n, slot, w)[k] == 0)
  {
    if forall x :: x in s && 0 <= slot(x) < n ==> w(x) == 0 {
      forall k | 0 <= k < n
        ensures Histogram(s, n, slot, w)[k] == 0
      {
        HistogramBucket(s, n, slot, w, k);
        assert forall y :: y in s ==> Slotted(slot, w, k)(y) == 0;
        SumByZero(s, Slotted(slot, w, k));
      }
    }
  }

  lemma ZeroHistogramIsWeightless<T>(s: seq<T>, n: nat, slot: T -> int, w: T -> int)
    requires forall x :: x in s ==> w(x) >= 0
    ensures (forall k :: 0 <= k < n ==> Histogram(s, n, slot, w)[k] == 0)
        ==> (forall x :: x in s && 0 <= slot(x) < n ==> w(x) == 0)
  {
    if forall k :: 0 <= k < n ==> Histogram(s, n, slot, w)[k] == 0 {
      forall x | x in s && 0 <= slot(x) < n
        ensures w(x) == 0
      {
        WeightAtMostBucket(s, n, slot, w, x);
      }
    }
  }

  /** With no negative weight, an element's weight is at most its bucket. */
  lemma WeightAtMostBucket<T>(s: seq<T>, n: nat, slot: T -> int, w: T -> int, x: T)
    requires forall y :: y in s ==> w(y) >= 0
    requires x in s && 0 <= slot(x) < n
    ensures w(x) <= Histogram(s, n, slot, w)[slot(x)]
  {
    var k := slot(x);
    HistogramBucket(s, n, slot, w, k);
    assert forall y :: y in s ==> Slotted(slot, w, k)(y) >= 0;
    SumByAtLeast(s, Slotted(slot, w, k), x);
  }

  /** With no negative weight, no bucket is negative. */
  lemma HistogramNonNegative<T>(s: seq<T>, n: nat, slot: T -> int, w: T -> int)
    requires forall x :: x in s ==> w(x) >= 0
    ensures forall k :: 0 <= k < n ==> Histogram(s, n, slot, w)[k] >= 0
  {
    forall k | 0 <= k < n
      ensures Histogram(s, n, slot, w)[k] >= 0
    {
      HistogramBucket(s, n, slot, w, k);
      SumByNonNegative(s, Slotted(slot, w, k));
    }
  }
}
