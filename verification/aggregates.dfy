/** `_safe_mean` and `_p95`, the two aggregators of the evaluation report,
    over exact reals. */
module Aggregates {
  import opened Common
  import opened Sorting

  function Sum(xs: seq<real>): real {
    if |xs| == 0 then 0.0 else xs[0] + Sum(xs[1..])
  }

  /** `_safe_mean`: the arithmetic mean, or 0 for an empty list. */
  function SafeMean(xs: seq<real>): (m: real)
    ensures |xs| == 0 ==> m == 0.0
    ensures |xs| > 0 ==> m * |xs| as real == Sum(xs)
  {
    if |xs| == 0 then 0.0 else Sum(xs) / |xs| as real
  }

  /** Every element between `lo` and `hi` puts the sum between `n * lo` and
      `n * hi`. */
  lemma {:induction false} SumBounds(xs: seq<real>, lo: real, hi: real)
    requires forall i :: 0 <= i < |xs| ==> lo <= xs[i] <= hi
    ensures |xs| as real * lo <= Sum(xs) <= |xs| as real * hi
  {
    if |xs| > 0 {
      SumBounds(xs[1..], lo, hi);
    }
  }

  /** Pointwise smaller lists have smaller sums. */
  lemma {:induction false} SumMonotone(xs: seq<real>, ys: seq<real>)
    requires |xs| == |ys|
    requires forall i :: 0 <= i < |xs| ==> xs[i] <= ys[i]
    ensures Sum(xs) <= Sum(ys)
  {
    if |xs| > 0 {
      SumMonotone(xs[1..], ys[1..]);
    }
  }

  /** The mean of values in `[lo, hi]` lies in `[lo, hi]`; with `lo <= 0`
      this covers the empty list too. */
  lemma MeanBounds(xs: seq<real>, lo: real, hi: real)
    requires lo <= 0.0 <= hi
    requires forall i :: 0 <= i < |xs| ==> lo <= xs[i] <= hi
    ensures lo <= SafeMean(xs) <= hi
  {
    if |xs| > 0 {
      SumBounds(xs, lo, hi);
      var n := |xs| as real;
      var m := SafeMean(xs);
      assert m * n == Sum(xs);
      ScaleCancel(lo, m, n);
      ScaleCancel(m, hi, n);
    }
  }

  lemma ScaleCancel(a: real, b: real, n: real)
    requires n > 0.0 && a * n <= b * n
    ensures a <= b
  {
  }

  /** The mean is monotone in each element. */
  lemma MeanMonotone(xs: seq<real>, ys: seq<real>)
    requires |xs| == |ys|
    requires forall i :: 0 <= i < |xs| ==> xs[i] <= ys[i]
    ensures SafeMean(xs) <= SafeMean(ys)
  {
    if |xs| > 0 {
      SumMonotone(xs, ys);
      var n := |xs| as real;
      assert SafeMean(xs) * n == Sum(xs);
      assert SafeMean(ys) * n == Sum(ys);
      ScaleCancel(SafeMean(xs), SafeMean(ys), n);
    }
  }

  /** The ceiling of 0.95 n, computed exactly as the least integer not below
      19n / 20. */
  function Ceil95(n: nat): (c: nat)
    ensures 20 * c >= 19 * n
    ensures c == 0 || 20 * (c - 1) < 19 * n
  {
    (19 * n + 19) / 20
  }

  /** The 95th-percentile index: one less than the ceiling of 0.95 n,
      clamped into the list's index range, which for a non-empty list never
      changes it. */
  function P95Index(n: nat): (i: nat)
    requires n > 0
    ensures i < n
    ensures i + 1 == Ceil95(n)
  {
    Max(0, Min(n - 1, Ceil95(n) - 1))
  }

  /** One value takes index 0, twenty sorted values take index 18 (the
      19th value) and a hundred take index 94. */
  lemma P95IndexExamples()
    ensures P95Index(1) == 0 && P95Index(20) == 18 && P95Index(100) == 94
  {
  }

  predicate AtMost(r: real, v: real) { v <= r }
  predicate AtLeast(r: real, v: real) { v >= r }

  /** `_p95`: 0 for an empty list, otherwise the element at the 95th
      percentile index of the sorted values, hence one of the inputs. */
  function P95(xs: seq<real>): (r: real)
    ensures |xs| == 0 ==> r == 0.0
    ensures |xs| > 0 ==> r in xs
  {
    if |xs| == 0 then 0.0
    else
      RealLeTotalPreorder();
      var ys := Sort(xs, RealLe);
      assert ys[P95Index(|xs|)] in multiset(xs);
      ys[P95Index(|xs|)]
  }

  /** In a sorted list the element at index `k` is at least the first
      `k + 1` elements and at most the last `|ys| - k`. */
  lemma SortedRank(ys: seq<real>, k: nat, r: real)
    requires Sorted(ys, RealLe) && k < |ys| && r == ys[k]
    ensures Count(ys, v => AtMost(r, v)) >= k + 1
    ensures Count(ys, v => AtLeast(r, v)) >= |ys| - k
  {
    forall i | 0 <= i <= k ensures AtMost(r, ys[i]) {
      if i < k { assert RealLe(ys[i], ys[k]); }
    }
    forall i | k <= i < |ys| ensures AtLeast(r, ys[i]) {
      if k < i { assert RealLe(ys[k], ys[i]); }
    }
    CountPrefix(ys, k + 1, v => AtMost(r, v));
    CountSuffix(ys, k, v => AtLeast(r, v));
  }

  /** The 95th percentile is an order statistic: at least `ceil(0.95 n)`
      inputs are not above it and at least `n - ceil(0.95 n) + 1` are not
      below it. */
  lemma P95Rank(xs: seq<real>)
    requires |xs| > 0
    ensures Count(xs, v => AtMost(P95(xs), v)) >= Ceil95(|xs|)
    ensures Count(xs, v => AtLeast(P95(xs), v)) >= |xs| - Ceil95(|xs|) + 1
  {
    RealLeTotalPreorder();
    var ys := Sort(xs, RealLe);
    var k := P95Index(|xs|);
    var r := P95(xs);
    assert r == ys[k];
    SortedRank(ys, k, r);
    CountSort(xs, RealLe, v => AtMost(r, v));
    CountSort(xs, RealLe, v => AtLeast(r, v));
  }

  /** The 95th percentile lies between the smallest and the largest input. */
  lemma P95Bounds(xs: seq<real>, lo: real, hi: real)
    requires forall i :: 0 <= i < |xs| ==> lo <= xs[i] <= hi
    requires |xs| > 0
    ensures lo <= P95(xs) <= hi
  {
    var r := P95(xs);
    var i :| 0 <= i < |xs| && xs[i] == r;
  }

  /** Values within `[lo, hi]`, with `lo <= 0 <= hi`, have their mean and
      their 95th percentile within `[lo, hi]`. */
  lemma AggregatesBounded(xs: seq<real>, lo: real, hi: real)
    requires lo <= 0.0 <= hi
    requires forall i :: 0 <= i < |xs| ==> lo <= xs[i] <= hi
    ensures lo <= SafeMean(xs) <= hi && lo <= P95(xs) <= hi
  {
    MeanBounds(xs, lo, hi);
    if |xs| > 0 {
      P95Bounds(xs, lo, hi);
    }
  }

  /** With fewer than twenty values the 95th percentile is the maximum. */
  lemma P95OfFewIsMax(xs: seq<real>)
    requires 0 < |xs| < 20
    ensures forall i :: 0 <= i < |xs| ==> xs[i] <= P95(xs)
  {
    var n := |xs|;
    assert Ceil95(n) == n;
    var r := P95(xs);
    P95Rank(xs);
    CountAllIn(xs, v => AtMost(r, v));
  }

  /** A count equal to the length means every element qualifies. */
  lemma {:induction false} CountAllIn<T>(xs: seq<T>, p: T -> bool)
    requires Count(xs, p) >= |xs|
    ensures forall i :: 0 <= i < |xs| ==> p(xs[i])
  {
    if |xs| > 0 {
      CountAllIn(xs[1..], p);
      forall i | 0 <= i < |xs| ensures p(xs[i]) {
        if i > 0 { assert xs[i] == xs[1..][i - 1]; }
      }
    }
  }

  /** The mean of four latencies. */
  lemma MeanExample()
    ensures SafeMean([2.0, 4.0, 6.0, 8.0]) == 5.0
  {
    var xs := [2.0, 4.0, 6.0, 8.0];
    assert xs[1..][1..][1..] == [8.0];
    assert Sum(xs) == 20.0;
  }

  /** With fewer than twenty values the 95th percentile equals any value
      that is an input and not below any input. */
  lemma P95IsMax(xs: seq<real>, m: real)
    requires 0 < |xs| < 20
    requires m in xs && forall i :: 0 <= i < |xs| ==> xs[i] <= m
    ensures P95(xs) == m
  {
    P95OfFewIsMax(xs);
    var r := P95(xs);
    var i :| 0 <= i < |xs| && xs[i] == r;
    var j :| 0 <= j < |xs| && xs[j] == m;
    assert r <= m && m <= r;
  }
}
