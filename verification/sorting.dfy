/** Stable insertion sort and the orderings the source sorts by: numbers
    (`sorted(values)`) and ISO-8601 timestamp strings compared the way
    Python compares `str` values, code point by code point. */
module Sorting {

  /** `le` is total and transitive, so sorting by it is well defined. */
  ghost predicate TotalPreorder<T(!new)>(le: (T, T) -> bool) {
    && (forall a, b :: le(a, b) || le(b, a))
    && (forall a, b, c :: le(a, b) && le(b, c) ==> le(a, c))
  }

  predicate Sorted<T>(xs: seq<T>, le: (T, T) -> bool) {
    forall i, j :: 0 <= i < j < |xs| ==> le(xs[i], xs[j])
  }

  /** Inserts `x` in front of the first element it may precede. */
  function Insert<T>(x: T, xs: seq<T>, le: (T, T) -> bool): (r: seq<T>)
    ensures multiset(r) == multiset(xs) + multiset{x}
    ensures |r| == |xs| + 1
    ensures x in r && forall i :: 0 <= i < |r| ==> r[i] == x || r[i] in xs
    ensures forall i :: 0 <= i < |xs| ==> xs[i] in r
  {
    if |xs| == 0 || le(x, xs[0]) then [x] + xs
    else
      assert xs == [xs[0]] + xs[1..];
      [xs[0]] + Insert(x, xs[1..], le)
  }

  lemma {:induction false} InsertSorted<T(!new)>(x: T, xs: seq<T>, le: (T, T) -> bool)
    requires TotalPreorder(le) && Sorted(xs, le)
    ensures Sorted(Insert(x, xs, le), le)
  {
    if |xs| > 0 && !le(x, xs[0]) {
      InsertSorted(x, xs[1..], le);
      var r := Insert(x, xs, le);
      var t := Insert(x, xs[1..], le);
      assert r == [xs[0]] + t;
      assert le(xs[0], x);
      forall j | 0 < j < |r| ensures le(r[0], r[j]) {
        assert r[j] in multiset(t);
        assert r[j] in multiset(xs[1..]) + multiset{x};
        if r[j] != x {
          assert r[j] in xs[1..];
          var k :| 0 <= k < |xs[1..]| && xs[1..][k] == r[j];
          assert xs[k + 1] == r[j];
        }
      }
    }
  }

  /** Stable insertion sort: the result is a sorted permutation of the input. */
  function Sort<T(!new)>(xs: seq<T>, le: (T, T) -> bool): (r: seq<T>)
    requires TotalPreorder(le)
    ensures multiset(r) == multiset(xs)
    ensures |r| == |xs|
    ensures Sorted(r, le)
  {
    if |xs| == 0 then []
    else
      assert xs == [xs[0]] + xs[1..];
      var rest := Sort(xs[1..], le);
      InsertSorted(xs[0], rest, le);
      Insert(xs[0], rest, le)
  }

  /** Number of elements satisfying `p`. */
  function Count<T>(xs: seq<T>, p: T -> bool): (n: nat)
    ensures n <= |xs|
  {
    if |xs| == 0 then 0 else (if p(xs[0]) then 1 else 0) + Count(xs[1..], p)
  }

  lemma {:induction false} CountInsert<T>(x: T, xs: seq<T>, le: (T, T) -> bool, p: T -> bool)
    ensures Count(Insert(x, xs, le), p) == Count(xs, p) + (if p(x) then 1 else 0)
  {
    if |xs| > 0 && !le(x, xs[0]) {
      CountInsert(x, xs[1..], le, p);
      assert Insert(x, xs, le)[1..] == Insert(x, xs[1..], le);
    } else {
      assert Insert(x, xs, le)[1..] == xs;
    }
  }

  /** Sorting never changes how many elements satisfy a predicate. */
  lemma {:induction false} CountSort<T(!new)>(xs: seq<T>, le: (T, T) -> bool, p: T -> bool)
    requires TotalPreorder(le)
    ensures Count(Sort(xs, le), p) == Count(xs, p)
  {
    if |xs| > 0 {
      CountSort(xs[1..], le, p);
      CountInsert(xs[0], Sort(xs[1..], le), le, p);
    }
  }

  /** In a list whose first `k` elements all satisfy `p`, at least `k` do. */
  lemma {:induction false} CountPrefix<T>(xs: seq<T>, k: nat, p: T -> bool)
    requires k <= |xs|
    requires forall i :: 0 <= i < k ==> p(xs[i])
    ensures Count(xs, p) >= k
  {
    if k > 0 {
      CountPrefix(xs[1..], k - 1, p);
    }
  }

  /** In a list whose elements from index `k` on all satisfy `p`, at least
      `|xs| - k` do. */
  lemma {:induction false} CountSuffix<T>(xs: seq<T>, k: nat, p: T -> bool)
    requires k <= |xs|
    requires forall i :: k <= i < |xs| ==> p(xs[i])
    ensures Count(xs, p) >= |xs| - k
  {
    if k > 0 {
      CountSuffix(xs[1..], k - 1, p);
    } else if |xs| > 0 {
      CountSuffix(xs[1..], 0, p);
    }
  }

  predicate RealLe(a: real, b: real) { a <= b }

  lemma RealLeTotalPreorder()
    ensures TotalPreorder(RealLe)
  {
  }

  /** Python's `a <= b` on `str`: lexicographic order on code points. */
  predicate StrLe(a: string, b: string)
    decreases |a|
  {
    if |a| == 0 then true
    else if |b| == 0 then false
    else if a[0] != b[0] then a[0] < b[0]
    else StrLe(a[1..], b[1..])
  }

  lemma {:induction false} StrLeTotal(a: string, b: string)
    ensures StrLe(a, b) || StrLe(b, a)
    decreases |a|
  {
    if |a| > 0 && |b| > 0 && a[0] == b[0] {
      StrLeTotal(a[1..], b[1..]);
    }
  }

  lemma {:induction false} StrLeTrans(a: string, b: string, c: string)
    requires StrLe(a, b) && StrLe(b, c)
    ensures StrLe(a, c)
    decreases |a|
  {
    if |a| > 0 && |b| > 0 && |c| > 0 && a[0] == b[0] == c[0] {
      StrLeTrans(a[1..], b[1..], c[1..]);
    }
  }

  /** Any preorder obtained by comparing a string key, in either direction,
      is total and transitive. */
  lemma KeyOrderTotalPreorder<T(!new)>(le: (T, T) -> bool, key: T -> string, descending: bool)
    requires forall a, b :: le(a, b) == if descending then StrLe(key(b), key(a)) else StrLe(key(a), key(b))
    ensures TotalPreorder(le)
  {
    forall a, b ensures le(a, b) || le(b, a) {
      StrLeTotal(key(a), key(b));
    }
    forall a, b, c | le(a, b) && le(b, c) ensures le(a, c) {
      if descending {
        StrLeTrans(key(c), key(b), key(a));
      } else {
        StrLeTrans(key(a), key(b), key(c));
      }
    }
  }
}
