/** Sums, means and the descending sort the parser uses for its totals,
    percentages and best-five selection. Percentages are exact rationals:
    Python's `round(x, 2)` on a float is not modelled. */
module Stats {

  function Sum(s: seq<int>): int {
    if s == [] then 0 else s[0] + Sum(s[1..])
  }

  lemma {:induction false} SumAppend(a: seq<int>, b: seq<int>)
    ensures Sum(a + b) == Sum(a) + Sum(b)
  {
    if a != [] {
      SumAppend(a[1..], b);
      assert (a + b)[1..] == a[1..] + b;
    } else {
      assert a + b == b;
    }
  }

  predicate Bounded(s: seq<int>, lo: int, hi: int) {
    forall k :: 0 <= k < |s| ==> lo <= s[k] <= hi
  }

  /** A sum of `n` values in `[lo, hi]` lies in `[n * lo, n * hi]`. */
  lemma {:induction false} SumBounds(s: seq<int>, lo: int, hi: int)
    requires Bounded(s, lo, hi)
    ensures |s| * lo <= Sum(s) <= |s| * hi
  {
    if s != [] {
      SumBounds(s[1..], lo, hi);
      assert |s| * lo == lo + (|s| - 1) * lo;
      assert |s| * hi == hi + (|s| - 1) * hi;
    }
  }

  /** `sum(s) / len(s)`. */
  function Mean(s: seq<int>): real
    requires |s| > 0
  {
    Sum(s) as real / |s| as real
  }

  lemma DivLe(a: real, b: real, n: real)
    requires n > 0.0 && a <= b * n
    ensures a / n <= b
  {
    assert a / n * n == a;
  }

  lemma DivGe(a: real, b: real, n: real)
    requires n > 0.0 && b * n <= a
    ensures b <= a / n
  {
    assert a / n * n == a;
  }

  /** The mean of values in `[lo, hi]` lies in `[lo, hi]`. */
  lemma MeanBounds(s: seq<int>, lo: int, hi: int)
    requires |s| > 0 && Bounded(s, lo, hi)
    ensures lo as real <= Mean(s) <= hi as real
  {
    SumBounds(s, lo, hi);
    QuotientBounds(Sum(s), |s|, lo, hi);
  }

  /** A total between `n * lo` and `n * hi`, divided by `n`, lies in `[lo, hi]`. */
  lemma QuotientBounds(total: int, n: int, lo: int, hi: int)
    requires n > 0 && n * lo <= total <= n * hi
    ensures lo as real <= total as real / n as real <= hi as real
  {
    var m := n as real;
    assert (n * lo) as real == lo as real * m;
    assert (n * hi) as real == hi as real * m;
    DivLe(total as real, hi as real, m);
    DivGe(total as real, lo as real, m);
  }

  predicate SortedDesc(s: seq<int>) {
    forall i, j :: 0 <= i < j < |s| ==> s[i] >= s[j]
  }

  function InsertDesc(x: int, s: seq<int>): (r: seq<int>)
    ensures multiset(r) == multiset(s) + multiset{x}
    ensures |r| == |s| + 1 && Sum(r) == Sum(s) + x
  {
    if s == [] || x >= s[0] then
      assert ([x] + s)[1..] == s;
      [x] + s
    else
      var t := InsertDesc(x, s[1..]);
      assert s == [s[0]] + s[1..];
      assert ([s[0]] + t)[1..] == t;
      [s[0]] + t
  }

  /** Inserting into a descending sequence keeps it descending. */
  lemma {:induction false} InsertDescSorted(x: int, s: seq<int>)
    requires SortedDesc(s)
    ensures SortedDesc(InsertDesc(x, s))
  {
    if s != [] && x < s[0] {
      var t := InsertDesc(x, s[1..]);
      InsertDescSorted(x, s[1..]);
      InsertDescAtMost(x, s[1..], s[0]);
      ConsDesc(s[0], t);
    } else {
      ConsDesc(x, s);
    }
  }

  predicate AtMost(s: seq<int>, b: int) {
    forall k :: 0 <= k < |s| ==> s[k] <= b
  }

  /** A descending sequence stays descending with a value no smaller than
      all of it in front. */
  lemma ConsDesc(a: int, t: seq<int>)
    requires SortedDesc(t) && AtMost(t, a)
    ensures SortedDesc([a] + t)
  {
    var r := [a] + t;
    forall i, j | 0 <= i < j < |r| ensures r[i] >= r[j] {
      assert r[j] == t[j - 1];
      if i > 0 {
        assert r[i] == t[i - 1];
      }
    }
  }

  /** Inserting a value no larger than `b` among values no larger than `b`
      gives values no larger than `b`. */
  lemma {:induction false} InsertDescAtMost(x: int, s: seq<int>, b: int)
    requires x <= b && AtMost(s, b)
    ensures AtMost(InsertDesc(x, s), b)
  {
    if s != [] && x < s[0] {
      InsertDescAtMost(x, s[1..], b);
      var r := InsertDesc(x, s);
      var t := InsertDesc(x, s[1..]);
      assert r == [s[0]] + t;
      forall k | 0 <= k < |r| ensures r[k] <= b {
        if k > 0 {
          assert r[k] == t[k - 1];
        }
      }
    } else {
      var r := [x] + s;
      forall k | 0 <= k < |r| ensures r[k] <= b {
        if k > 0 {
          assert r[k] == s[k - 1];
        }
      }
    }
  }

  /** `sorted(s, reverse=True)`: a descending permutation of `s`. */
  function SortDesc(s: seq<int>): (r: seq<int>)
    ensures SortedDesc(r) && multiset(r) == multiset(s)
    ensures |r| == |s| && Sum(r) == Sum(s)
  {
    if s == [] then []
    else
      assert s == [s[0]] + s[1..];
      InsertDescSorted(s[0], SortDesc(s[1..]));
      InsertDesc(s[0], SortDesc(s[1..]))
  }

  function Min(a: int, b: int): int {
    if a <= b then a else b
  }

  /** `sorted(s, reverse=True)[:5]`: the (at most) five largest values. */
  function Top5(s: seq<int>): (t: seq<int>)
    ensures |t| == Min(5, |s|)
  {
    SortDesc(s)[..Min(5, |s|)]
  }

  /** Values drawn from a bounded sequence keep its bounds. */
  lemma SubBagBounded(t: seq<int>, s: seq<int>, lo: int, hi: int)
    requires multiset(t) <= multiset(s) && Bounded(s, lo, hi)
    ensures Bounded(t, lo, hi)
  {
    forall k | 0 <= k < |t| ensures lo <= t[k] <= hi {
      assert t[k] in multiset(t);
      var m :| 0 <= m < |s| && s[m] == t[k];
    }
  }

  /** The values `Top5` leaves out are none larger than any value kept,
      and when there are five or fewer values all of them are kept. */
  lemma Top5Largest(s: seq<int>)
    ensures multiset(Top5(s)) <= multiset(s)
    ensures forall x, y :: x in multiset(s) - multiset(Top5(s)) && y in multiset(Top5(s)) ==> x <= y
    ensures |s| <= 5 ==> multiset(Top5(s)) == multiset(s) && Sum(Top5(s)) == Sum(s)
  {
    var r := SortDesc(s);
    var k := Min(5, |s|);
    PrefixOfSortedIsLargest(r, k);
    assert |s| <= 5 ==> r[..k] == r;
  }

  /** `round(sum(top5) / 5, 2)`, without the rounding: always over five,
      however few marks were read. */
  function TopFivePercent(marks: seq<int>): real {
    Sum(Top5(marks)) as real / 5.0
  }

  /** In a descending sequence, nothing after position `k` exceeds anything
      before it. */
  lemma PrefixOfSortedIsLargest(r: seq<int>, k: nat)
    requires SortedDesc(r) && k <= |r|
    ensures multiset(r[..k]) <= multiset(r)
    ensures forall x, y :: x in multiset(r) - multiset(r[..k]) && y in multiset(r[..k]) ==> x <= y
  {
    var t := r[..k];
    assert r == t + r[k..];
    assert multiset(r) == multiset(t) + multiset(r[k..]);
    forall x, y | x in multiset(r) - multiset(t) && y in multiset(t) ensures x <= y {
      assert x in multiset(r[k..]);
      var i :| 0 <= i < |r[k..]| && r[k..][i] == x;
      var j :| 0 <= j < |t| && t[j] == y;
      assert r[j] >= r[k + i];
    }
  }

  lemma {:induction false} SumNonNegative(s: seq<int>)
    requires forall k :: 0 <= k < |s| ==> s[k] >= 0
    ensures Sum(s) >= 0
  {
    if s != [] {
      SumNonNegative(s[1..]);
    }
  }

  /** The best five never add up to more than all the values together. */
  lemma Top5SumAtMostSum(s: seq<int>)
    requires forall k :: 0 <= k < |s| ==> s[k] >= 0
    ensures Sum(Top5(s)) <= Sum(s)
  {
    var r := SortDesc(s);
    ElementsFrom(s, r);
    PrefixSumAtMost(r, Min(5, |s|));
  }

  /** Over non-negative values, a prefix adds up to no more than the whole. */
  lemma PrefixSumAtMost(r: seq<int>, k: nat)
    requires k <= |r| && forall q :: 0 <= q < |r| ==> r[q] >= 0
    ensures Sum(r[..k]) <= Sum(r)
  {
    assert r == r[..k] + r[k..];
    SumAppend(r[..k], r[k..]);
    SumNonNegative(r[k..]);
  }

  lemma ElementsFrom(s: seq<int>, r: seq<int>)
    requires multiset(r) == multiset(s)
    requires forall k :: 0 <= k < |s| ==> s[k] >= 0
    ensures forall k :: 0 <= k < |r| ==> r[k] >= 0
  {
    forall q | 0 <= q < |r| ensures r[q] >= 0 {
      assert r[q] in multiset(r);
      var m :| 0 <= m < |s| && s[m] == r[q];
    }
  }
}
