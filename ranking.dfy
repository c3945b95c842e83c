/** pandas `Series.rank(method="dense", ascending=False)`: the largest value
    gets rank 1, equal values share a rank, and each next smaller distinct
    value gets the next rank, without gaps. */
module Ranking {

  /** The distinct values of `vals` that are larger than `x`. */
  function Above(vals: seq<real>, x: real): set<real> {
    set v | v in vals && v > x
  }

  function Distinct(vals: seq<real>): set<real> {
    set v | v in vals
  }

  /** The dense rank of `x` among `vals`. */
  function DenseRank(vals: seq<real>, x: real): (r: nat)
    ensures r >= 1
  {
    |Above(vals, x)| + 1
  }

  /** The rank column for a column of values. */
  function DenseRanks(vals: seq<real>): (rs: seq<nat>)
    ensures |rs| == |vals|
    ensures forall i :: 0 <= i < |vals| ==> rs[i] == DenseRank(vals, vals[i])
  {
    seq(|vals|, i requires 0 <= i < |vals| => DenseRank(vals, vals[i]))
  }

  /** Rank 1 goes exactly to the maximum values. */
  lemma RankOneIffMaximum(vals: seq<real>, i: nat)
    requires i < |vals|
    ensures DenseRank(vals, vals[i]) == 1 <==> forall j :: 0 <= j < |vals| ==> vals[j] <= vals[i]
  {
    if DenseRank(vals, vals[i]) != 1 {
      var v :| v in Above(vals, vals[i]);
      var j :| 0 <= j < |vals| && vals[j] == v;
      assert vals[j] > vals[i];
    } else {
      forall j | 0 <= j < |vals| ensures vals[j] <= vals[i] {
        LargerValueCounts(vals, i, j);
      }
    }
  }

  lemma LargerValueCounts(vals: seq<real>, i: nat, j: nat)
    requires i < |vals| && j < |vals|
    ensures vals[j] > vals[i] ==> DenseRank(vals, vals[i]) > 1
  {
    if vals[j] > vals[i] {
      assert vals[j] in Above(vals, vals[i]);
    }
  }

  /** A larger value gets a strictly smaller (better) rank. */
  lemma LargerValueBetterRank(vals: seq<real>, i: nat, j: nat)
    requires i < |vals| && j < |vals| && vals[i] > vals[j]
    ensures DenseRank(vals, vals[i]) < DenseRank(vals, vals[j])
  {
    var a := Above(vals, vals[i]);
    var b := Above(vals, vals[j]);
    assert a <= b;
    assert vals[i] in b && vals[i] !in a;
    ProperSubsetSmaller(a, b);
  }

  /** Two students share a rank exactly when their values are equal. */
  lemma SameRankIffSameValue(vals: seq<real>, i: nat, j: nat)
    requires i < |vals| && j < |vals|
    ensures DenseRank(vals, vals[i]) == DenseRank(vals, vals[j]) <==> vals[i] == vals[j]
  {
    if vals[i] > vals[j] {
      LargerValueBetterRank(vals, i, j);
    } else if vals[j] > vals[i] {
      LargerValueBetterRank(vals, j, i);
    }
  }

  /** Ranks never exceed the number of distinct values. */
  lemma RankAtMostDistinctCount(vals: seq<real>, i: nat)
    requires i < |vals|
    ensures DenseRank(vals, vals[i]) <= |Distinct(vals)|
  {
    var a := Above(vals, vals[i]);
    assert a <= Distinct(vals);
    assert vals[i] in Distinct(vals) && vals[i] !in a;
    ProperSubsetSmaller(a, Distinct(vals));
  }

  lemma ProperSubsetSmaller(a: set<real>, b: set<real>)
    requires a <= b && a != b
    ensures |a| < |b|
  {
    assert b == a + (b - a);
    assert b - a != {};
  }

  /** No gaps: every rank above 1 is preceded by a student holding the rank
      just before it. */
  lemma RanksHaveNoGaps(vals: seq<real>, i: nat)
    requires i < |vals| && DenseRank(vals, vals[i]) > 1
    ensures exists j :: 0 <= j < |vals| && DenseRank(vals, vals[j]) == DenseRank(vals, vals[i]) - 1
  {
    RankOneIffMaximum(vals, i);
    var j := SmallestAbove(vals, vals[i]);
    var a := Above(vals, vals[i]);
    var m := vals[j];
    assert Above(vals, m) == a - {m} by {
      forall v | v in a - {m} ensures v in Above(vals, m) {
        var k :| 0 <= k < |vals| && vals[k] == v;
      }
    }
  }

  /** The position of the smallest value above `x`. */
  lemma SmallestAbove(vals: seq<real>, x: real) returns (j: nat)
    requires exists k :: 0 <= k < |vals| && vals[k] > x
    ensures j < |vals| && vals[j] > x
    ensures forall k :: 0 <= k < |vals| && vals[k] > x ==> vals[j] <= vals[k]
  {
    var k0 :| 0 <= k0 < |vals| && vals[k0] > x;
    j := k0;
    var k := 0;
    while k < |vals|
      invariant k <= |vals| && j < |vals| && vals[j] > x
      invariant forall q :: 0 <= q < k && vals[q] > x ==> vals[j] <= vals[q]
    {
      if vals[k] > x && vals[k] < vals[j] {
        j := k;
      }
      k := k + 1;
    }
  }

  /** The position of the smallest value. */
  lemma Smallest(vals: seq<real>) returns (j: nat)
    requires |vals| > 0
    ensures j < |vals| && forall k :: 0 <= k < |vals| ==> vals[j] <= vals[k]
  {
    j := 0;
    var k := 1;
    while k < |vals|
      invariant k <= |vals| && j < |vals|
      invariant forall q :: 0 <= q < k ==> vals[j] <= vals[q]
    {
      if vals[k] < vals[j] {
        j := k;
      }
      k := k + 1;
    }
  }

  /** The ranks are exactly `1 .. number of distinct values`. */
  lemma {:induction false} RankImage(vals: seq<real>, r: nat)
    requires 1 <= r <= |Distinct(vals)|
    ensures exists j :: 0 <= j < |vals| && DenseRank(vals, vals[j]) == r
    decreases |Distinct(vals)| - r
  {
    if r == |Distinct(vals)| {
      assert |vals| > 0;
      var j := Smallest(vals);
      assert Above(vals, vals[j]) == Distinct(vals) - {vals[j]};
    } else {
      RankImage(vals, r + 1);
      var j :| 0 <= j < |vals| && DenseRank(vals, vals[j]) == r + 1;
      RanksHaveNoGaps(vals, j);
    }
  }

  /** Ranking depends only on which values occur, not on row order. */
  lemma RankOrderIndependent(vals: seq<real>, other: seq<real>, x: real)
    requires multiset(vals) == multiset(other)
    ensures DenseRank(vals, x) == DenseRank(other, x)
  {
    assert forall v :: v in vals <==> v in multiset(vals);
    assert forall v :: v in other <==> v in multiset(other);
    assert Above(vals, x) == Above(other, x);
  }
}
