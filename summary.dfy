/** The per-subject summary sheet: for one subject column of the output,
    the highest, lowest and average mark and the number of distinctions
    (mark at least 75) and of centuries (mark exactly 100). A student who
    did not take the subject has a missing cell (`None`), which pandas skips
    in `max`, `min` and `mean` and never counts in a comparison. */
module Summary {
  import opened Wrappers
  import opened Stats

  type Column = seq<Option<int>>

  const DistinctionMark: int := 75
  const FullMark: int := 100

  /** The marks actually present in a column, in row order. */
  function Present(col: Column): (ps: seq<int>)
    ensures |ps| <= |col|
    ensures forall v :: v in ps <==> Some(v) in col
  {
    if col == [] then []
    else
      var rest := Present(col[1..]);
      assert forall c :: c in col <==> c == col[0] || c in col[1..];
      if col[0].Some? then [col[0].value] + rest else rest
  }

  function MaxOf(s: seq<int>): (m: int)
    requires |s| > 0
    ensures m in s && forall k :: 0 <= k < |s| ==> s[k] <= m
  {
    if |s| == 1 then s[0]
    else
      var m := MaxOf(s[1..]);
      assert forall k :: 1 <= k < |s| ==> s[k] == s[1..][k - 1];
      if s[0] >= m then s[0] else m
  }

  function MinOf(s: seq<int>): (m: int)
    requires |s| > 0
    ensures m in s && forall k :: 0 <= k < |s| ==> m <= s[k]
  {
    if |s| == 1 then s[0]
    else
      var m := MinOf(s[1..]);
      assert forall k :: 1 <= k < |s| ==> s[k] == s[1..][k - 1];
      if s[0] <= m then s[0] else m
  }

  /** `df[s].max()`: the largest present mark, if any. */
  function Highest(col: Column): (r: Option<int>)
    ensures r.Some? <==> exists v :: Some(v) in col
    ensures r.Some? ==> Some(r.value) in col && forall v :: Some(v) in col ==> v <= r.value
  {
    var ps := Present(col);
    if ps == [] then None
    else
      assert forall v :: v in ps ==> exists k :: 0 <= k < |ps| && ps[k] == v;
      Some(MaxOf(ps))
  }

  /** `df[s].min()`: the smallest present mark, if any. */
  function Lowest(col: Column): (r: Option<int>)
    ensures r.Some? <==> exists v :: Some(v) in col
    ensures r.Some? ==> Some(r.value) in col && forall v :: Some(v) in col ==> r.value <= v
  {
    var ps := Present(col);
    if ps == [] then None
    else
      assert forall v :: v in ps ==> exists k :: 0 <= k < |ps| && ps[k] == v;
      Some(MinOf(ps))
  }

  /** `df[s].mean()`: the mean of the present marks, if any. */
  function Average(col: Column): Option<real> {
    var ps := Present(col);
    if ps == [] then None else Some(Mean(ps))
  }

  /** `(df[s] >= t).sum()`. */
  function CountAtLeast(col: Column, t: int): (n: nat)
    ensures n <= |Present(col)|
  {
    if col == [] then 0
    else (if col[0].Some? && col[0].value >= t then 1 else 0) + CountAtLeast(col[1..], t)
  }

  /** `(df[s] == t).sum()`. */
  function CountEqual(col: Column, t: int): (n: nat)
    ensures n <= |Present(col)|
  {
    if col == [] then 0
    else (if col[0].Some? && col[0].value == t then 1 else 0) + CountEqual(col[1..], t)
  }

  function Distinctions(col: Column): nat {
    CountAtLeast(col, DistinctionMark)
  }

  function Centuries(col: Column): nat {
    CountEqual(col, FullMark)
  }

  /** `count(>= 75) * 100 / len(df)`: the share of all students, whether or
      not they took the subject. */
  function DistinctionPercent(col: Column): real
    requires |col| > 0
  {
    (Distinctions(col) * 100) as real / |col| as real
  }

  /** The highest mark is never below the lowest. */
  lemma HighestAtLeastLowest(col: Column)
    requires exists v :: Some(v) in col
    ensures Lowest(col).value <= Highest(col).value
  {
  }

  /** Mark at least `hi` implies mark at least `lo`, so the count can only
      grow when the threshold goes down. */
  lemma {:induction false} CountAtLeastMonotone(col: Column, lo: int, hi: int)
    requires lo <= hi
    ensures CountAtLeast(col, hi) <= CountAtLeast(col, lo)
  {
    if col != [] {
      CountAtLeastMonotone(col[1..], lo, hi);
    }
  }

  lemma {:induction false} CountEqualAtMostCountAtLeast(col: Column, t: int)
    ensures CountEqual(col, t) <= CountAtLeast(col, t)
  {
    if col != [] {
      CountEqualAtMostCountAtLeast(col[1..], t);
    }
  }

  /** Centuries are distinctions, and no subject has more distinctions than
      students. */
  lemma CenturiesWithinDistinctions(col: Column)
    ensures Centuries(col) <= Distinctions(col) <= |col|
  {
    CountEqualAtMostCountAtLeast(col, FullMark);
    CountAtLeastMonotone(col, DistinctionMark, FullMark);
  }

  /** The distinction percentage lies between 0 and 100. */
  lemma DistinctionPercentBounds(col: Column)
    requires |col| > 0
    ensures 0.0 <= DistinctionPercent(col) <= 100.0
  {
    CenturiesWithinDistinctions(col);
    var n := |col| as real;
    assert (Distinctions(col) * 100) as real <= 100.0 * n;
    DivLe((Distinctions(col) * 100) as real, 100.0, n);
  }

  /** The average lies between the lowest and the highest mark. */
  lemma AverageBetween(col: Column)
    requires exists v :: Some(v) in col
    ensures Average(col).Some?
    ensures Lowest(col).value as real <= Average(col).value <= Highest(col).value as real
  {
    var ps := Present(col);
    var lo := Lowest(col).value;
    var hi := Highest(col).value;
    assert Bounded(ps, lo, hi) by {
      forall k | 0 <= k < |ps| ensures lo <= ps[k] <= hi {
        assert ps[k] in ps;
      }
    }
    MeanBounds(ps, lo, hi);
  }
}
