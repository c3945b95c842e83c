/** The string operations the second version needs to order its columns:
    substring search, `str.replace(pat, "")`, Python's ordering of strings
    and `sorted(set(...))`. */
module Strings {

  /** `pat` occurs in `s` at position `i`. */
  predicate OccursAt(s: string, pat: string, i: nat) {
    i + |pat| <= |s| && s[i..i + |pat|] == pat
  }

  /** `pat in s`. */
  predicate Contains(s: string, pat: string) {
    exists i :: 0 <= i <= |s| && OccursAt(s, pat, i)
  }

  /** `s.replace(pat, "")`: the occurrences of `pat`, found left to right
      without overlap, removed. */
  function RemoveAll(s: string, pat: string): (r: string)
    requires pat != []
    ensures |r| <= |s|
    decreases |s|
  {
    if s == [] then []
    else if OccursAt(s, pat, 0) then RemoveAll(s[|pat|..], pat)
    else [s[0]] + RemoveAll(s[1..], pat)
  }

  /** Removing a pattern that does not occur leaves the string as it is. */
  lemma {:induction false} RemoveAbsent(s: string, pat: string)
    requires pat != [] && !Contains(s, pat)
    ensures RemoveAll(s, pat) == s
    decreases |s|
  {
    if s != [] {
      assert !OccursAt(s, pat, 0);
      forall i | 0 <= i <= |s[1..]| ensures !OccursAt(s[1..], pat, i) {
        if OccursAt(s[1..], pat, i) {
          assert s[i + 1..i + 1 + |pat|] == s[1..][i..i + |pat|];
          assert OccursAt(s, pat, i + 1);
        }
      }
      RemoveAbsent(s[1..], pat);
    }
  }

  /** With no occurrence of `pat` starting inside `name`, removing `pat`
      from `name + pat` gives `name` back. */
  lemma {:induction false} RemoveSuffix(name: string, pat: string)
    requires pat != []
    requires forall i :: 0 <= i < |name| ==> !OccursAt(name + pat, pat, i)
    ensures RemoveAll(name + pat, pat) == name
    decreases |name|
  {
    if name == [] {
      assert name + pat == pat;
      assert OccursAt(pat, pat, 0);
      assert pat[|pat|..] == [];
    } else {
      var s := name + pat;
      assert !OccursAt(s, pat, 0);
      assert s[1..] == name[1..] + pat;
      forall i | 0 <= i < |name[1..]| ensures !OccursAt(name[1..] + pat, pat, i) {
        if OccursAt(name[1..] + pat, pat, i) {
          assert s[i + 1..i + 1 + |pat|] == (name[1..] + pat)[i..i + |pat|];
          assert OccursAt(s, pat, i + 1);
        }
      }
      RemoveSuffix(name[1..], pat);
      assert s[0] == name[0];
      assert [name[0]] + name[1..] == name;
    }
  }

  // ---------------------------------------------------------------------
  // Python's order on strings
  // ---------------------------------------------------------------------

  /** `a < b` on Python strings: the first differing code point decides,
      and a proper prefix comes first. */
  predicate Less(a: string, b: string)
    decreases |a|
  {
    b != [] && (a == [] || a[0] < b[0] || (a[0] == b[0] && Less(a[1..], b[1..])))
  }

  lemma {:induction false} LessIrreflexive(a: string)
    ensures !Less(a, a)
    decreases |a|
  {
    if a != [] {
      LessIrreflexive(a[1..]);
    }
  }

  lemma {:induction false} LessTransitive(a: string, b: string, c: string)
    requires Less(a, b) && Less(b, c)
    ensures Less(a, c)
    decreases |a|
  {
    if a != [] && a[0] == b[0] && b[0] == c[0] {
      LessTransitive(a[1..], b[1..], c[1..]);
    }
  }

  /** Any two different strings are ordered one way or the other. */
  lemma {:induction false} LessTotal(a: string, b: string)
    ensures a == b || Less(a, b) || Less(b, a)
    decreases |a|
  {
    if a != [] && b != [] && a[0] == b[0] {
      LessTotal(a[1..], b[1..]);
      if a[1..] == b[1..] {
        assert a == [a[0]] + a[1..] && b == [b[0]] + b[1..];
      }
    }
  }

  predicate StrictlySorted(s: seq<string>) {
    forall i, j :: 0 <= i < j < |s| ==> Less(s[i], s[j])
  }

  /** A sequence led by `a` is strictly sorted when its tail is and every
      element of the tail comes after `a`. */
  lemma SortedCons(a: string, t: seq<string>)
    requires StrictlySorted(t) && forall y :: y in t ==> Less(a, y)
    ensures StrictlySorted([a] + t)
  {
    var s := [a] + t;
    forall i, j | 0 <= i < j < |s| ensures Less(s[i], s[j]) {
      if i == 0 {
        assert s[j] == t[j - 1];
      } else {
        assert s[i] == t[i - 1] && s[j] == t[j - 1];
      }
    }
  }

  /** `x` put into its place in a strictly sorted sequence, unless it is
      there already. */
  function InsertSorted(x: string, s: seq<string>): (r: seq<string>)
    requires StrictlySorted(s)
    ensures StrictlySorted(r)
    ensures forall y :: y in r <==> y == x || y in s
    decreases |s|
  {
    if s == [] then [x]
    else if x == s[0] then s
    else if Less(x, s[0]) then
      SortedAfter(x, s);
      SortedCons(x, s);
      [x] + s
    else
      var rest := InsertSorted(x, s[1..]);
      LessTotal(x, s[0]);
      assert forall y :: y in s[1..] ==> Less(s[0], y) by {
        forall y | y in s[1..] ensures Less(s[0], y) {
          var k :| 0 <= k < |s[1..]| && s[1..][k] == y;
          assert s[k + 1] == y;
        }
      }
      SortedCons(s[0], rest);
      assert forall y :: y in s <==> y == s[0] || y in s[1..];
      [s[0]] + rest
  }

  /** Everything in a strictly sorted sequence comes after whatever comes
      before its head. */
  lemma SortedAfter(x: string, s: seq<string>)
    requires StrictlySorted(s) && s != [] && Less(x, s[0])
    ensures forall y :: y in s ==> Less(x, y)
  {
    forall y | y in s ensures Less(x, y) {
      var k :| 0 <= k < |s| && s[k] == y;
      if k > 0 {
        LessTransitive(x, s[0], y);
      }
    }
  }

  /** `sorted(set(xs))`: the distinct elements of `xs` in increasing order. */
  function SortedSet(xs: seq<string>): (r: seq<string>)
    ensures StrictlySorted(r)
    ensures forall y :: y in r <==> y in xs
  {
    if xs == [] then []
    else
      var init := xs[..|xs| - 1];
      assert forall y :: y in xs <==> y in init || y == xs[|xs| - 1] by {
        assert xs == init + [xs[|xs| - 1]];
      }
      InsertSorted(xs[|xs| - 1], SortedSet(init))
  }

  /** Two strictly sorted sequences with the same elements are equal, so
      `SortedSet` depends only on the set of elements, as `sorted(set(...))`
      does. */
  lemma {:induction false} SortedUnique(r: seq<string>, t: seq<string>)
    requires StrictlySorted(r) && StrictlySorted(t)
    requires forall y :: y in r <==> y in t
    ensures r == t
    decreases |r|
  {
    if r == [] {
      assert forall k :: 0 <= k < |t| ==> t[k] !in r;
    } else {
      assert r[0] in t;
      assert t != [];
      assert t[0] in r;
      if r[0] != t[0] {
        var i :| 0 <= i < |r| && r[i] == t[0];
        var j :| 0 <= j < |t| && t[j] == r[0];
        assert Less(r[0], t[0]);
        assert Less(t[0], r[0]);
        LessTransitive(r[0], t[0], r[0]);
        LessIrreflexive(r[0]);
      }
      forall y ensures y in r[1..] <==> y in t[1..] {
        TailMembers(r, y);
        TailMembers(t, y);
      }
      SortedUnique(r[1..], t[1..]);
      assert r == [r[0]] + r[1..] && t == [t[0]] + t[1..];
    }
  }

  /** In a strictly sorted sequence the tail holds everything but the head. */
  lemma TailMembers(s: seq<string>, y: string)
    requires StrictlySorted(s) && s != []
    ensures y in s[1..] <==> y in s && y != s[0]
  {
    if y in s[1..] {
      var k :| 0 <= k < |s[1..]| && s[1..][k] == y;
      assert s[k + 1] == y;
      if y == s[0] {
        LessIrreflexive(y);
      }
    }
    if y in s && y != s[0] {
      var k :| 0 <= k < |s| && s[k] == y;
      assert s[1..][k - 1] == y;
    }
  }
}
