/** Python's `dict` with string keys, as the parser fills a student row:
    entries keep insertion order, and assigning to a key that is already
    there replaces its value in place, keeping its position. */
module OrderedDict {
  import opened Wrappers

  type Dict<V> = seq<(string, V)>

  function Keys<V>(d: Dict<V>): (ks: seq<string>)
    ensures |ks| == |d| && forall i :: 0 <= i < |d| ==> ks[i] == d[i].0
  {
    if d == [] then [] else [d[0].0] + Keys(d[1..])
  }

  lemma KeysCons<V>(e: (string, V), d: Dict<V>)
    ensures Keys([e] + d) == [e.0] + Keys(d)
  {
    assert ([e] + d)[1..] == d;
  }

  predicate DistinctKeys<V>(d: Dict<V>) {
    d == [] || (d[0].0 !in Keys(d[1..]) && DistinctKeys(d[1..]))
  }

  /** `d.get(key)`. */
  function Get<V>(d: Dict<V>, key: string): (r: Option<V>)
    ensures r.None? <==> key !in Keys(d)
    ensures r.Some? ==> exists i :: 0 <= i < |d| && d[i] == (key, r.value)
  {
    if d == [] then None
    else if d[0].0 == key then Some(d[0].1)
    else
      var r := Get(d[1..], key);
      assert r.Some? ==> exists i :: 0 <= i < |d[1..]| && d[1..][i] == (key, r.value);
      r
  }

  /** `d[key] = v`: the value of an existing key is replaced where it
      stands, a new key goes at the end. */
  function Put<V>(d: Dict<V>, key: string, v: V): (r: Dict<V>)
    ensures Get(r, key) == Some(v)
    ensures key in Keys(d) ==> Keys(r) == Keys(d)
    ensures key !in Keys(d) ==> Keys(r) == Keys(d) + [key]
  {
    if d == [] then [(key, v)]
    else if d[0].0 == key then
      KeysCons(d[0], d[1..]);
      KeysCons((key, v), d[1..]);
      [(key, v)] + d[1..]
    else
      var t := Put(d[1..], key, v);
      KeysCons(d[0], d[1..]);
      KeysCons(d[0], t);
      assert ([d[0]] + t)[1..] == t;
      [d[0]] + t
  }

  /** Assigning one key leaves every other key's value as it was. */
  lemma {:induction false} PutOther<V>(d: Dict<V>, key: string, v: V, k: string)
    requires k != key
    ensures Get(Put(d, key, v), k) == Get(d, k)
  {
    if d != [] && d[0].0 != key {
      PutOther(d[1..], key, v, k);
      assert Put(d, key, v)[1..] == Put(d[1..], key, v);
    }
  }

  /** An assignment never creates a second entry for a key. */
  lemma {:induction false} PutDistinct<V>(d: Dict<V>, key: string, v: V)
    requires DistinctKeys(d)
    ensures DistinctKeys(Put(d, key, v))
  {
    if d != [] && d[0].0 != key {
      PutDistinct(d[1..], key, v);
      assert Put(d, key, v)[1..] == Put(d[1..], key, v);
    } else if d != [] {
      assert Put(d, key, v)[1..] == d[1..];
    }
  }

  /** The dict after the assignments `d[k] = v` for each `(k, v)` of `es`, in order. */
  function PutAll<V>(d: Dict<V>, es: seq<(string, V)>): Dict<V>
    decreases |es|
  {
    if es == [] then d else Put(PutAll(d, es[..|es| - 1]), es[|es| - 1].0, es[|es| - 1].1)
  }

  /** The value of the last assignment to `key` in `es`. */
  function LastValue<V>(es: seq<(string, V)>, key: string): Option<V>
    decreases |es|
  {
    if es == [] then None
    else if es[|es| - 1].0 == key then Some(es[|es| - 1].1)
    else LastValue(es[..|es| - 1], key)
  }

  /** Keys in order of first appearance. */
  function FirstAppearance(ks: seq<string>): seq<string>
    decreases |ks|
  {
    if ks == [] then []
    else
      var prefix := FirstAppearance(ks[..|ks| - 1]);
      if ks[|ks| - 1] in prefix then prefix else prefix + [ks[|ks| - 1]]
  }

  /** After a run of assignments, each key holds the value of its last
      assignment, and keys never assigned keep their old value. */
  lemma {:induction false} PutAllGet<V>(d: Dict<V>, es: seq<(string, V)>, key: string)
    ensures Get(PutAll(d, es), key) == if LastValue(es, key).Some? then LastValue(es, key) else Get(d, key)
    decreases |es|
  {
    if es != [] {
      PutAllGet(d, es[..|es| - 1], key);
      if es[|es| - 1].0 != key {
        PutOther(PutAll(d, es[..|es| - 1]), es[|es| - 1].0, es[|es| - 1].1, key);
      }
    }
  }

  /** Assignments never produce two entries with the same key. */
  lemma {:induction false} PutAllDistinct<V>(d: Dict<V>, es: seq<(string, V)>)
    requires DistinctKeys(d)
    ensures DistinctKeys(PutAll(d, es))
    decreases |es|
  {
    if es != [] {
      PutAllDistinct(d, es[..|es| - 1]);
      PutDistinct(PutAll(d, es[..|es| - 1]), es[|es| - 1].0, es[|es| - 1].1);
    }
  }

  /** Starting from an empty dict, the keys are the assigned labels, each
      at the position of its first assignment. */
  lemma {:induction false} PutAllKeys<V>(es: seq<(string, V)>)
    ensures Keys(PutAll([], es)) == FirstAppearance(Keys(es))
    decreases |es|
  {
    if es != [] {
      var init := es[..|es| - 1];
      var last := es[|es| - 1];
      PutAllKeys(init);
      assert Keys(es)[..|es| - 1] == Keys(init);
      PutAllGet([], init, last.0);
      LastValueIn(init, last.0);
      FirstAppearanceMembers(Keys(init), last.0);
    }
  }

  lemma {:induction false} LastValueIn<V>(es: seq<(string, V)>, key: string)
    ensures LastValue(es, key).Some? <==> key in Keys(es)
    decreases |es|
  {
    if es != [] {
      LastValueIn(es[..|es| - 1], key);
      assert Keys(es) == Keys(es[..|es| - 1]) + [es[|es| - 1].0];
    }
  }

  lemma {:induction false} FirstAppearanceMembers(ks: seq<string>, k: string)
    ensures k in FirstAppearance(ks) <==> k in ks
    decreases |ks|
  {
    if ks != [] {
      FirstAppearanceMembers(ks[..|ks| - 1], k);
      assert ks == ks[..|ks| - 1] + [ks[|ks| - 1]];
    }
  }

  function Values<V>(d: Dict<V>): (vs: seq<V>)
    ensures |vs| == |d| && forall i :: 0 <= i < |d| ==> vs[i] == d[i].1
  {
    if d == [] then [] else [d[0].1] + Values(d[1..])
  }

  /** The entries of `d` whose key is in `labels`, in order. */
  function Restrict<V>(d: Dict<V>, labels: set<string>): (r: Dict<V>)
    ensures |r| <= |d|
    ensures forall k :: k in Keys(r) <==> k in Keys(d) && k in labels
  {
    if d == [] then []
    else
      var rest := Restrict(d[1..], labels);
      assert Keys(d) == [d[0].0] + Keys(d[1..]);
      if d[0].0 in labels then
        assert Keys([d[0]] + rest) == [d[0].0] + Keys(rest);
        [d[0]] + rest
      else rest
  }

  /** `[v for k, v in d.items() if k in labels]`. */
  function ValuesWhere<V>(d: Dict<V>, labels: set<string>): seq<V> {
    Values(Restrict(d, labels))
  }

  /** Restricting after an assignment is the assignment (if its key is kept)
      applied to the restriction. */
  lemma {:induction false} RestrictPut<V>(d: Dict<V>, key: string, v: V, labels: set<string>)
    ensures Restrict(Put(d, key, v), labels) == if key in labels then Put(Restrict(d, labels), key, v) else Restrict(d, labels)
  {
    if d == [] {
      RestrictCons((key, v), [], labels);
    } else if d[0].0 != key {
      RestrictPut(d[1..], key, v, labels);
      RestrictPutPast(d[0], d[1..], key, v, labels);
      assert d == [d[0]] + d[1..];
    } else {
      RestrictPutHere(d[0], d[1..], v, labels);
      assert d == [d[0]] + d[1..];
    }
  }

  /** The step of `RestrictPut` past an entry with another key. */
  lemma RestrictPutPast<V>(e: (string, V), d: Dict<V>, key: string, v: V, labels: set<string>)
    requires e.0 != key
    requires Restrict(Put(d, key, v), labels) == if key in labels then Put(Restrict(d, labels), key, v) else Restrict(d, labels)
    ensures Restrict(Put([e] + d, key, v), labels) == if key in labels then Put(Restrict([e] + d, labels), key, v) else Restrict([e] + d, labels)
  {
    PutCons(e, d, key, v);
    RestrictCons(e, Put(d, key, v), labels);
    RestrictCons(e, d, labels);
    if e.0 in labels && key in labels {
      PutCons(e, Restrict(d, labels), key, v);
    }
  }

  /** The step of `RestrictPut` at the entry with the assigned key. */
  lemma RestrictPutHere<V>(e: (string, V), d: Dict<V>, v: V, labels: set<string>)
    ensures Restrict(Put([e] + d, e.0, v), labels) == if e.0 in labels then Put(Restrict([e] + d, labels), e.0, v) else Restrict([e] + d, labels)
  {
    PutHead(e, d, v);
    RestrictCons((e.0, v), d, labels);
    RestrictCons(e, d, labels);
    if e.0 in labels {
      PutHead(e, Restrict(d, labels), v);
    }
  }

  lemma PutCons<V>(e: (string, V), d: Dict<V>, key: string, v: V)
    requires e.0 != key
    ensures Put([e] + d, key, v) == [e] + Put(d, key, v)
  {
    assert ([e] + d)[1..] == d;
  }

  lemma PutHead<V>(e: (string, V), d: Dict<V>, v: V)
    ensures Put([e] + d, e.0, v) == [(e.0, v)] + d
  {
    assert ([e] + d)[1..] == d;
  }

  lemma RestrictCons<V>(e: (string, V), d: Dict<V>, labels: set<string>)
    ensures Restrict([e] + d, labels) == if e.0 in labels then [e] + Restrict(d, labels) else Restrict(d, labels)
  {
    assert ([e] + d)[1..] == d;
  }

  /** The assignments whose key is in `labels`, in order. */
  function Only<V>(es: seq<(string, V)>, labels: set<string>): (r: seq<(string, V)>)
    ensures |r| <= |es|
    decreases |es|
  {
    if es == [] then []
    else Only(es[..|es| - 1], labels) + (if es[|es| - 1].0 in labels then [es[|es| - 1]] else [])
  }

  /** Which values end up under the kept keys depends only on the
      assignments to kept keys: assignments to other keys are invisible. */
  lemma {:induction false} RestrictPutAll<V>(d: Dict<V>, es: seq<(string, V)>, labels: set<string>)
    ensures Restrict(PutAll(d, es), labels) == PutAll(Restrict(d, labels), Only(es, labels))
    decreases |es|
  {
    if es != [] {
      var init := es[..|es| - 1];
      var last := es[|es| - 1];
      RestrictPutAll(d, init, labels);
      RestrictPut(PutAll(d, init), last.0, last.1, labels);
      if last.0 in labels {
        var o := Only(es, labels);
        assert o == Only(init, labels) + [last];
        assert o[..|o| - 1] == Only(init, labels);
      } else {
        assert Only(es, labels) == Only(init, labels);
      }
    }
  }

  /** An assignment's values are the new value and values already present. */
  lemma {:induction false} PutValuesFrom<V>(d: Dict<V>, key: string, v: V)
    ensures forall x :: x in Values(Put(d, key, v)) ==> x == v || x in Values(d)
  {
    if d != [] && d[0].0 != key {
      PutValuesFrom(d[1..], key, v);
      assert Values(Put(d, key, v)) == [d[0].1] + Values(Put(d[1..], key, v));
      assert Values(d) == [d[0].1] + Values(d[1..]);
    } else if d != [] {
      assert Values(Put(d, key, v)) == [v] + Values(d[1..]);
      assert Values(d) == [d[0].1] + Values(d[1..]);
    }
  }

  /** Restricting keeps a subset of the values. */
  lemma {:induction false} RestrictValuesFrom<V>(d: Dict<V>, labels: set<string>)
    ensures forall x :: x in Values(Restrict(d, labels)) ==> x in Values(d)
  {
    if d != [] {
      RestrictValuesFrom(d[1..], labels);
      assert Values(d) == [d[0].1] + Values(d[1..]);
      if d[0].0 in labels {
        assert Values(Restrict(d, labels)) == [d[0].1] + Values(Restrict(d[1..], labels));
      }
    }
  }

  /** Every value in the dict was assigned by one of the assignments. */
  lemma {:induction false} PutAllValuesFrom<V>(es: seq<(string, V)>)
    ensures forall x :: x in Values(PutAll([], es)) ==> exists j :: 0 <= j < |es| && es[j].1 == x
    decreases |es|
  {
    if es != [] {
      var init := es[..|es| - 1];
      PutAllValuesFrom(init);
      PutValuesFrom(PutAll([], init), es[|es| - 1].0, es[|es| - 1].1);
      forall x | x in Values(PutAll([], es)) ensures exists j :: 0 <= j < |es| && es[j].1 == x {
        if x != es[|es| - 1].1 {
          var j :| 0 <= j < |init| && init[j].1 == x;
          assert es[j].1 == x;
        }
      }
    }
  }

  /** Running two batches of assignments is running them as one batch:
      this is `dict.update` after item-by-item assignment. */
  lemma {:induction false} PutAllAppend<V>(d: Dict<V>, a: seq<(string, V)>, b: seq<(string, V)>)
    ensures PutAll(d, a + b) == PutAll(PutAll(d, a), b)
    decreases |b|
  {
    if b == [] {
      assert a + b == a;
    } else {
      var ab := a + b;
      var init := b[..|b| - 1];
      var last := b[|b| - 1];
      assert ab[..|ab| - 1] == a + init;
      assert ab[|ab| - 1] == last;
      PutAllLast(d, ab);
      PutAllAppend(d, a, init);
      PutAllLast(PutAll(d, a), b);
    }
  }

  /** One more assignment at the end is one more `Put`. */
  lemma PutAllSnoc<V>(d: Dict<V>, es: seq<(string, V)>, e: (string, V))
    ensures PutAll(d, es + [e]) == Put(PutAll(d, es), e.0, e.1)
  {
    assert (es + [e])[..|es|] == es;
  }

  lemma PutAllLast<V>(d: Dict<V>, es: seq<(string, V)>)
    requires es != []
    ensures PutAll(d, es) == Put(PutAll(d, es[..|es| - 1]), es[|es| - 1].0, es[|es| - 1].1)
  {
  }

  /** A property every assignment to `key` has, the value it ends up
      with has. */
  lemma {:induction false} LastValueWhere<V>(es: seq<(string, V)>, key: string, p: V -> bool)
    requires key in Keys(es)
    requires forall j :: 0 <= j < |es| && es[j].0 == key ==> p(es[j].1)
    ensures LastValue(es, key).Some? && p(LastValue(es, key).value)
    decreases |es|
  {
    var last := es[|es| - 1];
    if last.0 != key {
      var init := es[..|es| - 1];
      assert Keys(es) == Keys(init) + [last.0];
      LastValueWhere(init, key, p);
    }
  }

  /** Building a dict from the assignments, `key` ends up holding a value
      with every property all the assignments to it have. */
  lemma PutAllWhere<V>(es: seq<(string, V)>, key: string, p: V -> bool)
    requires key in Keys(es)
    requires forall j :: 0 <= j < |es| && es[j].0 == key ==> p(es[j].1)
    ensures Get(PutAll([], es), key).Some? && p(Get(PutAll([], es), key).value)
  {
    LastValueWhere(es, key, p);
    PutAllGet([], es, key);
  }

  /** Assignments in three runs, of which only the middle one writes `key`. */
  lemma MiddleWhere<V>(x: seq<(string, V)>, y: seq<(string, V)>, z: seq<(string, V)>, key: string, p: V -> bool)
    requires forall j :: 0 <= j < |x| ==> x[j].0 != key
    requires forall j :: 0 <= j < |z| ==> z[j].0 != key
    requires forall j :: 0 <= j < |y| && y[j].0 == key ==> p(y[j].1)
    ensures forall j :: 0 <= j < |x + y + z| && (x + y + z)[j].0 == key ==> p((x + y + z)[j].1)
  {
    var es := x + y + z;
    forall j | 0 <= j < |es| && es[j].0 == key ensures p(es[j].1) {
      if |x| <= j < |x| + |y| {
        assert es[j] == y[j - |x|];
      }
    }
  }

  /** The value of the last assignment to `key` is the one the dict holds. */
  lemma {:induction false} PutAllGetLast<V>(d: Dict<V>, es: seq<(string, V)>, key: string, pos: nat)
    requires pos < |es| && es[pos].0 == key
    requires forall j :: pos < j < |es| ==> es[j].0 != key
    ensures Get(PutAll(d, es), key) == Some(es[pos].1)
    decreases |es|
  {
    PutAllGet(d, es, key);
    if pos < |es| - 1 {
      var init := es[..|es| - 1];
      PutAllGetLast(d, init, key, pos);
      PutAllGet(d, init, key);
    }
  }

  /** An assignment in the final run that no later one overrides decides
      the value. */
  lemma SuffixWins<V>(before: seq<(string, V)>, u: seq<(string, V)>, pos: nat)
    requires pos < |u| && forall j :: pos < j < |u| ==> u[j].0 != u[pos].0
    ensures Get(PutAll([], before + u), u[pos].0) == Some(u[pos].1)
  {
    var es := before + u;
    assert es[|before| + pos] == u[pos];
    forall j | |before| + pos < j < |es| ensures es[j].0 != u[pos].0 {
      assert es[j] == u[j - |before|];
    }
    PutAllGetLast([], es, u[pos].0, |before| + pos);
  }

  /** A key of a dict built from three runs of assignments is assigned in
      one of them. */
  lemma KeyOfParts<V>(x: seq<(string, V)>, y: seq<(string, V)>, z: seq<(string, V)>, c: string)
    requires c in Keys(PutAll([], x + y + z))
    ensures c in Keys(x) || c in Keys(y) || c in Keys(z)
  {
    PutAllKeyIff(x + y + z, c);
    KeysAppend(x + y, z);
    KeysAppend(x, y);
    assert c in Keys(x) + Keys(y) + Keys(z);
  }

  /** A key of a dict built from assignments is exactly a key assigned. */
  lemma PutAllKeyIff<V>(es: seq<(string, V)>, c: string)
    ensures c in Keys(PutAll([], es)) <==> c in Keys(es)
  {
    PutAllKeys(es);
    FirstAppearanceMembers(Keys(es), c);
  }

  lemma KeysAppend<V>(a: Dict<V>, b: Dict<V>)
    ensures Keys(a + b) == Keys(a) + Keys(b)
  {
    assert forall i :: 0 <= i < |a| + |b| ==> Keys(a + b)[i] == (Keys(a) + Keys(b))[i];
  }

  /** An assignment of the middle run that no later one in it overrides,
      with no assignment to its key in the last run, decides the value. */
  lemma MiddleWins<V>(x: seq<(string, V)>, y: seq<(string, V)>, z: seq<(string, V)>, pos: nat)
    requires pos < |y| && forall j :: pos < j < |y| ==> y[j].0 != y[pos].0
    requires forall j :: 0 <= j < |z| ==> z[j].0 != y[pos].0
    ensures Get(PutAll([], x + y + z), y[pos].0) == Some(y[pos].1)
  {
    var es := x + y + z;
    assert es[|x| + pos] == y[pos];
    forall j | |x| + pos < j < |es| ensures es[j].0 != y[pos].0 {
      if j < |x| + |y| {
        assert es[j] == y[j - |x|];
      } else {
        assert es[j] == z[j - |x| - |y|];
      }
    }
    PutAllGetLast([], es, y[pos].0, |x| + pos);
  }
}
