/**
 * Sequence operations the queries are built from: WHERE as a filter,
 * ORDER BY ... DESC as a stable descending sort on an integer key,
 * LIMIT/OFFSET as a window, and SUM over amounts.
 */
module Seqs {

  function Filter<T(!new)>(s: seq<T>, keep: T -> bool): (r: seq<T>)
    ensures |r| <= |s|
    ensures forall x :: x in r <==> x in s && keep(x)
  {
    if s == [] then []
    else
      assert s == [s[0]] + s[1..];
      (if keep(s[0]) then [s[0]] else []) + Filter(s[1..], keep)
  }

  /** The filter keeps every copy of a kept value and drops every copy of the others. */
  lemma {:induction false} FilterCounts<T(!new)>(s: seq<T>, keep: T -> bool)
    ensures forall x :: multiset(Filter(s, keep))[x] == if keep(x) then multiset(s)[x] else 0
  {
    if s != [] {
      FilterCounts(s[1..], keep);
      assert s == [s[0]] + s[1..];
      assert Filter(s, keep) == (if keep(s[0]) then [s[0]] else []) + Filter(s[1..], keep);
    }
  }

  /** Filtering a sequence with a known first element: that element is kept or dropped, then the rest is filtered. */
  lemma FilterCons<T(!new)>(x: T, t: seq<T>, keep: T -> bool)
    ensures Filter([x] + t, keep) == (if keep(x) then [x] else []) + Filter(t, keep)
  {
    assert ([x] + t)[0] == x && ([x] + t)[1..] == t;
  }

  predicate SortedDesc<T>(s: seq<T>, key: T -> int) {
    forall i, j :: 0 <= i < j < |s| ==> key(s[i]) >= key(s[j])
  }

  /** Puts `x` in front of the first element whose key is not larger than its own. */
  function InsertDesc<T(!new)>(x: T, s: seq<T>, key: T -> int): (r: seq<T>)
    requires SortedDesc(s, key)
    ensures SortedDesc(r, key)
    ensures multiset(r) == multiset(s) + multiset{x}
    ensures |r| == |s| + 1
    ensures r[0] == x || (s != [] && r[0] == s[0])
  {
    if s == [] || key(x) >= key(s[0]) then [x] + s
    else
      var rest := InsertDesc(x, s[1..], key);
      assert s == [s[0]] + s[1..];
      assert key(s[0]) >= key(rest[0]);
      [s[0]] + rest
  }

  /** A stable sort by non-increasing key: a permutation of `s` in which keys never increase. */
  function SortDesc<T(!new)>(s: seq<T>, key: T -> int): (r: seq<T>)
    ensures SortedDesc(r, key)
    ensures multiset(r) == multiset(s)
    ensures |r| == |s|
  {
    if s == [] then []
    else
      assert s == [s[0]] + s[1..];
      InsertDesc(s[0], SortDesc(s[1..], key), key)
  }

  /** LIMIT `limit` OFFSET `offset`: the rows after the first `offset`, at most `limit` of them. */
  function Window<T>(s: seq<T>, offset: nat, limit: nat): (r: seq<T>)
    ensures |r| == if offset >= |s| then 0 else Min(limit, |s| - offset)
    ensures forall i :: 0 <= i < |r| ==> r[i] == s[offset + i]
  {
    if offset >= |s| then [] else s[offset..offset + Min(limit, |s| - offset)]
  }

  function Min(a: int, b: int): int {
    if a <= b then a else b
  }

  function Max(a: int, b: int): int {
    if a >= b then a else b
  }

  function Sum(xs: seq<real>): real {
    if xs == [] then 0.0 else Sum(xs[..|xs| - 1]) + xs[|xs| - 1]
  }

  function SumInt(xs: seq<int>): int {
    if xs == [] then 0 else SumInt(xs[..|xs| - 1]) + xs[|xs| - 1]
  }

  lemma {:induction false} SumAppend(a: seq<real>, b: seq<real>)
    ensures Sum(a + b) == Sum(a) + Sum(b)
    decreases |b|
  {
    if b == [] {
      assert a + b == a;
    } else {
      assert (a + b)[..|a + b| - 1] == a + b[..|b| - 1];
      SumAppend(a, b[..|b| - 1]);
    }
  }

  lemma {:induction false} SumIntAppend(a: seq<int>, b: seq<int>)
    ensures SumInt(a + b) == SumInt(a) + SumInt(b)
    decreases |b|
  {
    if b == [] {
      assert a + b == a;
    } else {
      assert (a + b)[..|a + b| - 1] == a + b[..|b| - 1];
      SumIntAppend(a, b[..|b| - 1]);
    }
  }

  /** Consecutive windows tile: a page of `a` rows followed by the next `b` rows is the page of `a + b` rows. */
  lemma WindowsTile<T>(s: seq<T>, offset: nat, a: nat, b: nat)
    ensures Window(s, offset, a) + Window(s, offset + a, b) == Window(s, offset, a + b)
  {
  }

  predicate NoDuplicates<T(==)>(s: seq<T>) {
    forall i, j :: 0 <= i < j < |s| ==> s[i] != s[j]
  }

  /** The distinct values of `s`, each kept at its first appearance. */
  function Distinct<T(==,!new)>(s: seq<T>): (r: seq<T>)
    ensures forall x :: x in r <==> x in s
    ensures NoDuplicates(r)
  {
    if s == [] then []
    else
      var prefix := Distinct(s[..|s| - 1]);
      var x := s[|s| - 1];
      assert s == s[..|s| - 1] + [x];
      if x in prefix then prefix else prefix + [x]
  }

  lemma {:induction false} NoDuplicatesCount<T>(s: seq<T>, v: T)
    requires NoDuplicates(s)
    ensures multiset(s)[v] <= 1
    decreases |s|
  {
    if s != [] {
      assert s == [s[0]] + s[1..];
      NoDuplicatesCount(s[1..], v);
      if s[0] == v {
        assert v !in s[1..] by {
          forall k | 0 <= k < |s[1..]| ensures s[1..][k] != v {
            assert s[1..][k] == s[k + 1];
          }
        }
      }
    }
  }

  /** The tail of a sequence without duplicates has none, and does not hold the head. */
  lemma TailNoDuplicates<T>(s: seq<T>)
    requires s != [] && NoDuplicates(s)
    ensures NoDuplicates(s[1..]) && s[0] !in s[1..]
  {
    forall i, j | 0 <= i < j < |s[1..]| ensures s[1..][i] != s[1..][j] {
      assert s[1..][i] == s[i + 1] && s[1..][j] == s[j + 1];
    }
    forall k | 0 <= k < |s[1..]| ensures s[1..][k] != s[0] {
      assert s[1..][k] == s[k + 1];
    }
  }

  /** Putting a new value in front of a sequence without duplicates keeps it so. */
  lemma ConsNoDuplicates<T>(x: T, t: seq<T>)
    requires NoDuplicates(t) && x !in t
    ensures NoDuplicates([x] + t)
  {
    var r := [x] + t;
    forall i, j | 0 <= i < j < |r| ensures r[i] != r[j] {
      assert r[j] == t[j - 1];
      if i > 0 {
        assert r[i] == t[i - 1];
      }
    }
  }

  /** Dropping elements never creates a duplicate. */
  lemma {:induction false} FilterKeepsNoDuplicates<T(!new)>(s: seq<T>, keep: T -> bool)
    requires NoDuplicates(s)
    ensures NoDuplicates(Filter(s, keep))
    decreases |s|
  {
    if s != [] {
      TailNoDuplicates(s);
      FilterKeepsNoDuplicates(s[1..], keep);
      var tail := Filter(s[1..], keep);
      if keep(s[0]) {
        ConsNoDuplicates(s[0], tail);
      }
    }
  }

  /** A permutation of a sequence without duplicates has none either. */
  lemma PermutationKeepsNoDuplicates<T>(a: seq<T>, b: seq<T>)
    requires NoDuplicates(a) && multiset(a) == multiset(b)
    ensures NoDuplicates(b)
  {
    forall i, j | 0 <= i < j < |b| ensures b[i] != b[j] {
      if b[i] == b[j] {
        var v := b[i];
        assert b == b[..i] + [v] + b[i + 1..j] + [v] + b[j + 1..];
        assert multiset(b)[v] >= 2;
        NoDuplicatesCount(a, v);
        assert false;
      }
    }
  }

  /** Raising one element by `d` raises the sum by `d`. */
  lemma {:induction false} SumPointwise(a: seq<real>, b: seq<real>, k: nat, d: real)
    requires |a| == |b| && k < |a| && b[k] == a[k] + d
    requires forall i :: 0 <= i < |a| && i != k ==> a[i] == b[i]
    ensures Sum(b) == Sum(a) + d
    decreases |a|
  {
    var n := |a|;
    if k == n - 1 {
      assert a[..n - 1] == b[..n - 1];
    } else {
      SumPointwise(a[..n - 1], b[..n - 1], k, d);
    }
  }

  lemma {:induction false} SumIntPointwise(a: seq<int>, b: seq<int>, k: nat, d: int)
    requires |a| == |b| && k < |a| && b[k] == a[k] + d
    requires forall i :: 0 <= i < |a| && i != k ==> a[i] == b[i]
    ensures SumInt(b) == SumInt(a) + d
    decreases |a|
  {
    var n := |a|;
    if k == n - 1 {
      assert a[..n - 1] == b[..n - 1];
    } else {
      SumIntPointwise(a[..n - 1], b[..n - 1], k, d);
    }
  }
}
