/**
 * `xs.sort((a, b) => key(b) - key(a))`: a descending sort by an integer key.
 * `Array.prototype.sort` is stable, so elements with equal keys keep their
 * input order; the model is a stable insertion sort.
 */
module Sorting {

  predicate NonIncreasing<T>(key: T -> int, s: seq<T>)
  {
    forall i, j :: 0 <= i < j < |s| ==> key(s[i]) >= key(s[j])
  }

  /** Places `x` before the first element whose key is not greater than its own. */
  function Insert<T(==)>(key: T -> int, x: T, s: seq<T>): (r: seq<T>)
    ensures multiset(r) == multiset(s) + multiset{x}
    decreases |s|
  {
    if s == [] || key(x) >= key(s[0]) then [x] + s
    else
      var r := [s[0]] + Insert(key, x, s[1..]);
      assert s == [s[0]] + s[1..];
      r
  }

  /** Inserting an element no larger than a bound into a bounded list keeps the bound. */
  lemma {:induction false} InsertBounded<T>(key: T -> int, x: T, s: seq<T>, b: int)
    requires key(x) <= b
    requires forall i :: 0 <= i < |s| ==> key(s[i]) <= b
    ensures forall i :: 0 <= i < |Insert(key, x, s)| ==> key(Insert(key, x, s)[i]) <= b
    decreases |s|
  {
    if s == [] || key(x) >= key(s[0]) {
      assert Insert(key, x, s) == [x] + s;
    } else {
      var t := Insert(key, x, s[1..]);
      InsertBounded(key, x, s[1..], b);
      assert Insert(key, x, s) == [s[0]] + t;
    }
  }

  lemma {:induction false} InsertSorted<T>(key: T -> int, x: T, s: seq<T>)
    requires NonIncreasing(key, s)
    ensures NonIncreasing(key, Insert(key, x, s))
    decreases |s|
  {
    if !(s == [] || key(x) >= key(s[0])) {
      var t := Insert(key, x, s[1..]);
      assert NonIncreasing(key, s[1..]);
      InsertSorted(key, x, s[1..]);
      InsertBounded(key, x, s[1..], key(s[0]));
      var r := [s[0]] + t;
      assert r == Insert(key, x, s);
      forall i, j | 0 <= i < j < |r| ensures key(r[i]) >= key(r[j]) {
        assert r[j] == t[j - 1];
        if i > 0 {
          assert r[i] == t[i - 1];
        }
      }
    }
  }

  /** The stable descending sort: a permutation of its input, ordered by `key`. */
  function SortDesc<T(==)>(key: T -> int, xs: seq<T>): (r: seq<T>)
    ensures multiset(r) == multiset(xs)
    ensures NonIncreasing(key, r)
    decreases |xs|
  {
    if xs == [] then []
    else
      var rest := SortDesc(key, xs[1..]);
      InsertSorted(key, xs[0], rest);
      assert xs == [xs[0]] + xs[1..];
      Insert(key, xs[0], rest)
  }

  /** The elements whose key is `k`, in order. */
  function WithKey<T>(key: T -> int, xs: seq<T>, k: int): seq<T>
    decreases |xs|
  {
    if xs == [] then []
    else (if key(xs[0]) == k then [xs[0]] else []) + WithKey(key, xs[1..], k)
  }

  /** `WithKey` of a list with one element in front. */
  lemma WithKeyCons<T>(key: T -> int, y: T, s: seq<T>, k: int)
    ensures WithKey(key, [y] + s, k) == (if key(y) == k then [y] else []) + WithKey(key, s, k)
  {
    assert ([y] + s)[1..] == s;
  }

  /**
   * Putting `y` in front of two lists whose `k`-keyed parts differ by a
   * leading `x` keeps that difference, when `x`'s key is below `y`'s.
   */
  lemma StableStep<T>(key: T -> int, x: T, y: T, t: seq<T>, rest: seq<T>, k: int)
    requires key(x) < key(y)
    requires WithKey(key, t, k) == (if key(x) == k then [x] else []) + WithKey(key, rest, k)
    ensures WithKey(key, [y] + t, k) == (if key(x) == k then [x] else []) + WithKey(key, [y] + rest, k)
  {
    WithKeyCons(key, y, t, k);
    WithKeyCons(key, y, rest, k);
    if key(x) == k {
      assert key(y) != k;
    }
  }

  lemma {:induction false} InsertStable<T>(key: T -> int, x: T, s: seq<T>, k: int)
    ensures WithKey(key, Insert(key, x, s), k) == (if key(x) == k then [x] else []) + WithKey(key, s, k)
    decreases |s|
  {
    if s == [] || key(x) >= key(s[0]) {
      assert Insert(key, x, s) == [x] + s;
      WithKeyCons(key, x, s, k);
    } else {
      var t := Insert(key, x, s[1..]);
      InsertStable(key, x, s[1..], k);
      assert Insert(key, x, s) == [s[0]] + t;
      assert s == [s[0]] + s[1..];
      StableStep(key, x, s[0], t, s[1..], k);
    }
  }

  /** Stability: among equal keys the sort keeps the input order. */
  lemma {:induction false} SortStable<T>(key: T -> int, xs: seq<T>, k: int)
    ensures WithKey(key, SortDesc(key, xs), k) == WithKey(key, xs, k)
    decreases |xs|
  {
    if xs != [] {
      SortStable(key, xs[1..], k);
      InsertStable(key, xs[0], SortDesc(key, xs[1..]), k);
    }
  }
}
