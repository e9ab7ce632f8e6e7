/**
 * `Array.prototype.sort`, which is stable: an insertion sort by a strict
 * "comes before" relation, used with an integer key (descending, as in
 * `sort((a, b) => b.x - a.x)`) and with string orderings (`localeCompare`,
 * the default `sort()`).
 */
module Sorting {
  import opened Lists

  /** Inserts `x` before the first element that does not come before it. */
  function InsertBy<T>(x: T, s: seq<T>, before: (T, T) -> bool): (r: seq<T>)
    ensures |r| == |s| + 1
    ensures multiset(r) == multiset(s) + multiset{x}
  {
    if s == [] then [x]
    else if before(s[0], x) then
      assert s == [s[0]] + s[1..];
      [s[0]] + InsertBy(x, s[1..], before)
    else [x] + s
  }

  /** The sort: each element is placed, from the last to the first, into the sorted rest. */
  function SortBy<T>(s: seq<T>, before: (T, T) -> bool): (r: seq<T>)
    ensures |r| == |s|
    ensures multiset(r) == multiset(s)
  {
    if s == [] then []
    else
      assert s == [s[0]] + s[1..];
      InsertBy(s[0], SortBy(s[1..], before), before)
  }

  /** `before` is a strict total order on the values of `s`. */
  predicate StrictTotalOn<T(==)>(s: seq<T>, before: (T, T) -> bool) {
    (forall a :: a in s ==> !before(a, a))
    && (forall a, b :: a in s && b in s && a != b ==> before(a, b) || before(b, a))
    && (forall a, b, c :: a in s && b in s && c in s && before(a, b) && before(b, c) ==> before(a, c))
  }

  predicate StrictlySorted<T>(s: seq<T>, before: (T, T) -> bool) {
    forall i, j :: 0 <= i < j < |s| ==> before(s[i], s[j])
  }

  lemma {:induction false} InsertStrict<T>(x: T, t: seq<T>, before: (T, T) -> bool, all: seq<T>)
    requires StrictTotalOn(all, before)
    requires x in all && forall i :: 0 <= i < |t| ==> t[i] in all && t[i] != x
    requires StrictlySorted(t, before)
    ensures StrictlySorted(InsertBy(x, t, before), before)
  {
    if t == [] {
    } else if before(t[0], x) {
      InsertStrict(x, t[1..], before, all);
      var rest := InsertBy(x, t[1..], before);
      forall j | 0 <= j < |rest| ensures before(t[0], rest[j]) {
        assert rest[j] in multiset(t[1..]) + multiset{x};
        if rest[j] != x {
          var k :| 0 <= k < |t[1..]| && t[1..][k] == rest[j];
          assert t[k + 1] == rest[j];
        }
      }
    } else {
      assert t[0] in all && t[0] != x;
      assert before(x, t[0]);
      forall j | 0 < j < |t| ensures before(x, t[j]) {
        assert before(t[0], t[j]);
        assert t[j] in all;
      }
    }
  }

  /** On distinct values ordered by a strict total order, the sort gives the increasing arrangement. */
  lemma {:induction false} SortByStrictlySorted<T>(s: seq<T>, before: (T, T) -> bool)
    requires Distinct(s) && StrictTotalOn(s, before)
    ensures StrictlySorted(SortBy(s, before), before)
  {
    if s != [] {
      var rest := s[1..];
      StrictTotalSub(rest, s, before);
      SortByStrictlySorted(rest, before);
      var t := SortBy(rest, before);
      forall i | 0 <= i < |t| ensures t[i] in s && t[i] != s[0] {
        assert t[i] in multiset(rest);
        var k :| 0 <= k < |rest| && rest[k] == t[i];
        assert s[k + 1] == t[i];
      }
      InsertStrict(s[0], t, before, s);
    }
  }

  lemma StrictTotalSub<T>(sub: seq<T>, s: seq<T>, before: (T, T) -> bool)
    requires StrictTotalOn(s, before)
    requires forall x :: x in sub ==> x in s
    ensures StrictTotalOn(sub, before)
  {
  }

  /** "Comes before" for a descending sort on an integer key. */
  function Greater<T>(key: T -> int): (T, T) -> bool
  {
    (a: T, b: T) => key(a) > key(b)
  }

  /** A stable sort by `key`, largest first (`sort((a, b) => key(b) - key(a))`). */
  function SortDesc<T>(s: seq<T>, key: T -> int): (r: seq<T>)
    ensures |r| == |s| && multiset(r) == multiset(s)
  {
    SortBy(s, Greater(key))
  }

  predicate SortedDesc<T>(s: seq<T>, key: T -> int) {
    forall i, j :: 0 <= i < j < |s| ==> key(s[i]) >= key(s[j])
  }

  /** The elements of `s` whose key is `k`, in their order. */
  function WithKey<T>(s: seq<T>, key: T -> int, k: int): (r: seq<T>)
    ensures |r| <= |s|
  {
    if s == [] then []
    else (if key(s[0]) == k then [s[0]] else []) + WithKey(s[1..], key, k)
  }

  lemma {:induction false} InsertSortedDesc<T>(x: T, t: seq<T>, key: T -> int)
    requires SortedDesc(t, key)
    ensures SortedDesc(InsertBy(x, t, Greater(key)), key)
  {
    if t != [] && key(t[0]) > key(x) {
      InsertSortedDesc(x, t[1..], key);
      var rest := InsertBy(x, t[1..], Greater(key));
      forall j | 0 <= j < |rest| ensures key(t[0]) >= key(rest[j]) {
        assert rest[j] in multiset(t[1..]) + multiset{x};
        if rest[j] != x {
          var k :| 0 <= k < |t[1..]| && t[1..][k] == rest[j];
          assert t[k + 1] == rest[j];
        }
      }
    }
  }

  /** The stable sort orders by key, largest first. */
  lemma {:induction false} SortDescSorted<T>(s: seq<T>, key: T -> int)
    ensures SortedDesc(SortDesc(s, key), key)
  {
    if s != [] {
      SortDescSorted(s[1..], key);
      InsertSortedDesc(s[0], SortDesc(s[1..], key), key);
    }
  }

  lemma WithKeyCons<T>(a: T, s: seq<T>, key: T -> int, k: int)
    ensures WithKey([a] + s, key, k) == (if key(a) == k then [a] else []) + WithKey(s, key, k)
  {
    assert ([a] + s)[1..] == s;
  }

  lemma {:induction false} InsertWithKey<T>(x: T, t: seq<T>, key: T -> int, k: int)
    ensures WithKey(InsertBy(x, t, Greater(key)), key, k)
         == (if key(x) == k then [x] else []) + WithKey(t, key, k)
  {
    if t != [] && Greater(key)(t[0], x) {
      var rest := InsertBy(x, t[1..], Greater(key));
      InsertWithKey(x, t[1..], key, k);
      assert InsertBy(x, t, Greater(key)) == [t[0]] + rest;
      assert t == [t[0]] + t[1..];
      WithKeyPastHead(x, t[0], rest, t[1..], key, k);
    } else if t != [] {
      WithKeyCons(x, t, key, k);
    }
  }

  lemma WithKeyPastHead<T>(x: T, a: T, rest: seq<T>, tail: seq<T>, key: T -> int, k: int)
    requires key(a) > key(x)
    requires WithKey(rest, key, k) == (if key(x) == k then [x] else []) + WithKey(tail, key, k)
    ensures WithKey([a] + rest, key, k) == (if key(x) == k then [x] else []) + WithKey([a] + tail, key, k)
  {
    WithKeyCons(a, rest, key, k);
    WithKeyCons(a, tail, key, k);
    var head := if key(a) == k then [a] else [];
    var mine := if key(x) == k then [x] else [];
    assert head == [] || mine == [];
    assert head + (mine + WithKey(tail, key, k)) == mine + (head + WithKey(tail, key, k));
  }

  /** Stability: among elements with equal keys, the sort keeps their input order. */
  lemma {:induction false} SortDescStable<T>(s: seq<T>, key: T -> int, k: int)
    ensures WithKey(SortDesc(s, key), key, k) == WithKey(s, key, k)
  {
    if s != [] {
      SortDescStable(s[1..], key, k);
      InsertWithKey(s[0], SortDesc(s[1..], key), key, k);
    }
  }

  /** An element with key `k` occurs in `WithKey(s, key, k)`, and every element there is from `s` with key `k`. */
  lemma {:induction false} WithKeyMembers<T>(s: seq<T>, key: T -> int, k: int)
    ensures forall i :: 0 <= i < |WithKey(s, key, k)| ==> key(WithKey(s, key, k)[i]) == k
    ensures (exists i :: 0 <= i < |s| && key(s[i]) == k) ==> |WithKey(s, key, k)| > 0
  {
    if s != [] {
      WithKeyMembers(s[1..], key, k);
      var w := WithKey(s, key, k);
      var head := if key(s[0]) == k then [s[0]] else [];
      assert w == head + WithKey(s[1..], key, k);
      if exists i :: 0 <= i < |s| && key(s[i]) == k {
        var i :| 0 <= i < |s| && key(s[i]) == k;
        if i > 0 { assert s[1..][i - 1] == s[i]; }
      }
    }
  }

  /** The first element of `WithKey(s, key, k)` is the first element of `s` with key `k`. */
  lemma {:induction false} WithKeyFirst<T>(s: seq<T>, key: T -> int, k: int)
    requires |WithKey(s, key, k)| > 0
    ensures exists i :: 0 <= i < |s| && s[i] == WithKey(s, key, k)[0] && key(s[i]) == k
              && forall j :: 0 <= j < i ==> key(s[j]) != k
  {
    if key(s[0]) == k {
      assert s[0] == WithKey(s, key, k)[0];
    } else {
      WithKeyFirst(s[1..], key, k);
      var i :| 0 <= i < |s[1..]| && s[1..][i] == WithKey(s[1..], key, k)[0] && key(s[1..][i]) == k
                && forall j :: 0 <= j < i ==> key(s[1..][j]) != k;
      assert s[i + 1] == WithKey(s, key, k)[0];
      forall j | 0 <= j < i + 1 ensures key(s[j]) != k {
        if j > 0 { assert s[j] == s[1..][j - 1]; }
      }
    }
  }

  /** The last element of `WithKey(s, key, k)` is the last element of `s` with key `k`. */
  lemma {:induction false} WithKeyLast<T>(s: seq<T>, key: T -> int, k: int)
    requires |WithKey(s, key, k)| > 0
    ensures exists i :: 0 <= i < |s| && s[i] == WithKey(s, key, k)[|WithKey(s, key, k)| - 1] && key(s[i]) == k
              && forall j :: i < j < |s| ==> key(s[j]) != k
  {
    var w := WithKey(s, key, k);
    var tail := WithKey(s[1..], key, k);
    assert w == (if key(s[0]) == k then [s[0]] else []) + tail;
    if |tail| == 0 {
      assert key(s[0]) == k && w == [s[0]];
      forall j | 0 < j < |s| ensures key(s[j]) != k {
        if key(s[j]) == k {
          assert key(s[1..][j - 1]) == k;
          WithKeyMembers(s[1..], key, k);
        }
      }
    } else {
      WithKeyLast(s[1..], key, k);
      var i :| 0 <= i < |s[1..]| && s[1..][i] == tail[|tail| - 1] && key(s[1..][i]) == k
                && forall j :: i < j < |s[1..]| ==> key(s[1..][j]) != k;
      assert w[|w| - 1] == tail[|tail| - 1];
      assert s[i + 1] == w[|w| - 1];
      forall j | i + 1 < j < |s| ensures key(s[j]) != k {
        assert s[j] == s[1..][j - 1];
      }
    }
  }

  /**
   * The first element after the sort has the largest key and is the earliest
   * such element of the input.
   */
  lemma SortDescFirst<T>(s: seq<T>, key: T -> int)
    requires |s| > 0
    ensures exists i :: 0 <= i < |s| && SortDesc(s, key)[0] == s[i]
              && (forall j :: 0 <= j < |s| ==> key(s[j]) <= key(s[i]))
              && (forall j :: 0 <= j < i ==> key(s[j]) < key(s[i]))
  {
    var r := SortDesc(s, key);
    var k := key(r[0]);
    SortDescSorted(s, key);
    SortDescStable(s, key, k);
    WithKeyMembers(r, key, k);
    assert WithKey(r, key, k)[0] == r[0];
    WithKeyFirst(s, key, k);
    var i :| 0 <= i < |s| && s[i] == WithKey(s, key, k)[0] && key(s[i]) == k
              && forall j :: 0 <= j < i ==> key(s[j]) != k;
    SortDescBounds(s, key);
  }

  /**
   * The last element after the sort has the smallest key and is the latest
   * such element of the input.
   */
  lemma SortDescLast<T>(s: seq<T>, key: T -> int)
    requires |s| > 0
    ensures exists i :: 0 <= i < |s| && SortDesc(s, key)[|s| - 1] == s[i]
              && (forall j :: 0 <= j < |s| ==> key(s[j]) >= key(s[i]))
              && (forall j :: i < j < |s| ==> key(s[j]) > key(s[i]))
  {
    var r := SortDesc(s, key);
    var n := |s| - 1;
    var k := key(r[n]);
    SortDescSorted(s, key);
    SortDescStable(s, key, k);
    WithKeyLastOfSorted(r, key);
    WithKeyLast(s, key, k);
    var i :| 0 <= i < |s| && s[i] == WithKey(s, key, k)[|WithKey(s, key, k)| - 1] && key(s[i]) == k
              && forall j :: i < j < |s| ==> key(s[j]) != k;
    SortDescBounds(s, key);
  }

  /** Every key of the input lies between the first and the last key after the sort. */
  lemma SortDescBounds<T>(s: seq<T>, key: T -> int)
    requires |s| > 0
    ensures forall j :: 0 <= j < |s| ==>
              key(SortDesc(s, key)[0]) >= key(s[j]) >= key(SortDesc(s, key)[|s| - 1])
  {
    var r := SortDesc(s, key);
    SortDescSorted(s, key);
    forall j | 0 <= j < |s| ensures key(r[0]) >= key(s[j]) >= key(r[|s| - 1]) {
      assert s[j] in multiset(r);
      var m :| 0 <= m < |r| && r[m] == s[j];
      assert m == 0 || key(r[0]) >= key(r[m]);
      assert m == |s| - 1 || key(r[m]) >= key(r[|s| - 1]);
    }
  }

  lemma {:induction false} WithKeyLastOfSorted<T>(r: seq<T>, key: T -> int)
    requires |r| > 0
    ensures |WithKey(r, key, key(r[|r| - 1]))| > 0
    ensures WithKey(r, key, key(r[|r| - 1]))[|WithKey(r, key, key(r[|r| - 1]))| - 1] == r[|r| - 1]
  {
    var k := key(r[|r| - 1]);
    if |r| > 1 {
      WithKeyLastOfSorted(r[1..], key);
      assert r[1..][|r[1..]| - 1] == r[|r| - 1];
    }
  }

  /** The key negated, so that "largest first" on it is "smallest first" on `key`. */
  function Negated<T>(key: T -> int): T -> int {
    (a: T) => -key(a)
  }

  /** A stable sort by `key`, smallest first (`sort((a, b) => key(a) - key(b))`). */
  function SortAsc<T>(s: seq<T>, key: T -> int): (r: seq<T>)
    ensures |r| == |s| && multiset(r) == multiset(s)
  {
    SortDesc(s, Negated(key))
  }

  predicate SortedAsc<T>(s: seq<T>, key: T -> int) {
    forall i, j :: 0 <= i < j < |s| ==> key(s[i]) <= key(s[j])
  }

  /** The ascending sort orders by key, smallest first. */
  lemma SortAscSorted<T>(s: seq<T>, key: T -> int)
    ensures SortedAsc(SortAsc(s, key), key)
  {
    SortDescSorted(s, Negated(key));
  }

  /** Selecting by key distributes over concatenation. */
  lemma {:induction false} WithKeyConcat<T>(s: seq<T>, t: seq<T>, key: T -> int, k: int)
    ensures WithKey(s + t, key, k) == WithKey(s, key, k) + WithKey(t, key, k)
  {
    if s == [] {
      assert s + t == t;
    } else {
      var st := s + t;
      assert st[0] == s[0] && st[1..] == s[1..] + t;
      var head := if key(s[0]) == k then [s[0]] else [];
      assert WithKey(st, key, k) == head + WithKey(st[1..], key, k);
      assert WithKey(s, key, k) == head + WithKey(s[1..], key, k);
      WithKeyConcat(s[1..], t, key, k);
    }
  }
}
