/**
 * List operations the source performs with `Array.prototype.filter`, `map`,
 * `findIndex` and `new Set(...)`.
 */
module Lists {

  /** No value occurs twice. */
  predicate Distinct<T(==)>(s: seq<T>) {
    forall i, j :: 0 <= i < j < |s| ==> s[i] != s[j]
  }

  /** Concatenating two duplicate-free lists with no common value gives a duplicate-free list. */
  lemma DistinctConcat<T>(a: seq<T>, b: seq<T>)
    requires Distinct(a) && Distinct(b)
    requires forall x :: x in b ==> x !in a
    ensures Distinct(a + b)
  {
    var c := a + b;
    forall i, j | 0 <= i < j < |c| ensures c[i] != c[j] {
      if i < |a| && j >= |a| {
        assert c[j] == b[j - |a|] && c[j] in b;
      } else if i >= |a| {
        assert c[i] == b[i - |a|] && c[j] == b[j - |a|];
      }
    }
  }

  /** Each element projected by `f`, position by position (`map(f)`). */
  function Project<T, U>(s: seq<T>, f: T -> U): (r: seq<U>)
    ensures |r| == |s| && forall i :: 0 <= i < |s| ==> r[i] == f(s[i])
  {
    seq(|s|, i requires 0 <= i < |s| => f(s[i]))
  }

  /** Index of the first occurrence of `x` (`findIndex`). */
  function FirstIndex<T(==)>(s: seq<T>, x: T): (r: nat)
    requires x in s
    ensures r < |s| && s[r] == x
    ensures forall j :: 0 <= j < r ==> s[j] != x
  {
    if s[0] == x then 0 else 1 + FirstIndex(s[1..], x)
  }

  /** The elements of `s` without repetition, in order of first appearance (`[...new Set(s)]`). */
  function Dedup<T(==)>(s: seq<T>): (r: seq<T>)
    ensures Distinct(r)
    ensures forall i :: 0 <= i < |r| ==> r[i] in s
    ensures forall i :: 0 <= i < |s| ==> s[i] in r
    ensures |r| <= |s|
  {
    if s == [] then []
    else
      var d := Dedup(s[..|s| - 1]);
      var last := s[|s| - 1];
      assert s == s[..|s| - 1] + [last];
      if last in d then d else d + [last]
  }

  /** Deduplication keeps the order in which values first appear. */
  lemma {:induction false} DedupOrder<T>(s: seq<T>, i: nat, j: nat)
    requires i < j < |Dedup(s)|
    ensures FirstIndex(s, Dedup(s)[i]) < FirstIndex(s, Dedup(s)[j])
  {
    var init := s[..|s| - 1];
    var last := s[|s| - 1];
    var d := Dedup(init);
    assert s == init + [last];
    FirstIndexPrefix(init, last, Dedup(s)[i]);
    if j < |d| {
      DedupOrder(init, i, j);
      FirstIndexPrefix(init, last, Dedup(s)[j]);
    } else {
      assert Dedup(s)[j] == last && last !in init;
      FirstIndexLast(init, last);
    }
  }

  lemma FirstIndexPrefix<T>(init: seq<T>, last: T, x: T)
    requires x in init
    ensures FirstIndex(init + [last], x) == FirstIndex(init, x)
  {
    var f := FirstIndex(init, x);
    assert (init + [last])[f] == x;
  }

  lemma FirstIndexLast<T>(init: seq<T>, last: T)
    requires last !in init
    ensures FirstIndex(init + [last], last) == |init|
  {
    assert (init + [last])[|init|] == last;
  }

  /** The elements of `s` that satisfy `p`, in their order (`filter(p)`). */
  function Filter<T>(s: seq<T>, p: T -> bool): (r: seq<T>)
    ensures |r| <= |s|
    ensures forall i :: 0 <= i < |r| ==> p(r[i]) && r[i] in multiset(s)
    ensures forall i :: 0 <= i < |s| && p(s[i]) ==> s[i] in multiset(r)
  {
    if s == [] then []
    else
      assert s == [s[0]] + s[1..];
      var rest := Filter(s[1..], p);
      if p(s[0]) then [s[0]] + rest else rest
  }

  /** Filtering distributes over concatenation, so it keeps the relative order of what it keeps. */
  lemma {:induction false} FilterConcat<T>(s: seq<T>, t: seq<T>, p: T -> bool)
    ensures Filter(s + t, p) == Filter(s, p) + Filter(t, p)
  {
    if s != [] {
      FilterConcat(s[1..], t, p);
      ConcatSplit(s, t);
      var rest := Filter(s[1..], p);
      if p(s[0]) {
        ConsAssoc(s[0], rest, Filter(t, p));
      }
    } else {
      assert s + t == t;
    }
  }

  lemma ConcatSplit<T>(s: seq<T>, t: seq<T>)
    requires s != []
    ensures s + t != [] && (s + t)[0] == s[0] && (s + t)[1..] == s[1..] + t
  {
  }

  lemma ConsAssoc<T>(a: T, x: seq<T>, y: seq<T>)
    ensures [a] + (x + y) == ([a] + x) + y
  {
  }

  /** Filtering a list whose every element satisfies `p` leaves it as it was. */
  lemma {:induction false} FilterAll<T>(s: seq<T>, p: T -> bool)
    requires forall i :: 0 <= i < |s| ==> p(s[i])
    ensures Filter(s, p) == s
  {
    if s != [] {
      FilterAll(s[1..], p);
      assert s == [s[0]] + s[1..];
    }
  }

  /** Filtering twice by the same test keeps nothing less. */
  lemma FilterIdempotent<T>(s: seq<T>, p: T -> bool)
    ensures Filter(Filter(s, p), p) == Filter(s, p)
  {
    FilterAll(Filter(s, p), p);
  }

  /** Nothing is kept exactly when no element satisfies `p`. */
  lemma FilterEmptyIff<T>(s: seq<T>, p: T -> bool)
    ensures |Filter(s, p)| == 0 <==> forall i :: 0 <= i < |s| ==> !p(s[i])
  {
    var r := Filter(s, p);
    if |r| > 0 {
      assert r[0] in multiset(s);
      var i :| 0 <= i < |s| && s[i] == r[0];
    }
  }

  /** The number of elements that satisfy `p`. */
  function Count<T>(s: seq<T>, p: T -> bool): nat {
    |Filter(s, p)|
  }

  /** The elements of `s` whose `id` differs from `k`, in their order (`filter(x => x.id !== k)`). */
  function RemoveById<T>(s: seq<T>, id: T -> string, k: string): (r: seq<T>)
    ensures |r| <= |s|
    ensures forall i :: 0 <= i < |r| ==> r[i] in multiset(s) && id(r[i]) != k
    ensures forall i :: 0 <= i < |s| && id(s[i]) != k ==> s[i] in multiset(r)
  {
    Filter(s, (x: T) => id(x) != k)
  }

  /** Removing an id that no element has leaves the list as it was. */
  lemma RemoveAbsent<T>(s: seq<T>, id: T -> string, k: string)
    requires forall i :: 0 <= i < |s| ==> id(s[i]) != k
    ensures RemoveById(s, id, k) == s
  {
    FilterAll(s, (x: T) => id(x) != k);
  }

  /** Removing the same id twice removes nothing more. */
  lemma RemoveIdempotent<T>(s: seq<T>, id: T -> string, k: string)
    ensures RemoveById(RemoveById(s, id, k), id, k) == RemoveById(s, id, k)
  {
    FilterIdempotent(s, (x: T) => id(x) != k);
  }

  /** Each element whose id equals `id(x)` replaced by `x` (`map(e => e.id === x.id ? x : e)`). */
  function ReplaceById<T>(s: seq<T>, id: T -> string, x: T): (r: seq<T>)
    ensures |r| == |s|
    ensures forall i :: 0 <= i < |s| && id(s[i]) != id(x) ==> r[i] == s[i]
    ensures forall i :: 0 <= i < |s| && id(s[i]) == id(x) ==> r[i] == x
  {
    seq(|s|, i requires 0 <= i < |s| => if id(s[i]) == id(x) then x else s[i])
  }

  /** The first `n` elements, or all of them when there are fewer (`slice(0, n)`). */
  function Take<T>(s: seq<T>, n: nat): (r: seq<T>)
    ensures |r| == if |s| < n then |s| else n
    ensures r == s[..|r|]
  {
    if |s| <= n then s else s[..n]
  }

  /** A subset is no larger than its superset. */
  lemma {:induction false} SubsetCard<T>(a: set<T>, b: set<T>)
    requires a <= b
    ensures |a| <= |b|
    decreases |b|
  {
    if a != {} {
      var y :| y in a;
      SubsetCard(a - {y}, b - {y});
    }
  }

  /** A subset as large as its superset is the whole superset. */
  lemma SubsetFull<T>(a: set<T>, b: set<T>)
    requires a <= b && |a| >= |b|
    ensures a == b
  {
    if a != b {
      var x :| x in b && x !in a;
      SubsetCard(a, b - {x});
    }
  }

  /** A duplicate-free list has as many distinct values as elements. */
  lemma {:induction false} DistinctCard<T>(s: seq<T>)
    requires Distinct(s)
    ensures |set x | x in s| == |s|
  {
    if s != [] {
      var init := s[..|s| - 1];
      DistinctCard(init);
      assert (set x | x in s) == (set x | x in init) + {s[|s| - 1]};
    }
  }

  /** `findIndex(p)`: the first position whose element satisfies `p`, or -1. */
  function FindIndex<T>(s: seq<T>, p: T -> bool): (r: int)
    ensures -1 <= r < |s|
    ensures r == -1 <==> forall i :: 0 <= i < |s| ==> !p(s[i])
    ensures r >= 0 ==> p(s[r]) && forall j :: 0 <= j < r ==> !p(s[j])
  {
    if s == [] then -1
    else if p(s[0]) then 0
    else
      var r := FindIndex(s[1..], p);
      assert forall i :: 0 < i < |s| ==> s[i] == s[1..][i - 1];
      if r == -1 then -1 else r + 1
  }

  /** Removing an id that exactly one element has, when ids are distinct, removes exactly one element. */
  lemma {:induction false} RemoveOne<T>(s: seq<T>, id: T -> string, k: string)
    requires forall i, j :: 0 <= i < j < |s| ==> id(s[i]) != id(s[j])
    requires exists i :: 0 <= i < |s| && id(s[i]) == k
    ensures |RemoveById(s, id, k)| == |s| - 1
  {
    assert s == [s[0]] + s[1..];
    if id(s[0]) == k {
      forall i | 0 <= i < |s[1..]| ensures id(s[1..][i]) != k {
        assert s[1..][i] == s[i + 1];
      }
      RemoveAbsent(s[1..], id, k);
    } else {
      var i :| 0 <= i < |s| && id(s[i]) == k;
      assert s[1..][i - 1] == s[i];
      RemoveOne(s[1..], id, k);
    }
  }
}
