/** Sequence helpers shared by the list operations of the application:
    JavaScript's `Array.prototype.filter`, `find`, `some`, a numeric
    `reduce` that sums a projection, and the stable `sort` used by the
    market page.
 */
module Seqs {
  import opened Common

  /** `a` is `b` with some elements deleted, the rest kept in order. */
  predicate IsSubsequence<T(==)>(a: seq<T>, b: seq<T>)
    decreases |b|
  {
    if |a| == 0 then true
    else if |b| == 0 then false
    else if a[0] == b[0] then IsSubsequence(a[1..], b[1..])
    else IsSubsequence(a, b[1..])
  }

  lemma {:induction false} SubsequenceReflexive<T>(s: seq<T>)
    ensures IsSubsequence(s, s)
  {
    if |s| > 0 {
      SubsequenceReflexive(s[1..]);
    }
  }

  /** `xs.filter(p)`. */
  function Filter<T(==)>(s: seq<T>, p: T -> bool): (r: seq<T>)
    ensures |r| <= |s|
    ensures forall i :: 0 <= i < |r| ==> r[i] in s
    ensures forall i :: 0 <= i < |s| && p(s[i]) ==> s[i] in r
    ensures forall i :: 0 <= i < |r| ==> p(r[i])
    ensures IsSubsequence(r, s)
  {
    if |s| == 0 then []
    else if p(s[0]) then
      var rest := Filter(s[1..], p);
      assert ([s[0]] + rest)[1..] == rest;
      [s[0]] + rest
    else
      Filter(s[1..], p)
  }

  /** `xs.some(p)`. */
  predicate Exists<T>(s: seq<T>, p: T -> bool) {
    exists i :: 0 <= i < |s| && p(s[i])
  }

  /** Index of the first element satisfying `p` (`findIndex`), if any. */
  function FindIndex<T>(s: seq<T>, p: T -> bool): (r: Option<nat>)
    ensures r.Some? ==> r.value < |s| && p(s[r.value])
    ensures r.Some? ==> forall j :: 0 <= j < r.value ==> !p(s[j])
    ensures r.None? <==> !Exists(s, p)
  {
    if |s| == 0 then None
    else if p(s[0]) then Some(0)
    else
      match FindIndex(s[1..], p)
      case None =>
        assert forall i :: 1 <= i < |s| ==> s[i] == s[1..][i - 1];
        None
      case Some(k) => Some(k + 1)
  }

  /** `xs.find(p)`: the first element satisfying `p`, if any. */
  function Find<T>(s: seq<T>, p: T -> bool): (r: Option<T>)
    ensures r.Some? ==> r.value in s && p(r.value)
    ensures r.Some? ==> exists i :: 0 <= i < |s| && s[i] == r.value && forall j :: 0 <= j < i ==> !p(s[j])
    ensures r.None? <==> !Exists(s, p)
  {
    match FindIndex(s, p)
    case None => None
    case Some(i) => Some(s[i])
  }

  /** `xs.reduce((acc, x) => acc + f(x), 0)`. */
  function SumOf<T>(s: seq<T>, f: T -> real): real {
    if |s| == 0 then 0.0 else f(s[0]) + SumOf(s[1..], f)
  }

  lemma {:induction false} SumOfAppend<T>(a: seq<T>, b: seq<T>, f: T -> real)
    ensures SumOf(a + b, f) == SumOf(a, f) + SumOf(b, f)
  {
    if |a| == 0 {
      assert a + b == b;
    } else {
      assert (a + b)[1..] == a[1..] + b;
      SumOfAppend(a[1..], b, f);
    }
  }

  /** A sum of non-negative terms is non-negative. */
  lemma {:induction false} SumOfNonNegative<T>(s: seq<T>, f: T -> real)
    requires forall i :: 0 <= i < |s| ==> f(s[i]) >= 0.0
    ensures SumOf(s, f) >= 0.0
  {
    if |s| > 0 {
      assert forall i :: 0 <= i < |s[1..]| ==> s[1..][i] == s[i + 1];
      SumOfNonNegative(s[1..], f);
    }
  }

  /** Dropping terms from a sum of non-negative terms never increases it. */
  lemma {:induction false} SumOfFilterAtMost<T>(s: seq<T>, p: T -> bool, f: T -> real)
    requires forall i :: 0 <= i < |s| ==> f(s[i]) >= 0.0
    ensures SumOf(Filter(s, p), f) <= SumOf(s, f)
  {
    if |s| > 0 {
      assert forall i :: 0 <= i < |s[1..]| ==> s[1..][i] == s[i + 1];
      SumOfFilterAtMost(s[1..], p, f);
    }
  }

  /** `key` is non-decreasing along `s`. */
  predicate SortedBy<T>(s: seq<T>, key: T -> real) {
    forall i, j :: 0 <= i < j < |s| ==> key(s[i]) <= key(s[j])
  }

  /** Inserts `x` before the first element whose key is not smaller. */
  function InsertBy<T>(x: T, s: seq<T>, key: T -> real): (r: seq<T>)
    requires SortedBy(s, key)
    ensures SortedBy(r, key)
    ensures multiset(r) == multiset(s) + multiset{x}
    ensures |r| == |s| + 1
    ensures r[0] == x || (|s| > 0 && r[0] == s[0])
  {
    if |s| == 0 then [x]
    else if key(x) <= key(s[0]) then [x] + s
    else
      var rest := InsertBy(x, s[1..], key);
      assert s == [s[0]] + s[1..];
      assert key(s[0]) <= key(rest[0]);
      PrependSorted(s[0], rest, key);
      [s[0]] + rest
  }

  lemma PrependSorted<T>(x: T, s: seq<T>, key: T -> real)
    requires SortedBy(s, key)
    requires |s| > 0 ==> key(x) <= key(s[0])
    ensures SortedBy([x] + s, key)
  {
    var r := [x] + s;
    forall i, j | 0 <= i < j < |r| ensures key(r[i]) <= key(r[j]) {
      if i == 0 {
        assert r[j] == s[j - 1];
      } else {
        assert r[i] == s[i - 1] && r[j] == s[j - 1];
      }
    }
  }

  /** Insertion sort; each element is inserted before the later elements
      of equal key, so ties keep their input order. */
  function SortBy<T>(s: seq<T>, key: T -> real): (r: seq<T>)
    ensures SortedBy(r, key)
    ensures multiset(r) == multiset(s)
    ensures |r| == |s|
  {
    if |s| == 0 then []
    else
      assert s == [s[0]] + s[1..];
      InsertBy(s[0], SortBy(s[1..], key), key)
  }

  /** `xs.slice(0, n)`. */
  function Take<T>(s: seq<T>, n: nat): (r: seq<T>)
    ensures |r| <= n && |r| <= |s|
    ensures |r| == n || |r| == |s|
    ensures forall i :: 0 <= i < |r| ==> r[i] == s[i]
  {
    if |s| <= n then s else s[..n]
  }

  /** The first `n` of a sorted list and the rest split its elements, and no
      element of the rest has a smaller key than any element taken. */
  lemma TakeSplitsSorted<T>(s: seq<T>, n: nat, key: T -> real)
    requires SortedBy(s, key)
    ensures multiset(s) == multiset(Take(s, n)) + multiset(s[|Take(s, n)|..])
    ensures multiset(Take(s, n)) <= multiset(s)
    ensures forall i, j :: 0 <= i < |Take(s, n)| <= j < |s| ==> key(Take(s, n)[i]) <= key(s[j])
  {
    var t := Take(s, n);
    assert s == t + s[|t|..];
  }

  /** Filtering a list with one element appended: the filter of the list,
      then the element if it passes. */
  lemma {:induction false} FilterSnoc<T>(s: seq<T>, t: T, p: T -> bool)
    ensures Filter(s + [t], p) == Filter(s, p) + (if p(t) then [t] else [])
  {
    if |s| == 0 {
      assert s + [t] == [t];
      assert [t][1..] == [];
    } else {
      assert (s + [t])[1..] == s[1..] + [t];
      FilterSnoc(s[1..], t, p);
    }
  }

  /** The number of elements satisfying `p`, counted from the back. */
  function CountWhere<T>(s: seq<T>, p: T -> bool): nat {
    if |s| == 0 then 0
    else CountWhere(s[..|s| - 1], p) + (if p(s[|s| - 1]) then 1 else 0)
  }

  /** The length of a filter is the number of elements that pass it. */
  lemma {:induction false} FilterCounts<T>(s: seq<T>, p: T -> bool)
    ensures |Filter(s, p)| == CountWhere(s, p)
  {
    if |s| > 0 {
      var init := s[..|s| - 1];
      FilterCounts(init, p);
      assert s == init + [s[|s| - 1]];
      FilterSnoc(init, s[|s| - 1], p);
    }
  }

  /** The sum of `f` over the elements satisfying `p`, the others counting
      as zero, accumulated from the back. */
  function SumWhere<T>(s: seq<T>, p: T -> bool, f: T -> real): real {
    if |s| == 0 then 0.0
    else SumWhere(s[..|s| - 1], p, f) + (if p(s[|s| - 1]) then f(s[|s| - 1]) else 0.0)
  }

  /** Summing a filter is summing the whole list with the rejected terms
      masked to zero. */
  lemma {:induction false} FilterSums<T>(s: seq<T>, p: T -> bool, f: T -> real)
    ensures SumOf(Filter(s, p), f) == SumWhere(s, p, f)
  {
    if |s| > 0 {
      var init := s[..|s| - 1];
      var t := s[|s| - 1];
      FilterSums(init, p, f);
      assert s == init + [t];
      FilterSnoc(init, t, p);
      var tail := if p(t) then [t] else [];
      SumOfAppend(Filter(init, p), tail, f);
      if p(t) {
        assert tail[1..] == [];
      }
    }
  }

  /** With non-negative terms, a filter that keeps fewer elements sums to
      no more. */
  lemma {:induction false} SumOfFilterMonotone<T>(s: seq<T>, p: T -> bool, q: T -> bool, f: T -> real)
    requires forall x :: p(x) ==> q(x)
    requires forall i :: 0 <= i < |s| ==> f(s[i]) >= 0.0
    ensures SumOf(Filter(s, p), f) <= SumOf(Filter(s, q), f)
  {
    if |s| > 0 {
      assert forall i :: 0 <= i < |s[1..]| ==> s[1..][i] == s[i + 1];
      SumOfFilterMonotone(s[1..], p, q, f);
      var rp := Filter(s[1..], p);
      var rq := Filter(s[1..], q);
      assert ([s[0]] + rp)[1..] == rp;
      assert ([s[0]] + rq)[1..] == rq;
    }
  }
}
