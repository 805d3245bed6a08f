/** Sequence operations that model what the document store does with a
    collection held in natural (insertion) order: find the first match,
    filter, count, limit and sort. */
module Seqs {
  import opened Wrappers

  /** Index of the first element satisfying `p` (a store's `findOne`). */
  function FindIndex<T>(s: seq<T>, p: T -> bool): (r: Option<nat>)
    ensures r.Some? ==> r.value < |s| && p(s[r.value])
    ensures r.Some? ==> forall j :: 0 <= j < r.value ==> !p(s[j])
    ensures r.None? <==> forall j :: 0 <= j < |s| ==> !p(s[j])
    decreases |s|
  {
    if |s| == 0 then None
    else if p(s[0]) then Some(0)
    else
      match FindIndex(s[1..], p)
      case Some(i) => Some(i + 1)
      case None => None
  }

  /** The first match depends only on which elements satisfy the predicate. */
  lemma {:induction false} FindIndexSamePredicate<T>(s: seq<T>, p: T -> bool, q: T -> bool)
    requires forall i :: 0 <= i < |s| ==> p(s[i]) == q(s[i])
    ensures FindIndex(s, p) == FindIndex(s, q)
    decreases |s|
  {
    if |s| > 0 && !p(s[0]) {
      FindIndexSamePredicate(s[1..], p, q);
    }
  }

  /** The index a first-match search returns is determined by the matches. */
  lemma FirstMatch<T>(s: seq<T>, p: T -> bool, k: nat)
    requires k < |s| && p(s[k])
    requires forall j :: 0 <= j < k ==> !p(s[j])
    ensures FindIndex(s, p) == Some(k)
  {
  }

  /** After appending `x`, the first match is unchanged when one existed, and is
      `x` itself when none did and `x` matches. */
  lemma FindIndexSnoc<T>(s: seq<T>, x: T, p: T -> bool)
    ensures FindIndex(s, p).Some? ==> FindIndex(s + [x], p) == FindIndex(s, p)
    ensures FindIndex(s, p).None? && p(x) ==> FindIndex(s + [x], p) == Some(|s|)
  {
    var t := s + [x];
    match FindIndex(s, p)
    case Some(k) =>
      forall j | 0 <= j < k ensures !p(t[j]) { assert t[j] == s[j]; }
      assert t[k] == s[k];
      FirstMatch(t, p, k);
    case None =>
      if p(x) {
        forall j | 0 <= j < |s| ensures !p(t[j]) { assert t[j] == s[j]; }
        assert t[|s|] == x;
        FirstMatch(t, p, |s|);
      }
  }

  /** The first element satisfying `p`, if any. */
  function Find<T>(s: seq<T>, p: T -> bool): (r: Option<T>)
    ensures r.Some? <==> exists j :: 0 <= j < |s| && p(s[j])
    ensures r.Some? ==> r.value in s && p(r.value)
  {
    match FindIndex(s, p)
    case Some(i) => Some(s[i])
    case None => None
  }

  /** True iff some element satisfies `p` (a store query's element match). */
  predicate Any<T>(s: seq<T>, p: T -> bool) {
    exists j :: 0 <= j < |s| && p(s[j])
  }

  /** Some index is selected exactly when the selection is non-empty. */
  lemma IndexSetNonEmpty<T>(s: seq<T>, p: T -> bool)
    ensures |IndexSet(s, p)| > 0 <==> exists j :: 0 <= j < |s| && p(s[j])
  {
    if exists j :: 0 <= j < |s| && p(s[j]) {
      var j :| 0 <= j < |s| && p(s[j]);
      assert j in IndexSet(s, p);
    } else {
      assert IndexSet(s, p) == {};
    }
  }

  /** The indices whose elements satisfy `p`: the reference definition a
      count is measured against. */
  ghost function IndexSet<T>(s: seq<T>, p: T -> bool): set<nat> {
    set i: nat | i < |s| && p(s[i])
  }

  lemma IndexSetSnoc<T>(s: seq<T>, p: T -> bool)
    requires |s| > 0
    ensures IndexSet(s, p) ==
      IndexSet(s[..|s| - 1], p) + (if p(s[|s| - 1]) then {|s| - 1} else {})
  {
    var init := s[..|s| - 1];
    forall i: nat | i in IndexSet(s, p)
      ensures i in IndexSet(init, p) + (if p(s[|s| - 1]) then {|s| - 1} else {})
    {
      if i < |s| - 1 {
        assert init[i] == s[i];
      }
    }
    forall i: nat | i in IndexSet(init, p)
      ensures i in IndexSet(s, p)
    {
      assert init[i] == s[i];
    }
  }

  /** Number of elements satisfying `p` (a store's `countDocuments`). */
  function Count<T>(s: seq<T>, p: T -> bool): (n: nat)
    ensures n == |IndexSet(s, p)|
    ensures n <= |s|
    decreases |s|
  {
    if |s| == 0 then
      assert IndexSet(s, p) == {};
      0
    else
      IndexSetSnoc(s, p);
      var init := s[..|s| - 1];
      assert |s| - 1 !in IndexSet(init, p);
      Count(init, p) + if p(s[|s| - 1]) then 1 else 0
  }

  /** The elements satisfying `p`, in their original order. */
  function Filter<T>(s: seq<T>, p: T -> bool): (r: seq<T>)
    ensures |r| == Count(s, p)
    ensures forall i :: 0 <= i < |r| ==> r[i] in s && p(r[i])
    ensures forall j :: 0 <= j < |s| && p(s[j]) ==> s[j] in r
    decreases |s|
  {
    if |s| == 0 then []
    else
      var init := s[..|s| - 1];
      assert s == init + [s[|s| - 1]];
      var f := Filter(init, p);
      if p(s[|s| - 1]) then f + [s[|s| - 1]] else f
  }

  /** Filtering respects concatenation, so the filter keeps the relative
      order of the elements it retains. */
  lemma {:induction false} FilterAppend<T>(a: seq<T>, b: seq<T>, p: T -> bool)
    ensures Filter(a + b, p) == Filter(a, p) + Filter(b, p)
    decreases |b|
  {
    if |b| == 0 {
      assert a + b == a;
    } else {
      var bInit := b[..|b| - 1];
      assert (a + b)[..|a + b| - 1] == a + bInit;
      assert (a + b)[|a + b| - 1] == b[|b| - 1];
      FilterAppend(a, bInit, p);
    }
  }

  /** A filter whose predicate holds everywhere returns its input. */
  lemma {:induction false} FilterAll<T>(s: seq<T>, p: T -> bool)
    requires forall j :: 0 <= j < |s| ==> p(s[j])
    ensures Filter(s, p) == s
    decreases |s|
  {
    if |s| > 0 {
      FilterAll(s[..|s| - 1], p);
      assert s == s[..|s| - 1] + [s[|s| - 1]];
    }
  }

  /** The first `n` elements (a store's `limit(n)`). */
  function Take<T>(s: seq<T>, n: nat): (r: seq<T>)
    ensures |r| <= n && |r| <= |s|
    ensures r <= s
    ensures |s| <= n ==> r == s
  {
    if |s| <= n then s else s[..n]
  }

  /** Keeping a prefix keeps a sub-multiset. */
  lemma TakeSubMultiset<T>(s: seq<T>, n: nat)
    ensures multiset(Take(s, n)) <= multiset(s)
  {
    var r := Take(s, n);
    assert s == r + s[|r|..];
  }

  /** `f` applied to every element, or None as soon as one application gives
      None (`Promise.all` over per-element work that may reject). */
  function MapAll<T, U>(s: seq<T>, f: T -> Option<U>): (r: Option<seq<U>>)
    ensures r.None? <==> exists i :: 0 <= i < |s| && f(s[i]).None?
    ensures r.Some? ==> |r.value| == |s|
    ensures r.Some? ==> forall i :: 0 <= i < |s| ==> f(s[i]) == Some(r.value[i])
    decreases |s|
  {
    if |s| == 0 then Some([])
    else
      match f(s[0])
      case None => None
      case Some(x) =>
        assert forall i :: 1 <= i < |s| ==> s[i] == s[1..][i - 1];
        match MapAll(s[1..], f)
        case None => None
        case Some(rest) => Some([x] + rest)
  }

  /** Where a partial function is defined. */
  function Defined<T, U>(f: T -> Option<U>): T -> bool {
    (x: T) => f(x).Some?
  }

  /** `f` applied to every element, keeping only the results that are present,
      in order (a lookup followed by an unwind that drops unmatched documents). */
  function FilterMap<T, U>(s: seq<T>, f: T -> Option<U>): (r: seq<U>)
    ensures |r| == Count(s, Defined(f))
    ensures forall i :: 0 <= i < |r| ==> exists j :: 0 <= j < |s| && f(s[j]) == Some(r[i])
    ensures forall j :: 0 <= j < |s| && f(s[j]).Some? ==> f(s[j]).value in r
    decreases |s|
  {
    if |s| == 0 then []
    else
      var init := s[..|s| - 1];
      var last := s[|s| - 1];
      assert forall j :: 0 <= j < |init| ==> init[j] == s[j];
      var r := FilterMap(init, f);
      match f(last)
      case Some(y) => r + [y]
      case None => r
  }

  /** `s` is ordered by `key`, largest first (a store's `sort({key: -1})`). */
  predicate SortedDesc<T>(s: seq<T>, key: T -> int) {
    forall i, j :: 0 <= i < j < |s| ==> key(s[i]) >= key(s[j])
  }

  /** Inserts `x` before the first element whose key does not exceed its own. */
  function InsertDesc<T>(x: T, s: seq<T>, key: T -> int): (r: seq<T>)
    requires SortedDesc(s, key)
    ensures SortedDesc(r, key)
    ensures multiset(r) == multiset(s) + multiset{x}
    ensures |r| == |s| + 1
    ensures r[0] == x || (|s| > 0 && r[0] == s[0])
    decreases |s|
  {
    if |s| == 0 then [x]
    else if key(x) >= key(s[0]) then
      SortedCons(x, s, key);
      [x] + s
    else
      var rest := InsertDesc(x, s[1..], key);
      assert s == [s[0]] + s[1..];
      assert key(s[0]) >= key(rest[0]);
      SortedCons(s[0], rest, key);
      [s[0]] + rest
  }

  /** Putting an element no smaller than the head in front keeps the order. */
  lemma SortedCons<T>(h: T, s: seq<T>, key: T -> int)
    requires SortedDesc(s, key)
    requires |s| > 0 ==> key(h) >= key(s[0])
    ensures SortedDesc([h] + s, key)
  {
    var t := [h] + s;
    forall i, j | 0 <= i < j < |t| ensures key(t[i]) >= key(t[j]) {
      if i > 0 {
        assert t[i] == s[i - 1] && t[j] == s[j - 1];
      } else if j > 1 {
        assert key(s[0]) >= key(s[j - 1]);
      }
    }
  }

  /** A permutation of `s` ordered by `key`, largest first. */
  function SortDesc<T>(s: seq<T>, key: T -> int): (r: seq<T>)
    ensures SortedDesc(r, key)
    ensures multiset(r) == multiset(s)
    ensures |r| == |s|
    decreases |s|
  {
    if |s| == 0 then []
    else
      assert s == [s[0]] + s[1..];
      InsertDesc(s[0], SortDesc(s[1..], key), key)
  }

  /** Appending an element no larger than any present keeps the order. */
  lemma SortedSnoc<T>(s: seq<T>, x: T, key: T -> int)
    requires SortedDesc(s, key)
    requires forall i :: 0 <= i < |s| ==> key(s[i]) >= key(x)
    ensures SortedDesc(s + [x], key)
  {
    var t := s + [x];
    forall i, j | 0 <= i < j < |t| ensures key(t[i]) >= key(t[j]) {
      assert t[i] == s[i];
    }
  }

  /** A filter-map over a sorted sequence stays sorted when each result keeps
      the key of the element it came from. */
  lemma {:induction false} FilterMapSorted<T, U>(s: seq<T>, f: T -> Option<U>, key: T -> int, key': U -> int)
    requires SortedDesc(s, key)
    requires forall i :: 0 <= i < |s| && f(s[i]).Some? ==> key'(f(s[i]).value) == key(s[i])
    ensures SortedDesc(FilterMap(s, f), key')
    decreases |s|
  {
    if |s| > 0 {
      var init := s[..|s| - 1];
      var last := s[|s| - 1];
      assert forall j :: 0 <= j < |init| ==> init[j] == s[j];
      FilterMapSorted(init, f, key, key');
      var r := FilterMap(init, f);
      match f(last)
      case None =>
        assert FilterMap(s, f) == r;
      case Some(y) =>
        assert FilterMap(s, f) == r + [y];
        FilterMapBelow(init, f, key, key', key(last));
        SortedSnoc(r, y, key');
    }
  }

  /** When every source key is at least `k`, so is every result key. */
  lemma FilterMapBelow<T, U>(s: seq<T>, f: T -> Option<U>, key: T -> int, key': U -> int, k: int)
    requires forall i :: 0 <= i < |s| ==> key(s[i]) >= k
    requires forall i :: 0 <= i < |s| && f(s[i]).Some? ==> key'(f(s[i]).value) == key(s[i])
    ensures forall i :: 0 <= i < |FilterMap(s, f)| ==> key'(FilterMap(s, f)[i]) >= k
  {
    var r := FilterMap(s, f);
    forall i | 0 <= i < |r| ensures key'(r[i]) >= k {
      var j :| 0 <= j < |s| && f(s[j]) == Some(r[i]);
    }
  }

  /** Two sequences with the same multiset have the same members. */
  lemma SameMembers<T>(a: seq<T>, b: seq<T>)
    requires multiset(a) == multiset(b)
    ensures forall i :: 0 <= i < |b| ==> b[i] in a
    ensures forall x :: x in a ==> x in b
  {
    forall i | 0 <= i < |b| ensures b[i] in a {
      assert b[i] in multiset(b);
    }
    forall x | x in a ensures x in b {
      assert x in multiset(a);
    }
  }

  /** Sorting then keeping the first `n` keeps the `n` largest keys: nothing
      left out is larger than anything kept. */
  lemma TakeSortedKeepsLargest<T>(s: seq<T>, key: T -> int, n: nat, x: T)
    requires x in s
    ensures x !in Take(SortDesc(s, key), n) ==>
      forall i :: 0 <= i < |Take(SortDesc(s, key), n)| ==> key(Take(SortDesc(s, key), n)[i]) >= key(x)
  {
    var sorted := SortDesc(s, key);
    if x in Take(sorted, n) { return; }
    assert x in multiset(s);
    assert x in sorted;
    var k :| 0 <= k < |sorted| && sorted[k] == x;
    var kept := Take(sorted, n);
    assert k >= |kept|;
    forall i | 0 <= i < |kept| ensures key(kept[i]) >= key(x) {
      assert kept[i] == sorted[i];
    }
  }

  /** The indices below `n`. */
  ghost function RangeSet(n: nat): (r: set<nat>)
    ensures forall i: nat :: i in r <==> i < n
    ensures |r| == n
  {
    if n == 0 then {} else RangeSet(n - 1) + {n - 1}
  }

  /** A set of indices below `n` that misses one of them has fewer than `n` elements. */
  lemma MissingIndex(s: set<nat>, n: nat, k: nat)
    requires forall i :: i in s ==> i < n
    requires k < n && k !in s
    ensures |s| < n
  {
    var all := RangeSet(n);
    var rest := all - s;
    assert k in rest;
    assert all == s + rest;
  }
}
