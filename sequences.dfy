/** Collection helpers the source gets from the Swift standard library:
    `sorted(by:)`, `filter`, `removeAll(where:)` and `firstIndex(where:)`. */
module Sequences {
  import opened Wrappers

  /** `s` is ordered by non-decreasing `key`. */
  ghost predicate SortedByKey<T>(s: seq<T>, key: T -> int) {
    forall i, j :: 0 <= i < j < |s| ==> key(s[i]) <= key(s[j])
  }

  /** Places `x` in front of the first element whose key is not smaller than its own,
      so that `x` stays ahead of the elements it ties with. */
  function Insert<T>(x: T, s: seq<T>, key: T -> int): (r: seq<T>)
    requires SortedByKey(s, key)
    ensures SortedByKey(r, key)
    ensures multiset(r) == multiset(s) + multiset{x}
    ensures |r| == |s| + 1
    ensures r[0] == x || (s != [] && r[0] == s[0])
  {
    if s == [] || key(x) <= key(s[0]) then
      SortedCons(x, s, key);
      [x] + s
    else
      var rest := Insert(x, s[1..], key);
      assert s == [s[0]] + s[1..];
      assert key(s[0]) <= key(rest[0]);
      SortedCons(s[0], rest, key);
      [s[0]] + rest
  }

  /** A stable sort by ascending `key`; the model's choice among the orders
      `sorted(by:)` may produce, since Swift does not document a tie-break. */
  function SortByKey<T>(s: seq<T>, key: T -> int): (r: seq<T>)
    ensures SortedByKey(r, key)
    ensures multiset(r) == multiset(s)
    ensures |r| == |s|
  {
    if s == [] then []
    else
      assert s == [s[0]] + s[1..];
      Insert(s[0], SortByKey(s[1..], key), key)
  }

  /** Sorting an already sorted sequence leaves it as it is. */
  lemma {:induction false} SortOfSorted<T>(s: seq<T>, key: T -> int)
    requires SortedByKey(s, key)
    ensures SortByKey(s, key) == s
  {
    if s != [] {
      SortOfSorted(s[1..], key);
      assert SortByKey(s[1..], key) == s[1..];
      assert s == [s[0]] + s[1..];
    }
  }

  /** Sorting neither adds nor drops elements. */
  lemma SortKeepsMembers<T>(s: seq<T>, key: T -> int)
    ensures forall x :: x in SortByKey(s, key) <==> x in s
  {
    var r := SortByKey(s, key);
    assert forall x :: x in r <==> x in multiset(r);
    assert forall x :: x in s <==> x in multiset(s);
  }

  /** Sorting is idempotent. */
  lemma SortIdempotent<T>(s: seq<T>, key: T -> int)
    ensures SortByKey(SortByKey(s, key), key) == SortByKey(s, key)
  {
    SortOfSorted(SortByKey(s, key), key);
  }

  /** The elements of `s` that satisfy `p`, in their original order (`filter`). */
  function Filter<T(!new)>(s: seq<T>, p: T -> bool): (r: seq<T>)
    ensures |r| <= |s|
    ensures forall k :: 0 <= k < |r| ==> p(r[k])
    ensures forall x :: multiset(r)[x] == if p(x) then multiset(s)[x] else 0
  {
    if s == [] then []
    else
      assert s == [s[0]] + s[1..];
      if p(s[0]) then [s[0]] + Filter(s[1..], p) else Filter(s[1..], p)
  }

  /** Filtering distributes over concatenation: it keeps the relative order of what it keeps. */
  lemma {:induction false} FilterAppend<T(!new)>(a: seq<T>, b: seq<T>, p: T -> bool)
    ensures Filter(a + b, p) == Filter(a, p) + Filter(b, p)
  {
    if a == [] {
      assert a + b == b;
    } else {
      assert (a + b)[1..] == a[1..] + b;
      FilterAppend(a[1..], b, p);
    }
  }

  /** Filtering keeps everything when everything satisfies the predicate. */
  lemma {:induction false} FilterAll<T(!new)>(s: seq<T>, p: T -> bool)
    requires forall k :: 0 <= k < |s| ==> p(s[k])
    ensures Filter(s, p) == s
  {
    if s != [] {
      FilterAll(s[1..], p);
    }
  }

  /** Filtering keeps nothing when nothing satisfies the predicate. */
  lemma {:induction false} FilterNone<T(!new)>(s: seq<T>, p: T -> bool)
    requires forall k :: 0 <= k < |s| ==> !p(s[k])
    ensures Filter(s, p) == []
  {
    if s != [] {
      FilterNone(s[1..], p);
    }
  }

  /** An element is kept exactly when it occurs and satisfies the predicate. */
  lemma FilterMembers<T(!new)>(s: seq<T>, p: T -> bool)
    ensures forall x :: x in Filter(s, p) <==> x in s && p(x)
  {
    var r := Filter(s, p);
    assert forall x :: x in r <==> x in multiset(r);
    assert forall x :: x in s <==> x in multiset(s);
  }

  /** Filtering rearranged elements keeps as many: the count does not depend on the order. */
  lemma FilterPermutation<T(!new)>(a: seq<T>, b: seq<T>, p: T -> bool)
    requires multiset(a) == multiset(b)
    ensures multiset(Filter(a, p)) == multiset(Filter(b, p))
    ensures |Filter(a, p)| == |Filter(b, p)|
  {
    assert multiset(Filter(a, p)) == multiset(Filter(b, p));
    assert |multiset(Filter(a, p))| == |Filter(a, p)|;
  }

  /** Filtering keeps a lower bound on the key. */
  lemma {:induction false} FilterLowerBound<T(!new)>(s: seq<T>, p: T -> bool, key: T -> int, bound: int)
    requires forall k :: 0 <= k < |s| ==> bound <= key(s[k])
    ensures forall k :: 0 <= k < |Filter(s, p)| ==> bound <= key(Filter(s, p)[k])
  {
    if s != [] {
      FilterLowerBound(s[1..], p, key, bound);
    }
  }

  /** An element no larger than any element of a sorted sequence can go in front of it. */
  lemma SortedCons<T>(x: T, s: seq<T>, key: T -> int)
    requires SortedByKey(s, key)
    requires forall k :: 0 <= k < |s| ==> key(x) <= key(s[k])
    ensures SortedByKey([x] + s, key)
  {
    var r := [x] + s;
    forall i, j | 0 <= i < j < |r|
      ensures key(r[i]) <= key(r[j])
    {
      assert r[j] == s[j - 1];
      if i > 0 {
        assert r[i] == s[i - 1];
      }
    }
  }

  /** Filtering a sorted sequence leaves it sorted. */
  lemma {:induction false} FilterSorted<T(!new)>(s: seq<T>, p: T -> bool, key: T -> int)
    requires SortedByKey(s, key)
    ensures SortedByKey(Filter(s, p), key)
  {
    if s != [] {
      var tail := s[1..];
      FilterSorted(tail, p, key);
      if p(s[0]) {
        assert forall k :: 0 <= k < |tail| ==> tail[k] == s[k + 1];
        FilterLowerBound(tail, p, key, key(s[0]));
        SortedCons(s[0], Filter(tail, p), key);
      }
    }
  }

  /** Replacing one element changes the number of elements that satisfy `p` only by
      what the old and the new element contribute. */
  lemma {:induction false} FilterUpdate<T(!new)>(s: seq<T>, i: nat, x: T, p: T -> bool)
    requires i < |s|
    ensures |Filter(s[i := x], p)| + (if p(s[i]) then 1 else 0)
         == |Filter(s, p)| + (if p(x) then 1 else 0)
  {
    assert s == s[..i] + [s[i]] + s[i+1..];
    assert s[i := x] == s[..i] + [x] + s[i+1..];
    FilterAppend(s[..i] + [s[i]], s[i+1..], p);
    FilterAppend(s[..i], [s[i]], p);
    FilterAppend(s[..i] + [x], s[i+1..], p);
    FilterAppend(s[..i], [x], p);
  }

  /** Elements satisfying two mutually exclusive predicates are counted at most once. */
  lemma {:induction false} FilterDisjoint<T(!new)>(s: seq<T>, p: T -> bool, q: T -> bool)
    requires forall x :: !(p(x) && q(x))
    ensures |Filter(s, p)| + |Filter(s, q)| <= |s|
  {
    if s != [] {
      FilterDisjoint(s[1..], p, q);
    }
  }

  /** The position of the first element whose `idOf` is `id` (`firstIndex(where:)`). */
  function FirstIndexOf<T>(s: seq<T>, idOf: T -> string, id: string): (r: Option<nat>)
    ensures r.None? <==> forall k :: 0 <= k < |s| ==> idOf(s[k]) != id
    ensures r.Some? ==> r.value < |s| && idOf(s[r.value]) == id
                        && forall k :: 0 <= k < r.value ==> idOf(s[k]) != id
  {
    if s == [] then None
    else if idOf(s[0]) == id then Some(0)
    else
      match FirstIndexOf(s[1..], idOf, id)
      case None => None
      case Some(k) => Some(k + 1)
  }
}
