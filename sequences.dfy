/** Filtering and ordering of table rows, as a queryset's filter() and order_by() produce them. */
module Sequences {
  import opened Outcomes

  /** The first row of `s` that satisfies `p`, if any: a lookup by primary key. */
  function Find<T>(s: seq<T>, p: T -> bool): (r: Option<T>)
    ensures r.Some? ==> r.value in s && p(r.value)
    ensures r.None? <==> forall i :: 0 <= i < |s| ==> !p(s[i])
  {
    if s == [] then None
    else if p(s[0]) then Some(s[0])
    else
      assert forall i :: 1 <= i < |s| ==> s[i] == s[1..][i - 1];
      Find(s[1..], p)
  }

  /** The rows of `s` that satisfy `keep`, in their original order. */
  function Filter<T(!new)>(s: seq<T>, keep: T -> bool): (r: seq<T>)
    ensures |r| <= |s|
    ensures forall x :: x in r <==> x in s && keep(x)
    ensures multiset(r) <= multiset(s)
  {
    if s == [] then []
    else
      assert s == [s[0]] + s[1..];
      (if keep(s[0]) then [s[0]] else []) + Filter(s[1..], keep)
  }

  /** Filtering commutes with appending one row at the end of a table. */
  lemma {:induction false} FilterAppend<T(!new)>(s: seq<T>, x: T, keep: T -> bool)
    ensures Filter(s + [x], keep) == Filter(s, keep) + (if keep(x) then [x] else [])
  {
    if s == [] {
      assert s + [x] == [x];
    } else {
      assert (s + [x])[1..] == s[1..] + [x];
      FilterAppend(s[1..], x, keep);
    }
  }

  /** A filter that no row passes leaves nothing. */
  lemma {:induction false} FilterNone<T(!new)>(s: seq<T>, keep: T -> bool)
    requires forall x :: x in s ==> !keep(x)
    ensures Filter(s, keep) == []
  {
    if s != [] {
      assert s[0] in s;
      FilterNone(s[1..], keep);
    }
  }

  /** A relation that holds between every earlier and later row of `s`. */
  ghost predicate Pairwise<T>(s: seq<T>, rel: (T, T) -> bool) {
    forall i, j :: 0 <= i < j < |s| ==> rel(s[i], s[j])
  }

  /** Filtering keeps the relative order of the rows it keeps. */
  lemma {:induction false} FilterPairwise<T(!new)>(s: seq<T>, keep: T -> bool, rel: (T, T) -> bool)
    requires Pairwise(s, rel)
    ensures Pairwise(Filter(s, keep), rel)
  {
    if s != [] {
      var tail := s[1..];
      assert Pairwise(tail, rel) by {
        forall i, j | 0 <= i < j < |tail| ensures rel(tail[i], tail[j]) {
          assert tail[i] == s[i + 1] && tail[j] == s[j + 1];
        }
      }
      FilterPairwise(tail, keep, rel);
      var rest := Filter(tail, keep);
      if keep(s[0]) {
        var r := [s[0]] + rest;
        forall i, j | 0 <= i < j < |r| ensures rel(r[i], r[j]) {
          if i == 0 {
            assert r[j] in tail;
            var k :| 0 <= k < |tail| && tail[k] == r[j];
            assert s[k + 1] == r[j];
          } else {
            assert r[i] == rest[i - 1] && r[j] == rest[j - 1];
          }
        }
      }
    }
  }

  /** Appending a row that stands in `rel` to every existing row keeps `rel` between all pairs. */
  lemma PairwiseAppend<T>(s: seq<T>, x: T, rel: (T, T) -> bool)
    requires Pairwise(s, rel)
    requires forall i :: 0 <= i < |s| ==> rel(s[i], x)
    ensures Pairwise(s + [x], rel)
  {
  }

  /** The rows of `s` in non-decreasing order of `key`. */
  ghost predicate SortedBy<T>(s: seq<T>, key: T -> int) {
    forall i, j :: 0 <= i < j < |s| ==> key(s[i]) <= key(s[j])
  }

  /** A row whose key is at most the first key of a sorted sequence can go in front of it. */
  lemma SortedCons<T>(h: T, s: seq<T>, key: T -> int)
    requires SortedBy(s, key)
    requires s != [] ==> key(h) <= key(s[0])
    ensures SortedBy([h] + s, key)
  {
    var r := [h] + s;
    forall i, j | 0 <= i < j < |r| ensures key(r[i]) <= key(r[j]) {
      assert r[j] == s[j - 1];
      if i > 0 {
        assert r[i] == s[i - 1];
      } else if j > 1 {
        assert key(s[0]) <= key(s[j - 1]);
      }
    }
  }

  /** Inserts `x` in front of the first row whose key is not smaller. */
  function Insert<T>(x: T, s: seq<T>, key: T -> int): (r: seq<T>)
    requires SortedBy(s, key)
    ensures |r| == |s| + 1
    ensures SortedBy(r, key)
    ensures multiset(r) == multiset(s) + multiset{x}
    ensures r[0] == x || (s != [] && r[0] == s[0])
  {
    if s == [] || key(x) <= key(s[0]) then
      SortedCons(x, s, key);
      [x] + s
    else
      assert s == [s[0]] + s[1..];
      var rest := Insert(x, s[1..], key);
      assert key(s[0]) <= key(rest[0]) by {
        if rest[0] != x {
          assert key(s[0]) <= key(s[1]);
        }
      }
      SortedCons(s[0], rest, key);
      [s[0]] + rest
  }

  /** Insertion sort: a permutation of `s` ordered by `key`. */
  function SortBy<T>(s: seq<T>, key: T -> int): (r: seq<T>)
    ensures SortedBy(r, key)
    ensures multiset(r) == multiset(s)
  {
    if s == [] then []
    else
      assert s == [s[0]] + s[1..];
      Insert(s[0], SortBy(s[1..], key), key)
  }
}
