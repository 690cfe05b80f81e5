/**
 * The sort the catalog relies on (g_ptr_array_sort). Only its promise matters to the
 * catalog: the result is ordered by the comparator and is a permutation of the input.
 * Comparators are total preorders; equal elements may end up in any order.
 */
module Sorting {

  ghost predicate TotalPreorder<T(!new)>(le: (T, T) -> bool)
  {
    && (forall a, b :: le(a, b) || le(b, a))
    && (forall a, b, c :: le(a, b) && le(b, c) ==> le(a, c))
  }

  predicate SortedBy<T>(s: seq<T>, le: (T, T) -> bool)
  {
    forall i, j :: 0 <= i < j < |s| ==> le(s[i], s[j])
  }

  /** Inserts `x` into the sorted `s` after every element that may precede it. */
  method InsertSorted<T(!new)>(s: seq<T>, x: T, le: (T, T) -> bool) returns (r: seq<T>)
    requires TotalPreorder(le) && SortedBy(s, le)
    ensures SortedBy(r, le)
    ensures multiset(r) == multiset(s) + multiset{x}
  {
    var j := 0;
    while j < |s| && le(s[j], x)
      invariant 0 <= j <= |s|
      invariant forall k :: 0 <= k < j ==> le(s[k], x)
    {
      j := j + 1;
    }
    if j < |s| {
      assert le(x, s[j]);
      forall k | j <= k < |s| ensures le(x, s[k]) {
        if k > j { assert le(s[j], s[k]); }
      }
    }
    r := s[..j] + [x] + s[j..];
    forall p, q | 0 <= p < q < |r| ensures le(r[p], r[q]) {
      if q < j {
        assert r[p] == s[p] && r[q] == s[q];
      } else if q == j {
        assert r[p] == s[p] && r[q] == x;
      } else if p < j {
        assert r[p] == s[p] && r[q] == s[q - 1];
      } else if p == j {
        assert r[p] == x && r[q] == s[q - 1];
      } else {
        assert r[p] == s[p - 1] && r[q] == s[q - 1];
      }
    }
    assert s == s[..j] + s[j..];
  }

  /** Insertion sort: ordered by `le` and a permutation of the input. */
  method Sort<T(!new)>(s: seq<T>, le: (T, T) -> bool) returns (r: seq<T>)
    requires TotalPreorder(le)
    ensures SortedBy(r, le)
    ensures multiset(r) == multiset(s)
  {
    r := [];
    for i := 0 to |s|
      invariant SortedBy(r, le)
      invariant multiset(r) == multiset(s[..i])
    {
      r := InsertSorted(r, s[i], le);
      assert s[..i + 1] == s[..i] + [s[i]];
    }
    assert s[..|s|] == s;
  }

  /** In a sorted sequence, whatever is in the first `k` elements may precede whatever
    * is only in the rest. */
  lemma PrefixRanksFirst<T>(s: seq<T>, k: nat, le: (T, T) -> bool, d: T, e: T)
    requires SortedBy(s, le) && k <= |s|
    requires d in s[..k] && e in s && e !in s[..k]
    ensures le(d, e)
  {
    var i :| 0 <= i < k && s[i] == d;
    var j :| 0 <= j < |s| && s[j] == e;
  }

  /** Two permutations of each other hold the same elements. */
  lemma SameMembers<T>(s: seq<T>, t: seq<T>)
    requires multiset(s) == multiset(t)
    ensures forall x :: x in s <==> x in t
  {
    forall x ensures x in s <==> x in t {
      assert x in s <==> multiset(s)[x] > 0;
      assert x in t <==> multiset(t)[x] > 0;
    }
  }
}
