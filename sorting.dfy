/** Stable insertion sort by an integer rank, highest rank first, and the
    facts about duplicates and permutations that the listings and the
    aggregations rely on. */
module Sorting {

  /** `s` is ordered by non-increasing `rank`. */
  ghost predicate SortedDesc<T>(s: seq<T>, rank: T -> int)
  {
    forall i, j :: 0 <= i < j < |s| ==> rank(s[i]) >= rank(s[j])
  }

  /** No element occurs twice in `s`. */
  ghost predicate NoDupes<T>(s: seq<T>)
  {
    forall i, j :: 0 <= i < j < |s| ==> s[i] != s[j]
  }

  /** Inserts `x` in front of the first element it does not rank below. */
  function Insert<T>(x: T, s: seq<T>, rank: T -> int): (r: seq<T>)
    requires SortedDesc(s, rank)
    ensures SortedDesc(r, rank)
    ensures multiset(r) == multiset(s) + multiset{x}
  {
    if s == [] then [x]
    else if rank(x) >= rank(s[0]) then [x] + s
    else
      var rest := Insert(x, s[1..], rank);
      HeadDominates(s, x, rest, rank);
      [s[0]] + rest
  }

  /** The head of a sorted `s` ranks at least as high as every element of a
      rearrangement of its tail with a lower-ranked `x` added. */
  lemma HeadDominates<T>(s: seq<T>, x: T, rest: seq<T>, rank: T -> int)
    requires SortedDesc(s, rank) && s != [] && rank(x) < rank(s[0])
    requires SortedDesc(rest, rank)
    requires multiset(rest) == multiset(s[1..]) + multiset{x}
    ensures SortedDesc([s[0]] + rest, rank)
    ensures multiset([s[0]] + rest) == multiset(s) + multiset{x}
  {
    forall j | 0 <= j < |rest| ensures rank(s[0]) >= rank(rest[j]) {
      assert rest[j] in multiset(rest);
      if rest[j] != x {
        assert rest[j] in multiset(s[1..]);
        var k :| 0 <= k < |s[1..]| && s[1..][k] == rest[j];
        assert s[k + 1] == rest[j];
      }
    }
    assert s == [s[0]] + s[1..];
  }

  /** Sorts by non-increasing `rank`; elements of equal rank keep their order. */
  function SortDesc<T>(s: seq<T>, rank: T -> int): (r: seq<T>)
    ensures SortedDesc(r, rank)
    ensures multiset(r) == multiset(s)
    ensures |r| == |s|
  {
    if s == [] then []
    else
      assert s == [s[0]] + s[1..];
      Insert(s[0], SortDesc(s[1..], rank), rank)
  }

  /** The first `k` elements of `s`, or all of it when it is shorter. */
  function Take<T>(s: seq<T>, k: nat): (r: seq<T>)
    ensures |r| <= k && |r| <= |s|
    ensures |r| == k || r == s
    ensures forall i :: 0 <= i < |r| ==> r[i] == s[i]
  {
    if |s| <= k then s else s[..k]
  }

  /** Two positions holding the same value make that value occur twice. */
  lemma TwoPositions<T>(s: seq<T>, i: int, j: int)
    requires 0 <= i < j < |s| && s[i] == s[j]
    ensures multiset(s)[s[i]] >= 2
  {
    assert s == s[..j] + [s[j]] + s[j + 1..];
    assert s[i] in s[..j];
  }

  /** In a sequence without duplicates every value occurs at most once. */
  lemma {:induction false} AtMostOnce<T>(s: seq<T>, x: T)
    requires NoDupes(s)
    ensures multiset(s)[x] <= 1
  {
    if s != [] {
      assert s == [s[0]] + s[1..];
      AtMostOnce(s[1..], x);
      if x == s[0] {
        assert x !in s[1..];
      }
    }
  }

  /** Having no duplicates is kept by every permutation. */
  lemma PermutationNoDupes<T>(a: seq<T>, b: seq<T>)
    requires NoDupes(a) && multiset(a) == multiset(b)
    ensures NoDupes(b)
  {
    forall i, j | 0 <= i < j < |b| ensures b[i] != b[j] {
      if b[i] == b[j] {
        TwoPositions(b, i, j);
        AtMostOnce(a, b[i]);
        assert false;
      }
    }
  }

  /** Membership is kept by every permutation. */
  lemma PermutationMembers<T>(a: seq<T>, b: seq<T>)
    requires multiset(a) == multiset(b)
    ensures forall x :: x in a <==> x in b
  {
    forall x ensures x in a <==> x in b {
      assert x in a <==> x in multiset(a);
      assert x in b <==> x in multiset(b);
    }
  }
}
