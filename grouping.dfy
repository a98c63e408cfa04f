/** Grouping of keys with a count per distinct key, as the database's
    `$group` stage with `{ $sum: 1 }` produces it, followed by `$sort` and
    `$limit`. Groups appear in the order their keys first occur, and the sort
    is stable; the database leaves both orders open, so this is one admissible
    choice among them. */
module Grouping {
  import opened Sorting

  datatype Group<K> = Group(key: K, count: nat)

  function KeysOf<K>(gs: seq<Group<K>>): (ks: seq<K>)
    ensures |ks| == |gs|
    ensures forall i :: 0 <= i < |gs| ==> ks[i] == gs[i].key
  {
    seq(|gs|, i requires 0 <= i < |gs| => gs[i].key)
  }

  ghost predicate DistinctKeys<K>(gs: seq<Group<K>>)
  {
    forall i, j :: 0 <= i < j < |gs| ==> gs[i].key != gs[j].key
  }

  /** Adds one occurrence of `k`: its group's count goes up by one, or a new
      group with count 1 is appended. */
  function Bump<K(==)>(gs: seq<Group<K>>, k: K): (r: seq<Group<K>>)
    requires DistinctKeys(gs)
    ensures |r| == if k in KeysOf(gs) then |gs| else |gs| + 1
    ensures forall i :: 0 <= i < |gs| ==>
              r[i] == if gs[i].key == k then Group(k, gs[i].count + 1) else gs[i]
    ensures k !in KeysOf(gs) ==> r[|gs|] == Group(k, 1)
  {
    if gs == [] then [Group(k, 1)]
    else if gs[0].key == k then
      assert k !in KeysOf(gs[1..]);
      [Group(k, gs[0].count + 1)] + gs[1..]
    else
      assert KeysOf(gs) == [gs[0].key] + KeysOf(gs[1..]);
      [gs[0]] + Bump(gs[1..], k)
  }

  /** One group per distinct key of `s`, counting its occurrences. */
  function Tally<K(==)>(s: seq<K>): (r: seq<Group<K>>)
    ensures DistinctKeys(r)
    ensures forall i :: 0 <= i < |r| ==> r[i].count == multiset(s)[r[i].key]
    ensures forall i :: 0 <= i < |r| ==> r[i].key in s
    ensures forall x :: x in s ==> x in KeysOf(r)
    decreases |s|
  {
    if s == [] then []
    else
      var init, last := s[..|s| - 1], s[|s| - 1];
      assert s == init + [last];
      var t := Tally(init);
      var r := Bump(t, last);
      TallyStep(init, last, t, r);
      r
  }

  lemma TallyStep<K>(init: seq<K>, last: K, t: seq<Group<K>>, r: seq<Group<K>>)
    requires DistinctKeys(t)
    requires forall i :: 0 <= i < |t| ==> t[i].count == multiset(init)[t[i].key]
    requires forall i :: 0 <= i < |t| ==> t[i].key in init
    requires forall x :: x in init ==> x in KeysOf(t)
    requires |r| == if last in KeysOf(t) then |t| else |t| + 1
    requires forall i :: 0 <= i < |t| ==>
               r[i] == if t[i].key == last then Group(last, t[i].count + 1) else t[i]
    requires last !in KeysOf(t) ==> r[|t|] == Group(last, 1)
    ensures DistinctKeys(r)
    ensures forall i :: 0 <= i < |r| ==> r[i].count == multiset(init + [last])[r[i].key]
    ensures forall i :: 0 <= i < |r| ==> r[i].key in init + [last]
    ensures forall x :: x in init + [last] ==> x in KeysOf(r)
  {
    var s := init + [last];
    assert forall y :: multiset(s)[y] == multiset(init)[y] + (if y == last then 1 else 0);
    forall x | x in s ensures x in KeysOf(r) {
      if x in KeysOf(t) {
        var i :| 0 <= i < |t| && KeysOf(t)[i] == x;
        assert KeysOf(r)[i] == x;
      } else {
        assert x == last;
        assert KeysOf(r)[|t|] == x;
      }
    }
    if last !in KeysOf(t) {
      assert multiset(init)[last] == 0;
    }
  }

  /** The sum of the counts of `gs`. */
  function TotalCount<K>(gs: seq<Group<K>>): nat
  {
    if gs == [] then 0 else gs[0].count + TotalCount(gs[1..])
  }

  lemma {:induction false} BumpTotal<K>(gs: seq<Group<K>>, k: K)
    requires DistinctKeys(gs)
    ensures TotalCount(Bump(gs, k)) == TotalCount(gs) + 1
  {
    if gs != [] && gs[0].key != k {
      assert KeysOf(gs) == [gs[0].key] + KeysOf(gs[1..]);
      BumpTotal(gs[1..], k);
      assert Bump(gs, k)[1..] == Bump(gs[1..], k);
    }
  }

  /** Every occurrence of a key lands in exactly one group. */
  lemma {:induction false} TallyTotal<K>(s: seq<K>)
    ensures TotalCount(Tally(s)) == |s|
    decreases |s|
  {
    if s != [] {
      var init := s[..|s| - 1];
      TallyTotal(init);
      BumpTotal(Tally(init), s[|s| - 1]);
    }
  }

  /** The first `k` groups of the tally of `s` ordered by non-increasing
      `rank`: distinct keys, exact counts, sorted, and no group left out
      ranks above one kept. */
  function Top<K(==)>(s: seq<K>, k: nat, rank: Group<K> -> int): (r: seq<Group<K>>)
    ensures |r| <= k
    ensures DistinctKeys(r)
    ensures forall i :: 0 <= i < |r| ==> r[i].key in s && r[i].count == multiset(s)[r[i].key]
    ensures SortedDesc(r, rank)
    ensures forall x :: x in s && x !in KeysOf(r) ==>
              |r| == k && forall i :: 0 <= i < |r| ==> rank(r[i]) >= rank(Group(x, multiset(s)[x]))
  {
    var t := Tally(s);
    var sorted := SortDesc(t, rank);
    SortedTally(s, t, sorted, rank);
    var r := Take(sorted, k);
    TakeTop(s, sorted, r, k, rank);
    r
  }

  /** What sorting keeps of a tally. */
  lemma SortedTally<K>(s: seq<K>, t: seq<Group<K>>, sorted: seq<Group<K>>, rank: Group<K> -> int)
    requires DistinctKeys(t)
    requires forall i :: 0 <= i < |t| ==> t[i].count == multiset(s)[t[i].key]
    requires forall i :: 0 <= i < |t| ==> t[i].key in s
    requires forall x :: x in s ==> x in KeysOf(t)
    requires multiset(sorted) == multiset(t)
    ensures DistinctKeys(sorted)
    ensures forall i :: 0 <= i < |sorted| ==>
              sorted[i].key in s && sorted[i].count == multiset(s)[sorted[i].key]
    ensures forall x :: x in s ==> Group(x, multiset(s)[x]) in sorted
  {
    PermutationMembers(t, sorted);
    forall i | 0 <= i < |sorted|
      ensures sorted[i].key in s && sorted[i].count == multiset(s)[sorted[i].key]
    {
      assert sorted[i] in t;
      var j :| 0 <= j < |t| && t[j] == sorted[i];
    }
    forall x | x in s ensures Group(x, multiset(s)[x]) in sorted {
      var j :| 0 <= j < |t| && KeysOf(t)[j] == x;
      assert t[j] == Group(x, multiset(s)[x]);
    }
    assert NoDupes(t);
    PermutationNoDupes(t, sorted);
  }

  lemma TakeTop<K>(s: seq<K>, sorted: seq<Group<K>>, r: seq<Group<K>>, k: nat, rank: Group<K> -> int)
    requires SortedDesc(sorted, rank)
    requires forall x :: x in s ==> Group(x, multiset(s)[x]) in sorted
    requires |r| <= k && |r| <= |sorted| && (|r| == k || r == sorted)
    requires forall i :: 0 <= i < |r| ==> r[i] == sorted[i]
    ensures SortedDesc(r, rank)
    ensures forall x :: x in s && x !in KeysOf(r) ==>
              |r| == k && forall i :: 0 <= i < |r| ==> rank(r[i]) >= rank(Group(x, multiset(s)[x]))
  {
    forall x | x in s && x !in KeysOf(r)
      ensures |r| == k && forall i :: 0 <= i < |r| ==> rank(r[i]) >= rank(Group(x, multiset(s)[x]))
    {
      var g := Group(x, multiset(s)[x]);
      var j :| 0 <= j < |sorted| && sorted[j] == g;
      assert j >= |r|;
    }
  }
}
