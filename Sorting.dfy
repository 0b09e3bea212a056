/**
 * `median` of Benchmark1.java: `Collections.sort` on the stored list of
 * samples, then the element at index `size / 2`. The order the sort
 * produces is specified by SortedSeq, a reference insertion sort on
 * sequences; the in-place sort on an array is proved to agree with it.
 */
module Sorting {

  ghost predicate Sorted(s: seq<int>)
  {
    forall p, q :: 0 <= p < q < |s| ==> s[p] <= s[q]
  }

  /** Inserts `x` into a sorted sequence. */
  function Insert(x: int, s: seq<int>): (r: seq<int>)
    requires Sorted(s)
    ensures Sorted(r) && multiset(r) == multiset(s) + multiset{x}
    ensures r[0] == x || (s != [] && r[0] == s[0])
  {
    if s == [] || x <= s[0] then
      ConsSorted(x, s);
      [x] + s
    else
      assert s == [s[0]] + s[1..];
      var t := Insert(x, s[1..]);
      ConsSorted(s[0], t);
      [s[0]] + t
  }

  /** Putting an element no larger than the head in front of a sorted sequence keeps it sorted. */
  lemma ConsSorted(a: int, t: seq<int>)
    requires Sorted(t) && (t == [] || a <= t[0])
    ensures Sorted([a] + t)
  {
    forall p, q | 0 <= p < q < |t| + 1
      ensures ([a] + t)[p] <= ([a] + t)[q]
    {
      if p == 0 {
        assert t[0] <= t[q - 1];
      }
    }
  }

  /** The sorted permutation of `s`: what `Collections.sort` leaves in the list. */
  function SortedSeq(s: seq<int>): (r: seq<int>)
    ensures Sorted(r) && multiset(r) == multiset(s) && |r| == |s|
  {
    if s == [] then []
    else
      assert s == [s[0]] + s[1..];
      Insert(s[0], SortedSeq(s[1..]))
  }

  /** The value `median` returns: the element at `size / 2` after sorting (the upper median). */
  function UpperMedian(s: seq<int>): (m: int)
    requires s != []
  {
    SortedSeq(s)[|s| / 2]
  }

  /** The first element of a non-empty sorted sequence is its least element. */
  lemma SortedHeadIsLeast(a: seq<int>, x: int)
    requires Sorted(a) && x in multiset(a)
    ensures a[0] <= x
  {
    var j :| 0 <= j < |a| && a[j] == x;
  }

  lemma SortedTail(a: seq<int>)
    requires Sorted(a) && a != []
    ensures Sorted(a[1..]) && multiset(a[1..]) == multiset(a) - multiset{a[0]}
  {
    assert a == [a[0]] + a[1..];
  }

  /** Two sorted sequences with the same elements start with the same (least) element. */
  lemma SameHead(a: seq<int>, b: seq<int>)
    requires Sorted(a) && Sorted(b) && multiset(a) == multiset(b) && a != []
    ensures b != [] && a[0] == b[0]
  {
    assert a[0] in multiset(a);
    assert b != [];
    assert b[0] in multiset(b);
    SortedHeadIsLeast(a, b[0]);
    SortedHeadIsLeast(b, a[0]);
  }

  /** A sorted sequence is determined by its multiset of elements. */
  lemma {:induction false} SortedUnique(a: seq<int>, b: seq<int>)
    requires Sorted(a) && Sorted(b) && multiset(a) == multiset(b)
    ensures a == b
  {
    if a == [] {
      assert b == [];
    } else {
      SameHead(a, b);
      SortedTail(a);
      SortedTail(b);
      SortedUnique(a[1..], b[1..]);
      assert a == [a[0]] + a[1..];
      assert b == [b[0]] + b[1..];
    }
  }

  /** Any sorted permutation of `s` is SortedSeq(s). */
  lemma SortedPermutationIsSortedSeq(s: seq<int>, t: seq<int>)
    requires Sorted(t) && multiset(t) == multiset(s)
    ensures t == SortedSeq(s)
  {
    SortedUnique(t, SortedSeq(s));
  }

  /** `median` depends only on the samples, not on the order they were recorded in. */
  lemma UpperMedianOfPermutation(s: seq<int>, t: seq<int>)
    requires s != [] && multiset(s) == multiset(t)
    ensures |t| == |s| && UpperMedian(s) == UpperMedian(t)
  {
    assert |t| == |multiset(t)| == |multiset(s)| == |s|;
    SortedUnique(SortedSeq(s), SortedSeq(t));
  }

  /** Sorting a sorted list changes nothing, so a second `median` returns the same value. */
  lemma SortIdempotent(s: seq<int>)
    ensures SortedSeq(SortedSeq(s)) == SortedSeq(s)
    ensures s != [] ==> UpperMedian(SortedSeq(s)) == UpperMedian(s)
  {
    SortedUnique(SortedSeq(SortedSeq(s)), SortedSeq(s));
  }

  /** The median is one of the samples; in the sorted list every element before index `size / 2` is no larger and every element after it no smaller. */
  lemma UpperMedianIsSample(s: seq<int>)
    requires s != []
    ensures UpperMedian(s) in multiset(s)
    ensures forall p :: 0 <= p < |s| / 2 ==> SortedSeq(s)[p] <= UpperMedian(s)
    ensures forall q :: |s| / 2 < q < |s| ==> UpperMedian(s) <= SortedSeq(s)[q]
  {
    var t := SortedSeq(s);
    assert t[|s| / 2] in multiset(t);
  }

  method Swap(a: array<int>, i: nat, j: nat)
    requires i < j < a.Length
    modifies a
    ensures a[..] == old(a[..])[i := old(a[j])][j := old(a[i])]
    ensures multiset(a[..]) == old(multiset(a[..]))
  {
    a[i], a[j] := a[j], a[i];
  }

  /** `Collections.sort(vals)`: sorts in place, here by insertion. */
  method SortInPlace(a: array<int>)
    modifies a
    ensures a[..] == SortedSeq(old(a[..]))
  {
    var i := 0;
    while i < a.Length
      invariant 0 <= i <= a.Length
      invariant Sorted(a[..i])
      invariant multiset(a[..]) == old(multiset(a[..]))
    {
      InsertLast(a, i);
      i := i + 1;
    }
    assert a[..a.Length] == a[..];
    SortedPermutationIsSortedSeq(old(a[..]), a[..]);
  }

  /** One pass of the insertion sort: moves `a[i]` left into the sorted prefix `a[..i]`. */
  method InsertLast(a: array<int>, i: nat)
    requires i < a.Length && Sorted(a[..i])
    modifies a
    ensures Sorted(a[..i + 1])
    ensures multiset(a[..]) == old(multiset(a[..]))
    ensures a[i + 1..] == old(a[i + 1..])
  {
    var j := i;
    while j > 0 && a[j - 1] > a[j]
      invariant 0 <= j <= i
      invariant forall p, q :: 0 <= p < q <= i && p != j && q != j ==> a[p] <= a[q]
      invariant forall q :: j < q <= i ==> a[j] < a[q]
      invariant 0 < j < i ==> a[j - 1] <= a[j + 1]
      invariant multiset(a[..]) == old(multiset(a[..]))
      invariant a[i + 1..] == old(a[i + 1..])
    {
      Swap(a, j - 1, j);
      j := j - 1;
    }
  }

  /** `median(vals)`: sorts `a` in place and returns its element at `a.Length / 2`. */
  method Median(a: array<int>) returns (m: int)
    requires a.Length > 0
    modifies a
    ensures a[..] == SortedSeq(old(a[..]))
    ensures m == a[a.Length / 2] == UpperMedian(old(a[..]))
  {
    SortInPlace(a);
    m := a[a.Length / 2];
  }
}
