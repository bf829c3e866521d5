/** The ascending numeric sort that `analyzeTestBayesian` applies to its uplift
    samples (`upliftSamples.sort((a, b) => a - b)`). The engine's own sorting
    algorithm is not visible; it is modelled here by an insertion sort that works
    in place on the same array and promises the same outcome. */
module Sorting {

  /** Ascending order. */
  predicate Sorted(s: seq<real>) {
    forall i, j :: 0 <= i < j < |s| ==> s[i] <= s[j]
  }

  /** `t` is `s` rearranged into ascending order. */
  predicate SortedPermutationOf(t: seq<real>, s: seq<real>) {
    Sorted(t) && multiset(t) == multiset(s)
  }

  /** Sorts `a` in place into ascending order, keeping its elements. */
  method SortAscending(a: array<real>)
    modifies a
    ensures SortedPermutationOf(a[..], old(a[..]))
  {
    var i := 0;
    while i < a.Length
      invariant 0 <= i <= a.Length
      invariant Sorted(a[..i])
      invariant multiset(a[..]) == multiset(old(a[..]))
    {
      InsertInto(a, i);
      i := i + 1;
    }
    assert a[..a.Length] == a[..];
  }

  /** Moves `a[i]` left past every larger element, so that a sorted prefix of
      length `i` becomes a sorted prefix of length `i + 1`. */
  method InsertInto(a: array<real>, i: int)
    requires 0 <= i < a.Length && Sorted(a[..i])
    modifies a
    ensures Sorted(a[..i + 1])
    ensures a[i + 1..] == old(a[i + 1..])
    ensures multiset(a[..]) == multiset(old(a[..]))
  {
    var j := i;
    InsertionStart(a[..], i);
    while 0 < j && a[j] < a[j - 1]
      invariant 0 <= j <= i
      invariant SortedAround(a[..], i, j) && BelowLater(a[..], i, j)
      invariant a[i + 1..] == old(a[i + 1..])
      invariant multiset(a[..]) == multiset(old(a[..]))
    {
      ghost var before := a[..];
      a[j - 1], a[j] := a[j], a[j - 1];
      assert a[..] == before[j - 1 := before[j]][j := before[j - 1]];
      InsertionStep(before, i, j);
      j := j - 1;
    }
    InsertionDone(a[..], i, j);
  }

  /** Within `s[..n + 1]`, every pair of positions other than `j` is in order. */
  predicate SortedAround(s: seq<real>, n: int, j: int) {
    0 <= j <= n < |s| &&
    forall k, l :: 0 <= k < l <= n && k != j && l != j ==> s[k] <= s[l]
  }

  /** `s[j]` is below everything after it up to position `n`. */
  predicate BelowLater(s: seq<real>, n: int, j: int) {
    0 <= j <= n < |s| &&
    forall l :: j < l <= n ==> s[j] < s[l]
  }

  lemma InsertionStart(s: seq<real>, n: int)
    requires 0 <= n < |s| && Sorted(s[..n])
    ensures SortedAround(s, n, n) && BelowLater(s, n, n)
  {
    forall k, l | 0 <= k < l <= n && k != n && l != n
      ensures s[k] <= s[l]
    {
      assert s[k] == s[..n][k] && s[l] == s[..n][l];
    }
  }

  /** Exchanging `s[j]` with a larger left neighbour moves the hole one step left. */
  lemma InsertionStep(s: seq<real>, n: int, j: int)
    requires SortedAround(s, n, j) && BelowLater(s, n, j)
    requires 0 < j && s[j] < s[j - 1]
    ensures var t := s[j - 1 := s[j]][j := s[j - 1]];
            SortedAround(t, n, j - 1) && BelowLater(t, n, j - 1)
            && multiset(t) == multiset(s)
  {
    var t := s[j - 1 := s[j]][j := s[j - 1]];
    forall k, l | 0 <= k < l <= n && k != j - 1 && l != j - 1
      ensures t[k] <= t[l]
    {
      if l == j {
        assert t[l] == s[j - 1];
        if k < j - 1 {
          assert s[k] <= s[j - 1];
        }
      } else if k == j {
        assert t[k] == s[j - 1];
        assert s[j - 1] <= s[l];
      }
    }
  }

  /** Once `s[j]` is not below its left neighbour, the prefix `s[..n + 1]` is sorted. */
  lemma InsertionDone(s: seq<real>, n: int, j: int)
    requires SortedAround(s, n, j) && BelowLater(s, n, j)
    requires j == 0 || s[j - 1] <= s[j]
    ensures Sorted(s[..n + 1])
  {
    forall k, l | 0 <= k < l <= n
      ensures s[k] <= s[l]
    {
      if k == j {
        assert s[j] < s[l];
      } else if l == j {
        assert s[k] <= s[j - 1];
      }
    }
  }

  /** A sorted rearrangement is unique: the order statistics of a collection do not
      depend on the order its elements came in. */
  lemma {:induction false} SortedPermutationUnique(t1: seq<real>, t2: seq<real>)
    requires Sorted(t1) && Sorted(t2) && multiset(t1) == multiset(t2)
    ensures t1 == t2
  {
    assert |t1| == |multiset(t1)| == |multiset(t2)| == |t2|;
    if |t1| > 0 {
      LeastFirst(t1, t2);
      LeastFirst(t2, t1);
      SameTailMultiset(t1, t2);
      SortedPermutationUnique(t1[1..], t2[1..]);
      assert t1 == [t1[0]] + t1[1..];
      assert t2 == [t2[0]] + t2[1..];
    }
  }

  /** The first element of a sorted sequence is at most every element of any
      rearrangement of it. */
  lemma LeastFirst(t1: seq<real>, t2: seq<real>)
    requires Sorted(t1) && multiset(t1) == multiset(t2) && 0 < |t1| && 0 < |t2|
    ensures t1[0] <= t2[0]
  {
    assert t2[0] in multiset(t1);
    var k :| 0 <= k < |t1| && t1[k] == t2[0];
  }

  /** Removing equal first elements leaves equal multisets. */
  lemma SameTailMultiset(t1: seq<real>, t2: seq<real>)
    requires multiset(t1) == multiset(t2) && 0 < |t1| && 0 < |t2| && t1[0] == t2[0]
    ensures multiset(t1[1..]) == multiset(t2[1..])
  {
    assert t1 == [t1[0]] + t1[1..];
    assert t2 == [t2[0]] + t2[1..];
    assert multiset(t1) == multiset{t1[0]} + multiset(t1[1..]);
    assert multiset(t2) == multiset{t2[0]} + multiset(t2[1..]);
    assert multiset(t1[1..]) == multiset(t1) - multiset{t1[0]};
    assert multiset(t2[1..]) == multiset(t2) - multiset{t2[0]};
  }
}
