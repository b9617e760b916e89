/**
 * `Array.prototype.sort` with a comparator, as both the menu and the table
 * list use it: the array is reordered in place into a permutation of itself
 * that is sorted by the comparator.
 */
module Sorting {

  /** The comparator, read as "`x` may come before `y`", is total and transitive. */
  ghost predicate TotalPreorder<T(!new)>(leq: (T, T) -> bool) {
    && (forall x, y :: leq(x, y) || leq(y, x))
    && (forall x, y, z :: leq(x, y) && leq(y, z) ==> leq(x, z))
  }

  predicate SortedBy<T>(s: seq<T>, leq: (T, T) -> bool) {
    forall i, j | 0 <= i < j < |s| :: leq(s[i], s[j])
  }

  /** The first `n` elements of `s` are in comparator order. */
  ghost predicate PrefixSorted<T>(s: seq<T>, n: int, leq: (T, T) -> bool)
    requires n <= |s|
  {
    forall k, l | 0 <= k < l < n :: leq(s[k], s[l])
  }

  /** While `s[j]` moves down through `s[..i + 1]`: leaving position `j`
      out, the rest of `s[..i + 1]` is in order... */
  ghost predicate SortedAround<T>(s: seq<T>, i: int, j: int, leq: (T, T) -> bool)
    requires i < |s|
  {
    forall k, l | 0 <= k < l <= i && k != j && l != j :: leq(s[k], s[l])
  }

  /** ...and `s[j]` may come before everything above it. */
  ghost predicate BeforeAbove<T>(s: seq<T>, i: int, j: int, leq: (T, T) -> bool)
    requires 0 <= j <= i < |s|
  {
    forall l | j < l <= i :: leq(s[j], s[l])
  }

  /** Insertion sort: each element in turn is swapped down to its place. */
  method SortInPlace<T(!new)>(a: array<T>, leq: (T, T) -> bool)
    requires TotalPreorder(leq)
    modifies a
    ensures SortedBy(a[..], leq)
    ensures multiset(a[..]) == multiset(old(a[..]))
  {
    var i := 0;
    while i < a.Length
      invariant 0 <= i <= a.Length
      invariant PrefixSorted(a[..], i, leq)
      invariant multiset(a[..]) == multiset(old(a[..]))
    {
      InsertIntoPrefix(a, i, leq);
      i := i + 1;
    }
  }

  /** One pass of the sort: `a[i]` is swapped down into the sorted prefix
      `a[..i]`, so that `a[..i + 1]` ends sorted. */
  method InsertIntoPrefix<T(!new)>(a: array<T>, i: int, leq: (T, T) -> bool)
    requires TotalPreorder(leq)
    requires 0 <= i < a.Length
    requires PrefixSorted(a[..], i, leq)
    modifies a
    ensures PrefixSorted(a[..], i + 1, leq)
    ensures multiset(a[..]) == multiset(old(a[..]))
  {
    var j := i;
    while j > 0 && !leq(a[j - 1], a[j])
      invariant 0 <= j <= i
      invariant SortedAround(a[..], i, j, leq)
      invariant BeforeAbove(a[..], i, j, leq)
      invariant multiset(a[..]) == multiset(old(a[..]))
    {
      ghost var before := a[..];
      a[j - 1], a[j] := a[j], a[j - 1];
      SwapDown(before, a[..], i, j, leq);
      j := j - 1;
    }
    InsertionDone(a[..], i, j, leq);
  }

  /** Swapping `s[j]` below a neighbour it may not follow moves the hole down
      by one and keeps the same elements. */
  lemma SwapDown<T(!new)>(s: seq<T>, t: seq<T>, i: int, j: int, leq: (T, T) -> bool)
    requires TotalPreorder(leq)
    requires 0 < j <= i < |s| == |t|
    requires SortedAround(s, i, j, leq) && BeforeAbove(s, i, j, leq)
    requires !leq(s[j - 1], s[j])
    requires t == s[j - 1 := s[j]][j := s[j - 1]]
    ensures SortedAround(t, i, j - 1, leq) && BeforeAbove(t, i, j - 1, leq)
    ensures multiset(t) == multiset(s)
  {
    forall k, l | 0 <= k < l <= i && k != j - 1 && l != j - 1
      ensures leq(t[k], t[l])
    {
      if l == j {
        assert leq(s[k], s[j - 1]);
      } else if k == j {
        assert leq(s[j - 1], s[l]);
      } else {
        assert leq(s[k], s[l]);
      }
    }
    forall l | j - 1 < l <= i
      ensures leq(t[j - 1], t[l])
    {
      if l == j {
        assert leq(s[j], s[j - 1]);
      } else {
        assert leq(s[j], s[l]);
      }
    }
  }

  /** When `s[j]` may follow its lower neighbour (or is first), the whole of
      `s[..i + 1]` is in order. */
  lemma InsertionDone<T(!new)>(s: seq<T>, i: int, j: int, leq: (T, T) -> bool)
    requires TotalPreorder(leq)
    requires 0 <= j <= i < |s|
    requires SortedAround(s, i, j, leq) && BeforeAbove(s, i, j, leq)
    requires j == 0 || leq(s[j - 1], s[j])
    ensures PrefixSorted(s, i + 1, leq)
  {
    forall k, l | 0 <= k < l <= i
      ensures leq(s[k], s[l])
    {
      if l == j && k < j - 1 {
        assert leq(s[k], s[j - 1]);
      }
    }
  }
}
