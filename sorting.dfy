/**
 * In-place sorting of an array by a real-valued key, used where the source
 * calls `std::sort` with a key comparison. `std::sort` promises an ascending
 * permutation and nothing about the order of equal keys, and so does this.
 */
module Sorting {
  /** `s` is in ascending order of `key`. */
  ghost predicate SortedBy<T>(s: seq<T>, key: T -> real)
  {
    forall i, j :: 0 <= i < j < |s| ==> key(s[i]) <= key(s[j])
  }

  /** Insertion sort: each step sinks one more element into the sorted prefix. */
  method SortByKey<T>(a: array<T>, key: T -> real)
    modifies a
    ensures SortedBy(a[..], key)
    ensures multiset(a[..]) == multiset(old(a[..]))
  {
    var i := 0;
    while i < a.Length
      invariant 0 <= i <= a.Length
      invariant forall p, q :: 0 <= p < q < i ==> key(a[p]) <= key(a[q])
      invariant multiset(a[..]) == multiset(old(a[..]))
    {
      SinkInto(a, i, key);
      i := i + 1;
    }
  }

  /** `s[..n+1]` is in ascending order of `key` except possibly at position `j`. */
  ghost predicate SortedBut<T>(s: seq<T>, n: nat, j: nat, key: T -> real)
    requires n < |s|
  {
    forall p, q :: 0 <= p < q <= n && q != j ==> key(s[p]) <= key(s[q])
  }

  /** The neighbours of the hole at `j` are in order with each other. */
  ghost predicate Bridged<T>(s: seq<T>, n: nat, j: nat, key: T -> real)
    requires n < |s|
  {
    0 < j < n ==> key(s[j - 1]) <= key(s[j + 1])
  }

  /** One adjacent swap moves the hole one place to the left. */
  lemma {:induction false} SinkStep<T>(s: seq<T>, n: nat, j: nat, key: T -> real)
    requires 0 < j <= n < |s|
    requires SortedBut(s, n, j, key) && Bridged(s, n, j, key)
    requires key(s[j - 1]) > key(s[j])
    ensures var t := s[j - 1 := s[j]][j := s[j - 1]];
      SortedBut(t, n, j - 1, key) && Bridged(t, n, j - 1, key)
  {
    var t := s[j - 1 := s[j]][j := s[j - 1]];
    forall p, q | 0 <= p < q <= n && q != j - 1
      ensures key(t[p]) <= key(t[q])
    {
      if q == j && p == j - 1 {
      } else if q == j {
        assert key(s[p]) <= key(s[j - 1]);
      } else if p == j {
        assert q > j;
        assert key(s[j - 1]) <= key(s[q]);
      } else if p == j - 1 {
        assert key(s[j]) < key(s[j - 1]);
        assert key(s[j - 1]) <= key(s[q]);
      }
    }
  }

  /** Swapping two elements keeps the multiset. */
  lemma {:induction false} SwapMultiset<T>(s: seq<T>, j: nat)
    requires 0 < j < |s|
    ensures multiset(s[j - 1 := s[j]][j := s[j - 1]]) == multiset(s)
  {
  }

  /** When the hole is in order with its left neighbour, the prefix is sorted. */
  lemma {:induction false} SinkDone<T>(s: seq<T>, n: nat, j: nat, key: T -> real)
    requires j <= n < |s|
    requires SortedBut(s, n, j, key) && Bridged(s, n, j, key)
    requires j > 0 ==> key(s[j - 1]) <= key(s[j])
    ensures forall p, q :: 0 <= p < q <= n ==> key(s[p]) <= key(s[q])
  {
    forall p, q | 0 <= p < q <= n ensures key(s[p]) <= key(s[q]) {
      if q == j && p < j - 1 {
        assert key(s[p]) <= key(s[j - 1]);
      }
      if p == j && j > 0 {
        assert key(s[j - 1]) <= key(s[q]);
      }
    }
  }

  /** Moves `a[i]` left by adjacent swaps until `a[..i+1]` is sorted. */
  method SinkInto<T>(a: array<T>, i: nat, key: T -> real)
    requires i < a.Length
    requires forall p, q :: 0 <= p < q < i ==> key(a[p]) <= key(a[q])
    modifies a
    ensures forall p, q :: 0 <= p < q <= i ==> key(a[p]) <= key(a[q])
    ensures multiset(a[..]) == multiset(old(a[..]))
  {
    var j := i;
    while j > 0 && key(a[j - 1]) > key(a[j])
      invariant 0 <= j <= i
      invariant SortedBut(a[..], i, j, key) && Bridged(a[..], i, j, key)
      invariant multiset(a[..]) == multiset(old(a[..]))
    {
      ghost var s := a[..];
      SinkStep(s, i, j, key);
      SwapMultiset(s, j);
      a[j - 1], a[j] := a[j], a[j - 1];
      assert a[..] == s[j - 1 := s[j]][j := s[j - 1]];
      j := j - 1;
    }
    SinkDone(a[..], i, j, key);
  }
}
