/**
 * Cache keys of the renderer: a key is a vector of integers (a path of node
 * ids) held through a possibly-null shared pointer. The comparator orders
 * null before every key, shorter keys before longer ones, and keys of equal
 * length lexicographically. Keys are modelled by value: the comparator looks
 * at the pointed-to vectors, so two pointers to equal vectors are equivalent.
 */
module CacheKeys {
  import opened Wrappers

  type CacheKey = seq<int>
  type CacheKeyPtr = Option<CacheKey>

  /** `std::vector<int>::operator<`: lexicographic comparison. */
  predicate LexLess(a: seq<int>, b: seq<int>)
  {
    if |a| == 0 then |b| > 0
    else if |b| == 0 then false
    else a[0] < b[0] || (a[0] == b[0] && LexLess(a[1..], b[1..]))
  }

  /** The comparator `CacheKeyCompare` of the renderer's key sets and table. */
  predicate KeyLess(a: CacheKeyPtr, b: CacheKeyPtr)
  {
    if a == b then false
    else if a.None? then true
    else if b.None? then false
    else if |a.value| < |b.value| then true
    else if |a.value| > |b.value| then false
    else LexLess(a.value, b.value)
  }

  lemma {:induction false} LexLessIrreflexive(a: seq<int>)
    ensures !LexLess(a, a)
  {
    if |a| > 0 { LexLessIrreflexive(a[1..]); }
  }

  lemma {:induction false} LexLessTransitive(a: seq<int>, b: seq<int>, c: seq<int>)
    requires LexLess(a, b) && LexLess(b, c)
    ensures LexLess(a, c)
  {
    if |a| > 0 && |b| > 0 && |c| > 0 && a[0] == b[0] && b[0] == c[0] {
      LexLessTransitive(a[1..], b[1..], c[1..]);
    }
  }

  lemma {:induction false} LexLessTotal(a: seq<int>, b: seq<int>)
    requires a != b
    ensures LexLess(a, b) || LexLess(b, a)
  {
    if |a| > 0 && |b| > 0 && a[0] == b[0] {
      assert a == [a[0]] + a[1..] && b == [b[0]] + b[1..];
      LexLessTotal(a[1..], b[1..]);
    }
  }

  /** The comparator is a strict order: irreflexive ... */
  lemma {:induction false} KeyLessIrreflexive(a: CacheKeyPtr)
    ensures !KeyLess(a, a)
  {
  }

  /** ... asymmetric ... */
  lemma {:induction false} KeyLessAsymmetric(a: CacheKeyPtr, b: CacheKeyPtr)
    requires KeyLess(a, b)
    ensures !KeyLess(b, a)
  {
    if a.Some? && b.Some? && |a.value| == |b.value| && LexLess(b.value, a.value) {
      LexLessTransitive(a.value, b.value, a.value);
      LexLessIrreflexive(a.value);
    }
  }

  /** ... transitive ... */
  lemma {:induction false} KeyLessTransitive(a: CacheKeyPtr, b: CacheKeyPtr, c: CacheKeyPtr)
    requires KeyLess(a, b) && KeyLess(b, c)
    ensures KeyLess(a, c)
  {
    if a.Some? && b.Some? && c.Some? && |a.value| == |b.value| == |c.value| {
      LexLessTransitive(a.value, b.value, c.value);
      if a == c { LexLessIrreflexive(a.value); KeyLessAsymmetric(a, b); }
    }
  }

  /**
   * ... and total on values: two keys that are not less than each other are
   * the same key, so a set or map ordered by it holds one entry per value.
   */
  lemma {:induction false} KeyLessTotal(a: CacheKeyPtr, b: CacheKeyPtr)
    requires a != b
    ensures KeyLess(a, b) || KeyLess(b, a)
  {
    if a.Some? && b.Some? && |a.value| == |b.value| {
      LexLessTotal(a.value, b.value);
    }
  }
}
