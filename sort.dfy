/**
 * An in-place insertion sort by adjacent swaps into descending order of an
 * integer key; an element moves left only past elements with a strictly
 * smaller key, as a stable sort does.
 */
module ArraySort {

  /** Descending by key between positions lo and hi. */
  predicate DescendingBetween<T>(s: seq<T>, key: T -> int, lo: int, hi: int)
    requires 0 <= lo <= hi <= |s|
  {
    forall p, q :: lo <= p < q < hi ==> key(s[q]) <= key(s[p])
  }

  predicate Descending<T>(s: seq<T>, key: T -> int) {
    forall p, q :: 0 <= p < q < |s| ==> key(s[q]) <= key(s[p])
  }

  lemma SwapKeepsMultiset<T>(s: seq<T>, i: int, j: int)
    requires 0 <= i < |s| && 0 <= j < |s|
    ensures multiset(s[i := s[j]][j := s[i]]) == multiset(s)
  {
  }

  /**
   * Halfway through one insertion pass: the element being moved sits at j,
   * everything before it and everything after it up to i is in order, the
   * elements after it have strictly smaller keys, and its two neighbours are
   * in order.
   */
  predicate Inserting<T>(s: seq<T>, key: T -> int, j: int, i: int) {
    && 0 <= j <= i < |s|
    && DescendingBetween(s, key, 0, j)
    && DescendingBetween(s, key, j + 1, i + 1)
    && (forall q :: j < q <= i ==> key(s[q]) < key(s[j]))
    && (0 < j < i ==> key(s[j + 1]) <= key(s[j - 1]))
  }

  lemma InsertingStart<T>(s: seq<T>, key: T -> int, i: int)
    requires 0 <= i < |s| && Descending(s[..i], key)
    ensures Inserting(s, key, i, i)
  {
    assert forall p :: 0 <= p < i ==> s[..i][p] == s[p];
  }

  lemma InsertingStep<T>(s: seq<T>, key: T -> int, j: int, i: int)
    requires Inserting(s, key, j, i) && 0 < j
    requires key(s[j - 1]) < key(s[j])
    ensures Inserting(s[j - 1 := s[j]][j := s[j - 1]], key, j - 1, i)
  {
    var t := s[j - 1 := s[j]][j := s[j - 1]];
    forall p, q | j <= p < q < i + 1 ensures key(t[q]) <= key(t[p]) {
      if p == j && q > j {
        assert key(t[q]) < key(s[j]);
      }
    }
  }

  lemma InsertingDone<T>(s: seq<T>, key: T -> int, j: int, i: int)
    requires Inserting(s, key, j, i)
    requires j == 0 || key(s[j]) <= key(s[j - 1])
    ensures Descending(s[..i + 1], key)
  {
    forall p, q | 0 <= p < q < i + 1 ensures key(s[q]) <= key(s[p]) {
      if p < j && q > j {
        assert key(s[q]) <= key(s[j + 1]);
        assert key(s[j + 1]) <= key(s[j - 1]);
        assert p < j - 1 ==> key(s[j - 1]) <= key(s[p]);
      } else if p < j && q == j {
        assert p < j - 1 ==> key(s[j - 1]) <= key(s[p]);
      }
    }
  }

  /** One pass: a[i] moves left past the elements before it with strictly smaller keys. */
  method InsertDescending<T>(a: array<T>, key: T -> int, i: int)
    requires 0 <= i < a.Length && Descending(a[..i], key)
    modifies a
    ensures multiset(a[..]) == multiset(old(a[..]))
    ensures Descending(a[..i + 1], key)
  {
    var j := i;
    InsertingStart(a[..], key, i);
    while j > 0 && key(a[j - 1]) < key(a[j])
      invariant Inserting(a[..], key, j, i)
      invariant multiset(a[..]) == multiset(old(a[..]))
    {
      ghost var before := a[..];
      a[j - 1], a[j] := a[j], a[j - 1];
      SwapKeepsMultiset(before, j - 1, j);
      InsertingStep(before, key, j, i);
      assert a[..] == before[j - 1 := before[j]][j := before[j - 1]];
      j := j - 1;
    }
    InsertingDone(a[..], key, j, i);
  }

  /** The array, permuted in place into descending order of the key. */
  method SortDescending<T>(a: array<T>, key: T -> int)
    modifies a
    ensures multiset(a[..]) == multiset(old(a[..]))
    ensures Descending(a[..], key)
  {
    var i := 0;
    while i < a.Length
      invariant 0 <= i <= a.Length
      invariant multiset(a[..]) == multiset(old(a[..]))
      invariant Descending(a[..i], key)
    {
      InsertDescending(a, key, i);
      i := i + 1;
    }
    assert a[..a.Length] == a[..];
  }
}
