/** Collecting the elements of a hash set or the keys of a hash map into a vector. */
module Collections {

  /**
   * `set.iter().cloned().collect::<Vec<_>>()`: every element once, in the
   * unspecified iteration order of the hash table (any order satisfies the
   * contract).
   */
  method SetToSeq<T(==)>(s: set<T>) returns (r: seq<T>)
    ensures multiset(r) == multiset(s)
  {
    r := [];
    var rest := s;
    while rest != {}
      invariant rest <= s
      invariant multiset(r) + multiset(rest) == multiset(s)
      decreases |rest|
    {
      var x :| x in rest;
      assert multiset(rest) == multiset(rest - {x}) + multiset{x};
      r := r + [x];
      rest := rest - {x};
    }
  }

  /** A sequence holding each element of a set once has exactly its elements, none twice. */
  lemma CollectedExactly<T>(r: seq<T>, s: set<T>)
    requires multiset(r) == multiset(s)
    ensures |r| == |s|
    ensures forall x :: x in r <==> x in s
    ensures forall i, j :: 0 <= i < j < |r| ==> r[i] != r[j]
  {
    forall x ensures x in r <==> x in s {
      assert x in r <==> x in multiset(r);
    }
    forall i, j | 0 <= i < j < |r| ensures r[i] != r[j] {
      assert r == r[..i] + [r[i]] + r[i + 1..j] + [r[j]] + r[j + 1..];
      assert multiset{r[i], r[j]} <= multiset(r);
      assert multiset(s)[r[i]] <= 1;
    }
  }
}
