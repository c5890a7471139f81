/**
 * Counting what is left to visit in a memoised walk over a finite set: the
 * measure the recursive walks of the model (the constant synthesis and the
 * type freezing of the extractor) terminate on.
 */
module SetCounting {
  /** A subset is no larger than the set it is taken from. */
  lemma SubsetCardinality<T>(a: set<T>, b: set<T>)
    requires a <= b
    ensures |a| <= |b|
    decreases |b|
  {
    if a != {} {
      var x :| x in a;
      SubsetCardinality(a - {x}, b - {x});
    }
  }

  /** Marking one more element of `all` as visited leaves fewer to visit. */
  lemma FewerLeft<T>(all: set<T>, before: set<T>, after: set<T>, x: T)
    requires before <= after && x in after && x !in before && x in all
    ensures |all - after| < |all - before|
  {
    SubsetCardinality(all - after, (all - before) - {x});
    assert (all - before) == ((all - before) - {x}) + {x};
  }

  /** Visiting more leaves no more to visit. */
  lemma NoMoreLeft<T>(all: set<T>, before: set<T>, after: set<T>)
    requires before <= after
    ensures |all - after| <= |all - before|
  {
    SubsetCardinality(all - after, all - before);
  }
}
