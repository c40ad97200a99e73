/** An optional value. */
module Wrappers {
  datatype Option<T> = None | Some(value: T)
}

/** Sizes of sets. */
module Sets {
  lemma SubsetSize<T>(a: set<T>, b: set<T>)
    requires a <= b
    ensures |a| <= |b|
  {
    assert b == a + (b - a);
  }
}
