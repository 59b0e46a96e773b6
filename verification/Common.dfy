/** What several of the modules need and none of them is about. */
module Common {

  datatype Option<T> = None | Some(value: T)

  /** The multiples of `size` are at least `size` apart. */
  lemma MulStep(i: nat, j: nat, size: nat)
    requires i < j
    ensures i * size + size <= j * size
  {
    assert j * size == i * size + (j - i) * size;
    assert (j - i) * size == size + (j - i - 1) * size;
  }

  /** An element of a sequence without repetition occurs once. */
  lemma DistinctOnce<T>(xs: seq<T>, i: nat)
    requires i < |xs|
    requires forall j, k :: 0 <= j < k < |xs| ==> xs[j] != xs[k]
    ensures multiset(xs)[xs[i]] == 1
  {
    assert xs == xs[..i] + [xs[i]] + xs[i + 1..];
    assert xs[i] !in xs[..i] && xs[i] !in xs[i + 1..];
  }
}
