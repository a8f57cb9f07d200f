/** Optional values and results with an error, shared by the other modules. */
module Results {

  /** A value that may be absent: a nullable column, a missing request field. */
  datatype Option<+T> = None | Some(value: T)

  /** The outcome of a validation or a write: the accepted value or the error raised. */
  datatype Result<+T, +E> = Ok(value: T) | Err(error: E)
}

/** Facts about sequences and the multisets of their elements. */
module SeqFacts {

  /**
   * If a and b hold the same elements and b[i] is the head of a, then the
   * tail of a and b without position i hold the same elements.
   */
  lemma RemoveMatchingHead<T>(a: seq<T>, b: seq<T>, i: nat)
    requires multiset(a) == multiset(b)
    requires a != [] && i < |b| && b[i] == a[0]
    ensures multiset(a[1..]) == multiset(b[..i] + b[i + 1..])
  {
    var x, rest := a[0], b[..i] + b[i + 1..];
    assert a == [x] + a[1..];
    assert b == b[..i] + [x] + b[i + 1..];
    assert multiset(a) == multiset{x} + multiset(a[1..]);
    assert multiset(b) == multiset(b[..i]) + multiset{x} + multiset(b[i + 1..]);
    assert multiset(rest) == multiset(b[..i]) + multiset(b[i + 1..]);
    assert forall y :: multiset(a[1..])[y] == multiset(a)[y] - multiset{x}[y] == multiset(rest)[y];
  }
}
