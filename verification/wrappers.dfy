/** The failure-carrying datatypes shared by every module of the bridge. */
module Wrappers {

  /** A value that may be absent (`undefined` / `null` in the source). */
  datatype Option<+T> = None | Some(value: T)

  /** The outcome of an operation that either resolves or throws. */
  datatype Result<+T, +E> = Success(value: T) | Failure(error: E)

  /** The outcome of an operation that resolves with nothing or throws. */
  datatype Outcome<+E> = Pass | Fail(error: E)

  /** Appending is associative; stated once so that proofs about grown
      sequences need not rediscover it element by element. */
  lemma AppendAssoc<T>(a: seq<T>, b: seq<T>, c: seq<T>)
    ensures (a + b) + c == a + (b + c)
  {
  }
}
