/** Optional values, and results of operations that can fail. */
module Wrappers {
  datatype Option<+T> = None | Some(value: T)

  /** What the original throws is returned as a failure. */
  datatype Fallible<+T, +E> = Success(value: T) | Failure(error: E) {
    predicate IsFailure() {
      Failure?
    }

    function PropagateFailure<U>(): Fallible<U, E>
      requires Failure?
    {
      Failure(error)
    }

    function Extract(): T
      requires Success?
    {
      value
    }
  }
}
