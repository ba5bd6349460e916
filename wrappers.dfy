/** Option and Result, the failure-compatible wrappers used throughout the model.
    A Python function that returns `None` on failure is modelled with Option; one that
    raises is modelled with Result, whose Failure carries the exception. */
module Wrappers {

  datatype Option<+T> = None | Some(value: T)

  datatype Result<+T, +E> = Success(value: T) | Failure(error: E) {

    predicate IsFailure() {
      Failure?
    }

    function PropagateFailure<U>(): Result<U, E>
      requires Failure?
    {
      Failure(error)
    }

    function Extract(): T
      requires Success?
    {
      value
    }
  }
}
