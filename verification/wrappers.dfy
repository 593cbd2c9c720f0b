/** Failure-compatible datatypes used by every other module: `Option` stands
    for a nullable reference or `Nullable<T>`, `Result` for a call that either
    returns a value or throws. */
module Wrappers {

  /** A value that may be absent (`null` in the modelled library). */
  datatype Option<+T> = None | Some(value: T) {

    /** The wrapped value, or `default` when absent (`GetValueOrDefault`). */
    function GetOr(default: T): T {
      match this
      case Some(v) => v
      case None => default
    }
  }

  /** Either the value a call returns or the error it throws. */
  datatype Result<+T, +E> = Success(value: T) | Failure(error: E) {

    predicate IsFailure() {
      Failure?
    }

    function PropagateFailure<U>(): Result<U, E>
      requires Failure?
    {
      Failure(error)
    }

    function Extract(): T
      requires Success?
    {
      value
    }
  }
}
