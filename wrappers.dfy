/** Failure-compatible wrappers used across the model: Kotlin's nullable
    values become `Option`, and thrown exceptions become `Result` failures. */
module Wrappers {

  /** A nullable value (`T?` in Kotlin). */
  datatype Option<+T> = None | Some(value: T) {

    /** Kotlin's elvis operator `this ?: default`. */
    function GetOr(default: T): T {
      match this
      case Some(v) => v
      case None => default
    }
  }

  /** The exceptions the services throw; each aborts the surrounding transaction. */
  datatype Error =
    | NoSuchElement(message: string)     // NoSuchElementException
    | IllegalArgument(message: string)   // IllegalArgumentException, e.g. from Enum.valueOf

  /** The outcome of an operation that may throw one of the `Error`s. */
  datatype Result<+T> = Success(value: T) | Failure(error: Error) {

    predicate IsFailure() {
      Failure?
    }

    function PropagateFailure<U>(): Result<U>
      requires Failure?
    {
      Failure(error)
    }

    function Extract(): T
      requires Success?
    {
      value
    }
  }
}
