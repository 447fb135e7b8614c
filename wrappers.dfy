/** Failure-compatible helper datatypes shared by the model: a nullable value
    and the outcome of an operation that can throw. */
module Wrappers {

  /** A Kotlin nullable value: `None` stands for `null`. */
  datatype Option<+T> = None | Some(value: T) {

    /** The elvis operator `?:` with a default for `null`. */
    function GetOr(default: T): T {
      match this
      case Some(v) => v
      case None => default
    }
  }

  /** The value of a computation, or the exception it raises. */
  datatype Result<+T, +E> = Success(value: T) | Failure(error: E)
}
