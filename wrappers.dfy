/** Optional values and success/failure outcomes, standing in for Java's
    `null`/`Optional` and for exceptions thrown by the backend. */
module Wrappers {

  datatype Option<+T> = None | Some(value: T)

  /** The outcome of an operation that yields a value or fails. */
  datatype Result<+R, +E> = Success(value: R) | Failure(error: E)

  /** The outcome of an operation that yields nothing or fails. */
  datatype Outcome<+E> = Pass | Fail(error: E)
}
