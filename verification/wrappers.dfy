/** Results of operations that may throw. */
module Wrappers {

  /** A value that may be absent, such as an optional property. */
  datatype Option<+T> = None | Some(value: T)

  /** A returned value, or the exception thrown instead. */
  datatype Result<+T, +E> = Success(value: T) | Failure(error: E)

  /** Normal completion of an operation with no result, or the exception
      thrown instead. */
  datatype Outcome<+E> = Pass | Fail(error: E)
}
