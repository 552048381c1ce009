/** Failure-carrying wrappers shared by the ingest modules. */
module Base {

  /** A value that may be absent: `None` stands for an operation that raised. */
  datatype Option<+T> = None | Some(value: T)

  /** The outcome of an operation that either succeeds with a value or fails with an error. */
  datatype Result<+T, +E> = Success(value: T) | Failure(error: E)
}
