/** Optional values and fallible results shared by the pipeline model. */
module Wrappers {

  /** A value that may be absent: Go's `nil` for messages and errors. */
  datatype Option<+T> = None | Some(value: T)

  /** The outcome of a fallible call: Go's `(value, err)` pair with exactly one side meaningful. */
  datatype Result<+T, +E> = Success(value: T) | Failure(error: E)
}
