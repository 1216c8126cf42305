// The failure-compatible results the rest of the project shares.
module Wrappers {

  /** An absent or present value: `absl::optional`, or a pointer that may be null. */
  datatype Option<+T> = None | Some(value: T)

  /** A value, or the reason a `TracerException` was thrown instead. */
  datatype Result<+T, +E> = Success(value: T) | Failure(error: E)
}
