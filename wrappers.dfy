/** Optional values and results with an error, standing in for C# null and thrown exceptions. */
module Wrappers {

  /** A value that may be absent (a null reference in the original). */
  datatype Option<+T> = None | Some(value: T)

  /** Either a value or the exception that was thrown instead of producing it. */
  datatype Result<+T, +E> = Success(value: T) | Failure(error: E)
}
