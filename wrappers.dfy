/** Optional values and results with an error, as the handlers use them. */
module Wrappers {

  /** A value that may be missing: an absent request field, a row not found, a token that did not verify. */
  datatype Option<+T> = None | Some(value: T)

  /** Either a value or the error that replaces it. */
  datatype Result<+T, +E> = Success(value: T) | Failure(error: E)
}
