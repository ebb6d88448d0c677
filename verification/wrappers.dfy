/** Optional values, and a result or an error, used across the model. */
module Wrappers {

  /** An optional value: the source's `null` / "absent". */
  datatype Option<+T> = None | Some(value: T)

  /** Either a computed value or the error the source would throw. */
  datatype Result<+T, +E> = Success(value: T) | Failure(error: E)
}
