/** Optional values and error-carrying results, for Swift optionals and `throws`. */
module Wrappers {

  datatype Option<+T> = None | Some(value: T)

  datatype Result<+T, +E> = Ok(value: T) | Err(error: E)

  /** A result without a value: a Swift `throws` function returning Void. */
  datatype Outcome<+E> = Pass | Fail(error: E)
}
