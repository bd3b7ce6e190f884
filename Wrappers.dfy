/** Optional values: the source's `None` next to a value. */
module Wrappers {

  datatype Option<+T> = None | Some(value: T)

  /** A call that either returns a value or raises a Python exception. */
  datatype Result<+T, +E> = Success(value: T) | Failure(error: E)
}
