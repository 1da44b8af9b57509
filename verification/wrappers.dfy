/** Optional values and success-or-failure outcomes shared by the other modules. */
module Wrappers {

  /** A value that may be missing, as Python's `None` is for a JSON `null`. */
  datatype Option<+T> = None | Some(value: T)

  /** The outcome of an operation that may raise instead of returning. */
  datatype Result<+R, +E> = Success(value: R) | Failure(error: E)
}
