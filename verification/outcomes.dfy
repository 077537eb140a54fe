/** Optional values and success/failure outcomes shared by the whole model. */
module Outcomes {

  /** A value that may be absent; stands in for a nullable engine reference. */
  datatype Option<+T> = None | Some(value: T)

  /** The outcome of a callback that may abort with an engine fault. */
  datatype Result<+T, +E> = Success(value: T) | Failure(error: E)
}
