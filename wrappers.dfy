/** Optional values and fallible results, as used across the model. */
module Wrappers {

  datatype Option<+T> = None | Some(value: T)

  /** The result of a store operation that can fail with a message. */
  datatype Result<+T> = Success(value: T) | Failure(message: string)
}
