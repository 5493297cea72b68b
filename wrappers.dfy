/** Optional values and results with an error, as used throughout the model. */
module Wrappers {

  /** `None` stands for JavaScript's `undefined` where the source may leave a value unset. */
  datatype Option<+T> = None | Some(value: T)

  /** The outcome of an operation that the source can abandon by throwing. */
  datatype Result<+T, +E> = Success(value: T) | Failure(error: E)
}
