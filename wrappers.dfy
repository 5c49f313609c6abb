/** Option and Result values used across the model. */
module Wrappers {

  datatype Option<+T> = None | Some(value: T)

  /** A value, or the text of the exception the source would raise instead. */
  datatype Result<+T> = Success(value: T) | Failure(error: string)
}
