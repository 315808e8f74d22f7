/** Optional values and results with an error, as the rest of the model uses them. */
module Wrappers {

  /** A value that may be absent: a nullable column or a JSON key that may be missing. */
  datatype Option<+T> = None | Some(value: T)

  /** The outcome of a validation step: the accepted value or the error raised. */
  datatype Result<+R, +E> = Ok(value: R) | Err(error: E)
}
