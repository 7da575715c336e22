/** Failure-carrying results used by the masking and generation operations. */
module Wrappers {

  datatype Option<+T> = None | Some(value: T)

  /** The outcome of an operation that returns `Result<T, &'static str>` in the library. */
  datatype Result<+T> = Ok(value: T) | Err(message: string)
}
