/**
 * Failure-carrying results shared by the bookkeeping modules: `Option` for a
 * Python `None` return, `Result` for a raised exception.
 */
module Wrappers {

  datatype Option<+T> = None | Some(value: T)

  datatype Result<+T, +E> = Ok(value: T) | Err(error: E)
}
