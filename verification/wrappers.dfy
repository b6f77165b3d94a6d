/** Failure-carrying values used by the loaders: a per-row verdict is either the
    cleaned value or the reason the row was skipped. */
module Wrappers {

  datatype Option<+T> = None | Some(value: T)

  datatype Result<+T, +E> = Ok(value: T) | Err(error: E)
}
