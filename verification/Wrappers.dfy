/** The two result shapes every other module returns: a value that may be absent,
    and a value or a named error where the original raises. */
module Wrappers {
  datatype Option<+T> = None | Some(value: T)

  datatype Result<+T, +E> = Ok(value: T) | Err(error: E)
}
