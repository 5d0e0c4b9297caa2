/** Option and Result, the two shapes the source's `Option<T>` and `Result<T, String>` take here. */
module Wrappers {

  datatype Option<+T> = None | Some(value: T)

  datatype Result<+T, +E> = Ok(value: T) | Err(error: E)
}
