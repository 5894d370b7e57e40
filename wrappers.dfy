/** Option and Result: a value that may be absent (JavaScript's `undefined`)
    and the outcome of a step that can fail. */
module Wrappers {
  datatype Option<+T> = None | Some(value: T)

  datatype Result<+T, +E> = Ok(value: T) | Err(error: E)
}
