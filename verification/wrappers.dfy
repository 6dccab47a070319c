/** Option and Result values standing in for JavaScript's `undefined` and for
    thrown errors / rejected promises. */
module Wrappers {

  datatype Option<+T> = None | Some(value: T)

  datatype Result<+R, +E> = Ok(value: R) | Err(error: E)
}
