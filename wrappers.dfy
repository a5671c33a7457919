/** Option and Result values, used where the program raises an exception
    or where a console loop would still be waiting for input. */
module Wrappers {

  datatype Option<+T> = None | Some(value: T)

  datatype Result<+T, +E> = Ok(value: T) | Err(error: E)
}
