/** The two ways an operation of the model can come out: with a value, or with
    the error the program throws. */
module Wrappers {
  datatype Result<+T, +E> = Ok(value: T) | Err(error: E)

  datatype Option<+T> = None | Some(value: T)
}
