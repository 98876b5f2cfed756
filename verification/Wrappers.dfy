/** Result types shared by the modules of this project. */
module Wrappers {

  datatype Option<+T> = None | Some(value: T)

  /** A returned value, or the error the source throws. */
  datatype Result<+T, +E> = Ok(value: T) | Err(error: E)
}
