// Result and option types shared by the other modules.
module Wrappers {
  datatype Option<+T> = None | Some(value: T)

  // A value, or the exception the program would raise.
  datatype Result<+T, +E> = Ok(value: T) | Err(error: E)
}
