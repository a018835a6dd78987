/** Option and Result values shared by the modules of this project. */
module Wrappers {

  datatype Option<+T> = None | Some(value: T)

  /** The exceptions the modelled Python code can raise. */
  datatype Error = IndexError | TypeError | ValueError

  datatype Result<+T> = Ok(value: T) | Err(error: Error)
}
