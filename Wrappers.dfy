/** Option and Result values shared by the modules of the model. */
module Wrappers {

  datatype Option<T> = None | Some(value: T)

  /** The outcome of an operation that may throw: a value, or the thrown error's message. */
  datatype Result<T, E> = Ok(value: T) | Err(error: E)
}
