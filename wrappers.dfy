/** Option and Result, the two wrappers the model uses in place of Python's
    None and raised exceptions. */
module Wrappers {

  datatype Option<T> = None | Some(value: T)

  /** The Python exception a failing operation raises. */
  datatype Error = ValueError | IndexError | AttributeError

  datatype Result<T> = Ok(value: T) | Err(error: Error)
}
