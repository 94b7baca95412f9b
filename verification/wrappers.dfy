/** Option and Result, standing in for Python's `None` and for raised exceptions. */
module Wrappers {
  datatype Option<T> = None | Some(value: T)

  /** The exception classes the modelled code raises. */
  datatype Error =
    | ValueError(message: string)
    | RuntimeError(message: string)
    | FileNotFoundError(message: string)
    | TypeError(message: string)
    | AttributeError(message: string)
    | KeyError(message: string)

  datatype Result<T> = Ok(value: T) | Err(error: Error)
}
