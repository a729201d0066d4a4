/**
 * Outcomes of operations that can raise. A Python exception that the modelled code raises, or
 * lets propagate, becomes an Err carrying the exception's class; a normal return becomes Ok.
 */
module Wrappers {
  /** The Python exception classes the modelled code can raise. */
  datatype PyError =
    | ValueError
    | TypeError
    | IndexError
    | KeyError
    | OverflowError
    | ZeroDivisionError
    | AttributeError

  datatype Result<T> = Ok(value: T) | Err(error: PyError)

  datatype Option<T> = None | Some(value: T)
}
