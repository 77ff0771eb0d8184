/** Option and Result values used for the error returns of the modelled code. */
module Wrappers {
  datatype Option<+T> = None | Some(value: T)

  /** An operation that either yields a value or fails with one of the source's error kinds. */
  datatype Result<+T> = Ok(value: T) | Err(error: Error)

  /** The Python exceptions and C error codes the modelled code raises or returns. */
  datatype Error = IndexError | KeyError | ValueError | TypeError
}
