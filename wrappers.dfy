/** Option and Result values for the cells and the failures of the billing pipeline. */
module Wrappers {

  /** An optional value; a `None` cell is a pandas NaN. */
  datatype Option<+T> = None | Some(value: T)

  /** The outcome of a request handler: a value, or the exception that aborts it. */
  datatype Result<+T, +E> = Ok(value: T) | Err(error: E)
}
