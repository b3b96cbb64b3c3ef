/** Option and Result: the absent value and the reportable failure of the pipeline. */
module Wrappers {

  /** A value that may be missing (Python's `None`). */
  datatype Option<+T> = None | Some(value: T)

  /** Either a value or an error the caller gets to see. */
  datatype Result<+R, +E> = Ok(value: R) | Err(error: E)
}
