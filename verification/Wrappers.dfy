/** Values that may be absent, calls that may fail with an error text, and calls that may end in a run-time panic. */
module Wrappers {
  datatype Option<+T> = None | Some(value: T)

  datatype Result<+T> = Ok(value: T) | Err(error: string)

  datatype Ending<+T> = Returned(value: T) | Panicked
}
