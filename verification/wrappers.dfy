/** Optional values and results shared by the generator and the fittings registry. */
module Wrappers {

  /** An optional value: Python's `None` or a value. */
  datatype Option<+T> = None | Some(value: T)

  /** The outcome of an operation that either yields a value or raises an error. */
  datatype Result<+T, +E> = Ok(value: T) | Err(error: E)
}
