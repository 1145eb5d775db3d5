/** Shared value-or-absence and value-or-error datatypes used by every module. */
module Common {

  /** An optional value: Python's `None` versus a present value. */
  datatype Option<+T> = None | Some(value: T)

  /** The outcome of an operation that either succeeds with a value or is rejected with a reason. */
  datatype Result<+T, +E> = Ok(value: T) | Err(error: E)
}
