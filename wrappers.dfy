/** Failure-carrying datatypes shared by the order books and the backtester. */
module Wrappers {

  /** A value that may be missing: Python's `None` versus a present value. */
  datatype Option<+T> = None | Some(value: T)

  /** The value of a call that either returns normally or raises an exception. */
  datatype Result<+T, +E> = Ok(value: T) | Err(error: E)

  /** The outcome of a call that returns nothing, or raises an exception. */
  datatype Outcome<+E> = Pass | Fail(error: E)
}
