/** Option, Result and Outcome: the success/failure shapes used for the
    source's `None`, its raised exceptions and its setters that may raise. */
module Wrappers {

  /** A value that may be absent (`None` in the source). */
  datatype Option<+T> = None | Some(value: T)

  /** A computed value, or the exception that was raised instead. */
  datatype Result<+R, +E> = Ok(value: R) | Err(error: E)

  /** A state change that either happened or raised an exception. */
  datatype Outcome<+E> = Pass | Fail(error: E)
}
