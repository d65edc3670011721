/** Option and result types shared by every module of the model. */
module Wrappers {

  /** A value that may be missing: Python's `None` or an absent key. */
  datatype Option<+T> = None | Some(value: T)

  /** The Python exceptions the modelled code can raise and not catch. */
  datatype PyError =
    | IndexError   // a list index past the end
    | KeyError     // a dict or DataFrame label that is not there
    | TypeError    // an operation applied to `None`
    | ValueError   // a conversion of a value that has no such form

  /** The outcome of a Python function: its return value, or the exception it raised. */
  datatype Result<+T> = Ok(value: T) | Raised(error: PyError)
}
