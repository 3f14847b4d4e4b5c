/** Small failure-carrying datatypes shared by the model. */
module Wrappers {

  /** A value that may be absent. */
  datatype Option<+T> = None | Some(value: T)

  /** The outcome of a Python step that either produces a value or raises
      an exception that a surrounding `try` catches. */
  datatype Attempt<+T> = Ok(value: T) | Raises
}
