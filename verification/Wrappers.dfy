// Failure-carrying results shared by the other modules.
module Wrappers {

  datatype Option<+T> = None | Some(value: T)

  /** What a call that may raise gives back: its value, or the exception. */
  datatype Outcome<+T, +E> = Returned(value: T) | Raised(error: E)
}
