/** Option and error-carrying results, standing for Kotlin's nullable types and thrown exceptions. */
module Wrappers {

  /** A nullable value: `None` is Kotlin's `null`. */
  datatype Option<+T> = None | Some(value: T)

  /** The outcome of a call that returns a value or throws an exception carrying a message. */
  datatype Result<+T> = Ok(value: T) | Err(msg: string)

  /** The outcome of a call that returns `Unit` or throws an exception carrying a message. */
  datatype Outcome = Done | Failed(msg: string)
}
