/** Small failure-compatible wrappers shared by every module of the model. */
module Wrappers {

  /** A value that may be absent: JavaScript's `null` / `undefined`. */
  datatype Option<+T> = None | Some(value: T)

  /** The outcome of a call that can fail with a message (a remote call, or a hook operation). */
  datatype Outcome<+T> = Ok(value: T) | Err(message: string)

  /** A filter choice: the `"all"` sentinel, or one particular value. */
  datatype Choice<+T> = All | Only(value: T)
}
