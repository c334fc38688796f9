/** Option and call-outcome wrappers shared by the other modules. */
module Wrappers {

  /** A value that may be missing (JavaScript `null`/`undefined`). */
  datatype Option<+T> = None | Some(value: T)

  /** The outcome of calling foreign code that may throw. */
  datatype Outcome<+T> = Returned(value: T) | Threw
}
