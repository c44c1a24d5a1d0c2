/** Option and the outcome of a Java call that may throw. */
module Wrappers {

  datatype Option<+T> = None | Some(value: T)

  /** What a Java call does: it returns a value, or an exception escapes it. */
  datatype Outcome<+T> = Returned(value: T) | Threw(exception: string)
}
