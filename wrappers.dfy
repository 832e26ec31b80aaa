/** Option and Result values standing in for Java's null references and thrown exceptions. */
module Wrappers {

  /** A reference that may be null: `None` is Java's `null`. */
  datatype Option<+T> = None | Some(value: T)

  /** The outcome of a call that either returns a value or throws an exception with a message. */
  datatype Result<+T> = Ok(value: T) | Err(message: string)
}
