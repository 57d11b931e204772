/** Option and Result, standing for Java's nullable references and thrown exceptions. */
module Wrappers {

  /** `None` stands for a Java `null`. */
  datatype Option<+T> = None | Some(value: T)

  /** `Err` stands for an exception thrown instead of a normal return. */
  datatype Result<+T, +E> = Ok(value: T) | Err(error: E)
}
