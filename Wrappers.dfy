/** The optional and fallible values shared by the modules of this model. */
module Wrappers {

  /** An optional value: Rust's `Option<T>`, or the success flag of an OS query. */
  datatype Option<T> = None | Some(value: T)

  /** The outcome of a fallible call: Rust's `Result<T, E>`. */
  datatype Result<T, E> = Ok(value: T) | Err(error: E)
}
