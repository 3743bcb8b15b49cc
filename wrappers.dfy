/** Option and Result, the two failure-carrying shapes the client's Rust code returns. */
module Wrappers {

  /** Rust's `Option<T>`: an iterator's next item, or the end of the sequence. */
  datatype Option<+T> = None | Some(value: T)

  /** Rust's `Result<T, E>`. */
  datatype Result<+T, +E> = Ok(value: T) | Err(error: E)
}
