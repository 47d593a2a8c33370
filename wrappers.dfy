/** Failure-carrying values shared by the other modules. */
module Wrappers {

  /** A value that may be absent, as Rust's `Option`. */
  datatype Option<+T> = None | Some(value: T)

  /** The two error kinds of the library's `Error` enum. */
  datatype Error = IoError | ImageError

  /** A computation that yields a `T` or fails with an `Error`, as the library's `Result<T>`. */
  datatype Result<+T> = Ok(value: T) | Err(error: Error)

  /** A computation that yields nothing or fails, as the library's `Result<()>`. */
  datatype Outcome = Pass | Fail(error: Error)
}
