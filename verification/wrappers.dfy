/** Failure-carrying datatypes shared by every module of the model. */
module Wrappers {

  /** Rust's `Option<T>`. */
  datatype Option<+T> = None | Some(value: T)

  /** Rust's `Result<T, E>`. */
  datatype Result<+T, +E> = Success(value: T) | Failure(error: E)

  /** How a call ends: it returns a value, or it panics (an `.expect` on an
      error value) with the given message. */
  datatype Exit<+T> = Return(value: T) | Panic(message: string)
}
