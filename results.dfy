/** The `Result` type that every fallible operation of the interpreter returns. */
module Results {

  /** `Ok(value)` on success, `Err(error)` on failure; `Result<(), E>` stands for Rust's `Result<(), E>`. */
  datatype Result<+T, +E> = Ok(value: T) | Err(error: E)
}
