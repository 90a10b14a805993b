/** The optional-value and outcome types used by every other module. */
module Wrappers {

  /** An optional value: TypeScript's `T | null | undefined`, Rust's `Option<T>`. */
  datatype Option<+T> = None | Some(value: T) {
    function GetOr(default: T): T {
      match this
      case Some(v) => v
      case None => default
    }
  }

  /** The outcome of a fallible call: Rust's `Result<T, E>`, or a JavaScript promise that
      resolves (`Ok`) or rejects (`Err`). */
  datatype Result<+T, +E> = Ok(value: T) | Err(error: E)
}
