/**
 Option and Result, the two failure-carrying shapes the Rust commands and the
 JavaScript promises of the application share: `Option` for a value that may be
 absent (`Option<String>`, a JavaScript `null`), `Result` for a call that either
 succeeds with a value or fails with an error (Rust `Result<T, String>`, a
 rejected promise).
 */
module Wrappers {

  datatype Option<+T> = None | Some(value: T) {
    /** The value if present, otherwise `default` (Rust `unwrap_or`). */
    function GetOr(default: T): T {
      match this
      case Some(v) => v
      case None => default
    }
  }

  datatype Result<+T, +E> = Ok(value: T) | Err(error: E)
}
