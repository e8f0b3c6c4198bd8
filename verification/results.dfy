/** Failure-carrying wrappers used throughout the model: `Option` for values that
    may be absent (a store lookup, a conversion, a remote query) and `Result` for
    the `Result<T, E>` returns of the contracts. */
module Results {

  datatype Option<+T> = None | Some(value: T) {

    /** The carried value, or `default` when absent (Rust's `unwrap_or`). */
    function GetOr(default: T): T {
      match this
      case Some(v) => v
      case None => default
    }
  }

  datatype Result<+T, +E> = Ok(value: T) | Err(error: E) {

    /** The carried value, or `default` on an error (Rust's `unwrap_or`). */
    function GetOr(default: T): T {
      match this
      case Ok(v) => v
      case Err(_) => default
    }

    /** Forgets the error (Rust's `.ok()`). */
    function ToOption(): Option<T> {
      match this
      case Ok(v) => Some(v)
      case Err(_) => None
    }
  }
}
