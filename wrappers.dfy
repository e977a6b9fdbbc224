/** Rust's `Option` and `Result`, as the adapter uses them. */
module Wrappers {

  datatype Option<+T> = None | Some(value: T) {

    /** `unwrap_or` / `unwrap_or_default`: the value, or the given default when absent. */
    function UnwrapOr(default: T): T {
      match this
      case Some(v) => v
      case None => default
    }
  }

  datatype Result<+T, +E> = Success(value: T) | Failure(error: E)
}
