/** Option and Result, the two failure-carrying shapes the Rust code uses. */
module Wrappers {

  /** Rust's `Option<T>`; also stands for a nullable C pointer. */
  datatype Option<+T> = None | Some(value: T) {

    /** `unwrap_or`: the carried value, or `default` when there is none. */
    function GetOr(default: T): T {
      match this
      case Some(v) => v
      case None => default
    }
  }

  /** Rust's `Result<T, E>`. */
  datatype Result<+T, +E> = Success(value: T) | Failure(error: E)
}
