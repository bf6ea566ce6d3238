/** Option and Result, the way the Rust code uses `Option<T>` and `Result<T, AppError>`. */
module Wrappers {

  datatype Option<+T> = None | Some(value: T) {

    /** `unwrap_or` */
    function GetOr(default: T): T {
      if Some? then value else default
    }

    /** `or` / `or_else`: this value when present, else the other one */
    function Or(other: Option<T>): Option<T> {
      if Some? then this else other
    }
  }

  datatype Result<+T, +E> = Success(value: T) | Failure(error: E)
}
