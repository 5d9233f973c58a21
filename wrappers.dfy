/** Option and Result, named after the Rust types the modelled code uses. */
module Wrappers {

  datatype Option<+T> = None | Some(value: T) {

    /** The wrapped value, or `default` when there is none (Rust's `unwrap_or`). */
    function GetOr(default: T): T
    {
      match this
      case Some(v) => v
      case None => default
    }
  }

  /** `Result<T, ()>` in the source: every error path carries no payload. */
  datatype Result<+T> = Ok(value: T) | Err
}
