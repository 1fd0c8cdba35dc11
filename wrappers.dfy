/** Option and Result, the two failure-carrying shapes the proxy's Rust code
    uses (`Option<T>`, `anyhow::Result<T>`). */
module Wrappers {

  datatype Option<+T> = None | Some(value: T) {
    /** `Option::unwrap_or` */
    function GetOr(default: T): T {
      match this
      case Some(v) => v
      case None => default
    }
  }

  datatype Result<+T, +E> = Ok(value: T) | Err(error: E)
}
