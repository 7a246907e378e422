/** Option and Result, the two failure-carrying shapes the Rust code uses
    (`Option<T>` and `OperationResult<T>` / `CollectionResult<T>`). */
module Wrappers {

  datatype Option<+T> = None | Some(value: T) {
    function GetOr(default: T): T {
      match this
      case Some(v) => v
      case None => default
    }
  }

  datatype Result<+T, +E> = Ok(value: T) | Err(error: E)

  /** The unit value `()` of a Rust `Result<(), E>`. */
  datatype Unit = Unit
}
