/** The wrappers used across the model: an optional value
    (a JavaScript `undefined`/`null`/falsy field) and a result that carries
    either a value or the HTTP response that rejected the request. */
module Wrappers {

  datatype Option<+T> = None | Some(value: T) {
    function GetOr(default: T): T {
      match this
      case Some(v) => v
      case None => default
    }
  }

  datatype Result<+R, +E> = Ok(value: R) | Err(error: E)
}
