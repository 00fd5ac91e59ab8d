/** Option and Result, the two failure-carrying shapes the model uses in place
    of JavaScript's null/undefined and thrown exceptions. */
module Wrappers {

  datatype Option<+T> = None | Some(value: T) {
    function GetOr(default: T): T {
      match this
      case Some(v) => v
      case None => default
    }
  }

  /** `Err` carries the message of the exception the source would throw. */
  datatype Result<+T> = Ok(value: T) | Err(error: string)
}
