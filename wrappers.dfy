/** Option and Result: absent values (`undefined`, `null`) and error replies (HTTP 400). */
module Wrappers {

  datatype Option<+T> = None | Some(value: T) {
    /** `x ?? d` */
    function GetOr(default: T): T {
      match this
      case Some(v) => v
      case None => default
    }
  }

  /** A route's outcome: its payload, or a 400 reply with a message. */
  datatype Result<+T> = Ok(value: T) | BadRequest(message: string)
}
