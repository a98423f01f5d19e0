/** Failure-carrying values shared by every module of the model. */
module Wrappers {

  /** A JavaScript value that may be `undefined`. */
  datatype Option<+T> = None | Some(value: T) {
    /** The value, or `default` when it is undefined. */
    function GetOr(default: T): T {
      match this
      case Some(v) => v
      case None => default
    }
  }

  /** The outcome of a call that may throw: its value, or the message of the thrown `Error`. */
  datatype Result<+T> = Ok(value: T) | Err(message: string)
}
