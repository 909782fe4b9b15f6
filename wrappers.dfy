/** Option and Result, for values JavaScript leaves undefined or null and for thrown errors. */
module Wrappers {

  datatype Option<+T> = None | Some(value: T) {
    /** The value, or `default` when there is none (JavaScript's `x || default` on a present/absent field). */
    function GetOr(default: T): T {
      match this
      case Some(v) => v
      case None => default
    }
  }

  /** A returned value, or the message of a thrown `Error`. */
  datatype Result<+R> = Ok(value: R) | Err(message: string)
}
