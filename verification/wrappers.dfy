/** Optional values and the outcome of an awaited call. */
module Wrappers {

  /** A value that may be absent (`undefined` in the source). */
  datatype Option<+T> = None | Some(value: T) {
    function GetOr(default: T): T {
      match this
      case Some(v) => v
      case None => default
    }
  }

  /** What an awaited promise settles to: a value, or a rejection carrying
      the `message` of the thrown `Error`. */
  datatype Outcome<+T> = Ok(value: T) | Err(message: string)
}
