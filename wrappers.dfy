/** Optional values and results shared by every module of the model. */
module Wrappers {

  /** A JavaScript value that may be `undefined` or `null`. */
  datatype Option<+T> = None | Some(value: T) {
    function GetOr(default: T): T {
      match this
      case Some(v) => v
      case None => default
    }
  }

  /** The outcome of a check that either yields a value or a list of problems. */
  datatype Result<+T, +E> = Ok(value: T) | Err(error: E)
}
