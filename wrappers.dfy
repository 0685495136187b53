/** Optional values and results with an error, shared by every module. */
module Wrappers {

  /** A value that may be missing: Python's None, JavaScript's null/undefined, an absent dict key. */
  datatype Option<+T> = None | Some(value: T) {

    /** Python's dict.get(key, default) once the lookup is done. */
    function GetOr(default: T): T {
      match this
      case Some(v) => v
      case None => default
    }
  }

  /** The outcome of a step that either produces a value or raises with a message. */
  datatype Result<+T, +E> = Ok(value: T) | Err(error: E)
}
