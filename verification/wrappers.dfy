/** Optional values and results, shared by the component modules. */
module Wrappers {

  /** A value that may be absent: TypeScript's `T | undefined` or `T | null`. */
  datatype Option<+T> = None | Some(value: T) {

    /** The value, or `default` when absent (a destructuring default). */
    function GetOr(default: T): T {
      match this
      case Some(v) => v
      case None => default
    }
  }

  /** The outcome of an expression that may throw. */
  datatype Result<+T, +E> = Ok(value: T) | Err(error: E)
}
