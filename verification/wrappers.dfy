/** Optional values and success/failure results, used wherever the dashboard
    reads something that may be absent (a stored value, an optional field) or
    awaits a call that may fail (every call into the remote API). */
module Wrappers {

  /** A value that may be absent: `undefined`/`null` in the dashboard. */
  datatype Option<+T> = None | Some(value: T) {

    /** The value, or `default` when absent. */
    function GetOr(default: T): T {
      match this
      case Some(v) => v
      case None => default
    }
  }

  /** The outcome of an awaited call: its resolved value or the rejection. */
  datatype Result<+R, +E> = Ok(value: R) | Err(error: E)
}
