/** Option and Result, shared by the plugin model. */
module Wrappers {

  /** A value that may be absent (Rust's `Option`). */
  datatype Option<+T> = None | Some(value: T) {

    /** The wrapped value, or `default` when absent (Rust's `unwrap_or`). */
    function GetOr(default: T): (r: T)
      ensures Some? ==> r == value
      ensures None? ==> r == default
    {
      match this
      case Some(v) => v
      case None => default
    }
  }

  /**
   * The outcome of a fallible call (Rust's `Result`). The error payload is
   * only ever logged by the plugin, so it is not carried.
   */
  datatype Result<+T> = Ok(value: T) | Err
}
