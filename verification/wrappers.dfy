/** Failure-compatible wrappers shared by every module of the model. */
module Wrappers {

  /** A value that may be missing: JavaScript's `undefined`/`null`. */
  datatype Option<+T> = None | Some(value: T) {

    /** The value, or `default` when there is none. */
    function GetOr(default: T): T {
      match this
      case Some(v) => v
      case None => default
    }
  }

  /** What became of a call into code outside the model (fetch, googleapis, JSON.parse):
      it threw, or it returned a value. */
  datatype Outcome<+T> = Threw | Returned(value: T)
}
