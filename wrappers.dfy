/** Failure-carrying wrappers shared by every module of the storefront model. */
module Wrappers {

  /** A value that may be absent: JavaScript's `undefined`/`null` where the source tests for it. */
  datatype Option<+T> = None | Some(value: T) {
    function GetOr(default: T): T {
      match this
      case Some(v) => v
      case None => default
    }
  }

  /** The outcome of evaluating a JavaScript expression that can throw. */
  datatype Attempt<+T> = Returned(value: T) | Threw
}
