/** Failure-compatible wrappers shared by the client and server models. */
module Wrappers {

  /** A value that may be absent: JavaScript's `null`/`undefined`, Java's `null`. */
  datatype Option<+T> = None | Some(value: T) {
    function GetOr(default: T): T {
      match this
      case Some(v) => v
      case None => default
    }
  }

  /** A resolved (`Ok`) or rejected/thrown (`Err`) outcome. */
  datatype Result<+T, +E> = Ok(value: T) | Err(error: E)

  /** An outcome that carries no value when it succeeds. */
  datatype Outcome<+E> = Pass | Fail(error: E)

  function Min(a: nat, b: nat): nat {
    if a <= b then a else b
  }
}
