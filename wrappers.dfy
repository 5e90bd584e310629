/** Failure-compatible wrappers shared by every module: Kotlin's nullable
    values become `Option`, a thrown exception becomes `Result.Err`. */
module Wrappers {

  datatype Option<+T> = None | Some(value: T) {
    /** `x ?: default` */
    function GetOr(default: T): T {
      match this
      case Some(v) => v
      case None => default
    }
  }

  datatype Result<+T, +E> = Ok(value: T) | Err(error: E)
}
