/** Failure-compatible wrappers shared by every module. */
module Outcomes {

  /** An optional value: a key that is absent, or present with a value. */
  datatype Option<+T> = None | Some(value: T)

  /** The settled state of a JavaScript promise: fulfilled with a value, or rejected with a thrown value. */
  datatype Outcome<+T, +E> = Ok(value: T) | Err(error: E)

  /** `x ?? y` for optional keys: the value if present, otherwise the fallback. */
  function GetOr<T>(o: Option<T>, default: T): T
  {
    match o
    case Some(v) => v
    case None => default
  }
}
