/** Small failure-carrying datatypes shared by the whole model. */
module Wrappers {

  /** A value that may be absent: Go's `sql.NullInt64` / `sql.NullTime`
      (`Valid == false` is `None`). */
  datatype Option<+T> = None | Some(value: T) {
    function GetOr(default: T): T {
      match this
      case Some(v) => v
      case None => default
    }
  }

  /** Either a value or an error; used where a Go function returns no
      meaningful value alongside its error. */
  datatype Result<+T, +E> = Ok(value: T) | Err(error: E) {
    predicate IsFailure() {
      Err?
    }
  }
}
