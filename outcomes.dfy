/** Optional values, the handlers' error taxonomy and their result type. */
module Outcomes {

  datatype Option<+T> = None | Some(value: T)
  {
    function GetOr(default: T): T {
      match this
      case None => default
      case Some(v) => v
    }
  }

  /** The HTTP errors a handler can end with. `StorageConstraint` is an
      integrity error raised by the database at commit time, which no handler
      catches (it surfaces as a server error). `OutOfRange` is a `ValueError`
      a handler raises while building a value, also uncaught. */
  datatype Error = NotFound | InvalidRole | Forbidden | StorageConstraint | OutOfRange

  /** The status code each error is reported with. */
  function HttpStatus(e: Error): int {
    match e
    case NotFound => 404
    case InvalidRole => 400
    case Forbidden => 403
    case StorageConstraint => 500
    case OutOfRange => 500
  }

  datatype Result<+T> = Ok(value: T) | Err(error: Error)
}
