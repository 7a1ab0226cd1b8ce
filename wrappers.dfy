/** Failure-carrying result types shared by every controller.
    The controllers throw `CustomError(message, statusCode)`; the model keeps only the
    status code, which is what the HTTP error handler turns into the response status. */
module Wrappers {

  datatype Option<+T> = None | Some(value: T) {
    function GetOr(default: T): T {
      match this
      case Some(v) => v
      case None => default
    }
  }

  /** The outcome of a controller operation: a value, or the status code of the
      `CustomError` it throws. */
  datatype Result<+T> = Ok(value: T) | Err(status: nat)

  const BadRequest: nat := 400
  const Unauthorized: nat := 401
  const Forbidden: nat := 403
  const NotFound: nat := 404
  const Conflict: nat := 409
  const InternalError: nat := 500
}
