/** Optional values and the outcome of an HTTP endpoint: either its value or
    the `HTTPException` it raises (status code and detail message). */
module Wrappers {

  datatype Option<+T> = None | Some(value: T)
  {
    function GetOr(default: T): T
    {
      match this
      case Some(v) => v
      case None => default
    }
  }

  datatype HttpError = HttpError(statusCode: int, detail: string)

  datatype Result<+T> = Ok(value: T) | Err(error: HttpError)

  /** A check that either passes or raises. */
  datatype Check = Pass | Fail(error: HttpError)
}
