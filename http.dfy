/**
 * The HTTP vocabulary the routers share: an HTTPException is an `HttpError`
 * (status code and detail text), and an operation either returns a value or
 * raises one.
 */
module Http {

  datatype Option<+T> = None | Some(value: T)

  /** An HTTPException as raised by the routers: status code and detail. */
  datatype HttpError = HttpError(status: nat, detail: string)

  /** The value an endpoint returns, or the HTTPException it raises. */
  datatype Result<+T> = Ok(value: T) | Err(error: HttpError) {

    predicate IsFailure() {
      Err?
    }

    function PropagateFailure<U>(): Result<U>
      requires Err?
    {
      Err(error)
    }

    function Extract(): T
      requires Ok?
    {
      value
    }
  }

  /** Names of the two cookies that carry the token pair. */
  const REFRESH_COOKIE: string := "refresh_token"
  const ACCESS_COOKIE: string := "access_token"
}
