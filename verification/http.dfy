/** What a FastAPI handler can raise, and the outcome of a call into code
    outside the model. */
module Http {

  /** `HTTPException(status_code, detail, headers)`. */
  datatype HttpError = HttpError(status: nat, detail: string, headers: map<string, string>)

  /** The challenge header sent with every 401 of the credential flow. */
  const BearerChallenge: map<string, string> := map["WWW-Authenticate" := "Bearer"]

  function Plain(status: nat, detail: string): HttpError {
    HttpError(status, detail, map[])
  }

  /** An exception escaping a Python function: an `HTTPException` or any
      other exception, known by its message. */
  datatype Exc = HttpExc(error: HttpError) | OtherExc(message: string)

  /** How a Python function call ended. */
  datatype Completion<T> = Normal(value: T) | Abrupt(exc: Exc)

  /** The outcome of a call into a foreign service or the file system. */
  datatype Attempt<T> = Done(value: T) | Raised(message: string)

  /** `SystemExit(message)` raised while a module loads its configuration. */
  datatype SystemExit = SystemExit(message: string)
}
