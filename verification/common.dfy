/** Failure-carrying wrappers shared by every module of the model. */
module Common {

  /** A value that may be absent: Python's `None` or a row that was not found. */
  datatype Option<+T> = None | Some(value: T)

  /** The outcome of an HTTP handler: a body, or an `HTTPException` with its
      status code and detail text. */
  datatype Reply<+T> = Ok(value: T) | Error(code: int, detail: string)

  /** What FastAPI answers when a handler raises an exception it does not map. */
  const InternalError: string := "Internal Server Error"
}
