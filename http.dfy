/**
  The errors a handler raises (FastAPI's HTTPException, plus the 500 that an
  unhandled database error turns into) and the result every handler returns:
  either the response body or the error.
 */
module Http {
  const BadRequest := 400
  const Unauthorized := 401
  const Forbidden := 403
  const NotFound := 404
  const InternalServerError := 500

  datatype HttpError = HttpError(status: int, detail: string)

  /** A write the database refuses at commit (a NOT NULL column set to null). */
  const DatabaseError := HttpError(InternalServerError, "Internal Server Error")

  datatype Result<+T> = Ok(value: T) | Err(error: HttpError)
}
