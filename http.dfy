/** The HTTPException the route handlers raise: a status code and a detail message. */
module Http {

  datatype HttpError = HttpError(status: int, detail: string)

  /** What the server answers when a handler raises an exception nothing catches. */
  const InternalServerError := HttpError(500, "Internal Server Error")
}
