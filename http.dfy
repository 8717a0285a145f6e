/** The HTTP error responses the route handlers raise. */
module Http {

  /** An `HTTPException`: the status code and the detail message. */
  datatype HttpError = HttpError(status: nat, detail: string)

  const Forbidden: nat := 403
  const NotFound: nat := 404
  /** The response to an exception the handler does not catch. */
  const InternalServerError: nat := 500

  const ServerError := HttpError(InternalServerError, "Internal Server Error")
}
