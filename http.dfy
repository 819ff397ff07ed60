/** The HTTP status codes the services answer with, and a response as a status plus a JSON body. */
module Http {

  const StatusOK := 200
  const StatusCreated := 201
  const StatusBadRequest := 400
  const StatusNotFound := 404
  const StatusMethodNotAllowed := 405
  const StatusConflict := 409
  const StatusInternalServerError := 500
  const StatusBadGateway := 502

  /**
   * A body: the JSON `{"error": message}` object, an encoded JSON value, or
   * the plain-text line of a bare HTTP error.
   */
  datatype Body<T> = ErrorBody(message: string) | JsonBody(value: T) | TextBody(text: string)

  datatype Response<T> = Response(status: int, body: Body<T>)
}
