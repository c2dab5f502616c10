/** The shape of a controller's answer: a body with HTTP 200, or an error
    status with the message the controller puts in its body. */
module Http {

  datatype Response<+T> = Ok(body: T) | Fail(status: int, message: string)

  const BadRequest := 400
  const Unauthorized := 401
  const Forbidden := 403
  const NotFound := 404
}
