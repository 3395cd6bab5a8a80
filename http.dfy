/** Responses of the route handlers: a status code with either the entity
    returned (`{ <entity>: ... }`) or the `{ error: ... }` message. */
module Http {

  datatype Reply<+T> = Ok(status: int, value: T) | Error(status: int, message: string)

  const UnauthorizedMessage := "Unauthorized"
  const InternalErrorMessage := "Internal server error"
}
