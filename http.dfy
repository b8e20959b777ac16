/**
 * What a backend handler answers: a success body, an error status with the
 * message of its `{"error": ...}` body, or a run-time panic, which the web
 * framework's recovery turns into status 500.
 */
module Http {

  datatype Reply<T> = Ok(body: T) | Fail(status: int, error: string) | Panicked

  const BadRequest := 400
  const Unauthorized := 401
  const Forbidden := 403
  const NotFound := 404
  const EntityTooLarge := 413
  const InternalError := 500
}
