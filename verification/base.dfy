/** Small value types shared by every module of the model: an optional value,
    the outcome of an operation that may throw, and an HTTP reply. */
module Base {

  /** A value that may be absent (`undefined`/`null` in the service, or a JSON field
      that `JSON.stringify` leaves out). */
  datatype Option<+T> = None | Some(value: T)

  /** The outcome of an operation that either returns a value or throws an error.
      Errors are modelled by their `message`, the only part any caller inspects. */
  datatype Result<+T, +E> = Success(value: T) | Failure(error: E)

  /** `res.status(status).json(body)`. */
  datatype Response<+B> = Response(status: nat, body: B)
}
