/** The responses of the handlers and the middleware: `helper.Response` with its status,
    message and `Err` field (the `Data` payload is not part of this model), and the choice every
    guarded handler makes between answering at once and calling its service. */
module Http {
  import opened Common

  const StatusOK := 200
  const StatusCreated := 201
  const StatusBadRequest := 400
  const StatusUnauthorized := 401
  const StatusForbidden := 403
  const StatusInternalServerError := 500

  /** A JSON `helper.Response` body, or the JSON `null` body one handler writes. */
  datatype Response =
    | Body(status: int, message: string, err: Option<string>)
    | NullBody(status: int)

  /** A handler's decision before any service runs: answer with `resp`, or make exactly one
      service call `call`. */
  datatype Step<C> = Respond(resp: Response) | Invoke(call: C)

  /** `helper.UnauthorizedErr(message, nil)`. */
  function Unauthorized(message: string): Response
  {
    Body(StatusUnauthorized, message, None)
  }

  /** `helper.ForbiddenErr(message, nil)`. */
  function Forbidden(message: string): Response
  {
    Body(StatusForbidden, message, None)
  }

  /** `helper.BadRequestErr(message, err)`. */
  function BadRequest(message: string, err: Option<string>): Response
  {
    Body(StatusBadRequest, message, err)
  }

  /** `helper.InternalErr(message, err)`. */
  function Internal(message: string, err: Option<string>): Response
  {
    Body(StatusInternalServerError, message, err)
  }

  /** What the JSON decoder made of a request body: the filled value, or its error. */
  function Decoded<B>(value: B, decodeErr: Option<string>): Result<B>
  {
    if decodeErr.Some? then Fail(decodeErr.value) else Ok(value)
  }
}
