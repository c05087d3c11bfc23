/** What handlers hand back to Express: a JSON response, or an error passed
    to `next(error)` for the error handler to answer. Shared by every
    controller and middleware of the model. */
module Http {
  import opened Wrappers

  /** The exceptions that reach `next(error)`: a Zod validation failure, a
      Prisma known-request error with its code (`P2025` record missing,
      `P2002` unique constraint), or a plain `Error`. */
  datatype AppError =
    | ValidationError(issues: seq<string>)
    | KnownRequestError(code: string, message: string)
    | PlainError(message: string)
  {
    function Message(): string {
      match this
      case ValidationError(_) => "Validation error"
      case KnownRequestError(_, m) => m
      case PlainError(m) => m
    }
  }

  /** The JSON body every handler writes: `success`, an optional `message`,
      optional `data`, and the validation issues when there are some. */
  datatype Body<D> = Body(success: bool, message: Option<string>, data: Option<D>,
                          errors: Option<seq<string>>)

  datatype Response<D> = Response(status: int, body: Body<D>)

  /** `res.status(status).json({ success: false, message })` */
  function Failure<D>(status: int, message: string): Response<D> {
    Response(status, Body(false, Some(message), None, None))
  }

  /** `res.status(status).json({ success: true, message?, data? })` */
  function Success<D>(status: int, message: Option<string>, data: Option<D>): Response<D> {
    Response(status, Body(true, message, data, None))
  }

  /** A controller either answers itself or forwards an error to `next`. */
  datatype Outcome<D> = Respond(response: Response<D>) | Forward(error: AppError)
}
