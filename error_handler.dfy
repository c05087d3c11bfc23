/** src/middleware/errorHandler.ts: the last middleware, turning an error
    forwarded by a controller into a status and a `success: false` body after
    logging it once. `NODE_ENV` is a parameter. */
module ErrorHandler {
  import opened Wrappers
  import opened Http
  import opened Logging

  /** Only the exact string `development` reveals error messages. */
  predicate IsDevelopment(nodeEnv: Option<string>) {
    nodeEnv == Some("development")
  }

  /** The response for `err`. */
  function ErrorResponse<D>(err: AppError, nodeEnv: Option<string>): (r: Response<D>)
    ensures !r.body.success && r.body.data.None? && r.body.message.Some?
    ensures err.ValidationError? <==> r.status == 400
    ensures err.ValidationError? ==>
              r.body.message == Some("Validation error") && r.body.errors == Some(err.issues)
    ensures !err.ValidationError? ==> r.body.errors.None?
    ensures r.status == 404 <==> err.KnownRequestError? && err.code == "P2025"
    ensures r.status == 404 ==> r.body.message == Some("Resource not found")
    ensures r.status == 409 <==> err.KnownRequestError? && err.code == "P2002"
    ensures r.status == 409 ==> r.body.message == Some("Resource already exists")
    ensures r.status in {400, 404, 409, 500}
    ensures r.status == 500 ==>
              r.body.message == Some(if IsDevelopment(nodeEnv) then err.Message()
                                     else "Internal server error")
  {
    match err
    case ValidationError(issues) =>
      Response(400, Body(false, Some("Validation error"), None, Some(issues)))
    case KnownRequestError("P2025", _) => Failure(404, "Resource not found")
    case KnownRequestError("P2002", _) => Failure(409, "Resource already exists")
    case _ =>
      Failure(500, if IsDevelopment(nodeEnv) then err.Message() else "Internal server error")
  }

  /** A plain `Error` is always a 500, whatever its message says. */
  lemma PlainErrorsAre500<D>(message: string, nodeEnv: Option<string>)
    ensures ErrorResponse<D>(PlainError(message), nodeEnv).status == 500
  {
  }

  /** `errorHandler(err, req, res, next)`: log, then answer. */
  method HandleError<D>(logger: Logger, err: AppError, httpMethod: string, path: string,
                        nodeEnv: Option<string>)
    returns (response: Response<D>)
    modifies logger
    ensures logger.records == old(logger.records)
                              + Kept(logger.threshold, [LogRecord(Error, "Request error", httpMethod, path, None, -1, -1)])
    ensures response == ErrorResponse(err, nodeEnv)
  {
    logger.Log(LogRecord(Error, "Request error", httpMethod, path, None, -1, -1));
    response := ErrorResponse(err, nodeEnv);
  }

  /** What the client finally receives for a controller outcome. */
  function Finish<D>(outcome: Outcome<D>, nodeEnv: Option<string>): (r: Response<D>)
    ensures outcome.Respond? ==> r == outcome.response
    ensures outcome.Forward? ==> !r.body.success && r.status in {400, 404, 409, 500}
    ensures outcome.Forward? ==> r == ErrorResponse(outcome.error, nodeEnv)
  {
    match outcome
    case Respond(response) => response
    case Forward(err) => ErrorResponse(err, nodeEnv)
  }
}
