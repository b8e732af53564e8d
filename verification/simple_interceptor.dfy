/** The simple response interceptor: every returned value is wrapped as a
    200 'Success' body, and every thrown value is replaced by an error body
    that is thrown on, with its status and message chosen by whether the
    process runs in production. */
module SimpleInterceptor {
  import opened Js
  import opened Http

  /** The object the success `map` emits. */
  datatype SuccessBody = SuccessBody(statusCode: int, message: string, result: JsVal, httpMethod: string, timestamp: string, path: string)

  /** The object the `catchError` branch throws. */
  datatype ErrorBody = ErrorBody(statusCode: int, message: JsVal, timestamp: string, path: string, httpMethod: string)

  /** What the intercepted stream does: emit a success body, throw an error
      body, or throw a `TypeError` raised while reading the thrown value. */
  datatype Emission = Emitted(body: SuccessBody) | Raised(error: ErrorBody) | RaisedTypeError

  const MaskedMessage := "Internal server error"

  /** The status of the error body. */
  function ErrorStatus(e: Thrown, isProduction: bool): (r: int)
    ensures isProduction ==> r == 200
    ensures !isProduction && e.Http? ==> r == e.ex.status
    ensures !isProduction && !e.Http? ==> r == 500
  {
    if isProduction then 200
    else if e.Http? then e.ex.status
    else 500
  }

  /** `intercept(context, next)` for one handler outcome; `isProduction`
      stands for `NODE_ENV === 'production'`. */
  function Intercept(outcome: HandlerOutcome, req: Request, isProduction: bool, timestamp: string): (r: Emission)
    ensures r.Emitted? <==> outcome.Returned?
    ensures r.Emitted? ==>
      && r.body.statusCode == 200
      && r.body.message == "Success"
      && r.body.result == outcome.value
      && r.body.httpMethod == req.httpMethod && r.body.path == req.url && r.body.timestamp == timestamp
    ensures r.Raised? ==>
      && r.error.httpMethod == req.httpMethod && r.error.path == req.url && r.error.timestamp == timestamp
    ensures outcome.Threw? && isProduction ==>
      r.Raised? && r.error.statusCode == 200 && r.error.message == Str(MaskedMessage)
    ensures outcome.Threw? && !isProduction ==>
      match outcome.error
      case Http(ex) => r.Raised? && r.error.statusCode == ex.status && r.error.message == Str(ex.message)
      case Other(_, message) => r.Raised? && r.error.statusCode == 500 && r.error.message == message
      case NullThrown => r.RaisedTypeError?
  {
    match outcome
    case Returned(data) =>
      Emitted(SuccessBody(200, "Success", data, req.httpMethod, timestamp, req.url))
    case Threw(e) =>
      var status := ErrorStatus(e, isProduction);
      if isProduction then Raised(ErrorBody(status, Str(MaskedMessage), timestamp, req.url, req.httpMethod))
      else
        match e
        case Http(ex) => Raised(ErrorBody(status, Str(ex.message), timestamp, req.url, req.httpMethod))
        case Other(_, message) => Raised(ErrorBody(status, message, timestamp, req.url, req.httpMethod))
        case NullThrown => RaisedTypeError
  }

  /** In production the error body does not depend on what was thrown. */
  lemma ProductionMasksErrors(e1: Thrown, e2: Thrown, req: Request, timestamp: string)
    ensures Intercept(Threw(e1), req, true, timestamp) == Intercept(Threw(e2), req, true, timestamp)
  {
  }
}
