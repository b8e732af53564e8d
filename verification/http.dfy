/** What the response layer sees of a request and of the values a handler
    returns or throws. */
module Http {
  import opened Wrappers
  import opened Js

  /** The two request fields every envelope copies: `request.method` and `request.url`. */
  datatype Request = Request(httpMethod: string, url: string)

  /** A framework `HttpException`: the status `getStatus()` returns, the
      payload `getResponse()` returns, and its `message`. */
  datatype HttpException = HttpException(status: int, response: JsVal, message: string)

  /** A thrown value: an `HttpException`; any other non-null value, with
      `getResponse` holding `Some(p)` when the value has a `getResponse` method
      that returns `p`; or `null`/`undefined` itself. */
  datatype Thrown =
    | Http(ex: HttpException)
    | Other(getResponse: Option<JsVal>, message: JsVal)
    | NullThrown

  /** How a route handler settled: it returned a value or it threw one. */
  datatype HandlerOutcome = Returned(value: JsVal) | Threw(error: Thrown)
}
