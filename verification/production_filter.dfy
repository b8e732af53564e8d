/** The production exception filter: an `HttpException` is answered with a
    status chosen by whether the process runs in production and with the
    exception's message, or a generic one when it is empty. */
module ProductionFilter {
  import opened Http

  /** The JSON body written. */
  datatype Body = Body(statusCode: int, message: string, httpMethod: string, timestamp: string, path: string)

  /** `response.status(httpStatus).json(body)`. */
  datatype Write = Write(httpStatus: int, body: Body)

  const GenericMessage := "Internal server error"

  /** `catch(exception, host)`; `isProduction` stands for
      `NODE_ENV === 'production'`. */
  function Catch(ex: HttpException, req: Request, isProduction: bool, timestamp: string): (w: Write)
    ensures w.httpStatus == w.body.statusCode
    ensures isProduction ==> w.httpStatus == 200
    ensures !isProduction ==> w.httpStatus == ex.status
    ensures w.body.message != ""
    ensures ex.message != "" ==> w.body.message == ex.message
    ensures ex.message == "" ==> w.body.message == GenericMessage
    ensures w.body.httpMethod == req.httpMethod && w.body.path == req.url && w.body.timestamp == timestamp
  {
    var status := if isProduction then 200 else ex.status;
    var message := if ex.message != "" then ex.message else GenericMessage;
    Write(status, Body(status, message, req.httpMethod, timestamp, req.url))
  }

  /** Outside production the status is the exception's own; in production
      only the status is masked, never the message. */
  lemma ProductionMasksOnlyStatus(ex: HttpException, req: Request, timestamp: string)
    ensures Catch(ex, req, true, timestamp).body.message == Catch(ex, req, false, timestamp).body.message
    ensures Catch(ex, req, true, timestamp).body.(statusCode := ex.status) == Catch(ex, req, false, timestamp).body
  {
  }
}
