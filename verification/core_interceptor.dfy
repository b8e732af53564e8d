/** The response interceptor of the core module: `formatResponse` turns a
    handler's return value into an envelope (or a soft-failure envelope), and
    `handleError` turns a thrown value into a failure envelope, folding a
    validation-error list into a field-to-messages map. Each writes the
    envelope with a status; both are modelled as the pair they write. */
module CoreInterceptor {
  import opened Wrappers
  import opened Js
  import opened Http
  import opened ValidationErrors

  /** An envelope message: a plain value, or the folded validation errors. */
  datatype Message = Plain(value: JsVal) | FieldErrors(errors: map<string, seq<JsVal>>)

  /** The JSON body written; `data` is `None` when the key is left out. */
  datatype Envelope = Envelope(
    status: JsVal,
    statusCode: JsVal,
    path: string,
    httpMethod: string,
    timestamp: string,
    message: Message,
    data: Option<JsVal>)

  /** `response.status(httpStatus).json(body)`: the status and body handed to
      the response. Whether the server accepts the status (Node rejects one
      outside 100-999) is not part of this model. */
  datatype Write = Write(httpStatus: JsVal, body: Envelope)

  /** What `handleError` does: write an envelope, or throw a `TypeError` while
      reading the thrown value. */
  datatype Handled = Written(write: Write) | TypeErrorThrown

  const UnexpectedError := "An unexpected error occurred"

  /** `formatResponse(res, context)`, where `responseStatus` is the status the
      response already carries and `timestamp` the formatting time. */
  function FormatResponse(res: JsVal, req: Request, responseStatus: int, timestamp: string): (w: Write)
    ensures w.httpStatus == w.body.statusCode
    ensures w.body.path == req.url && w.body.httpMethod == req.httpMethod && w.body.timestamp == timestamp
    ensures w.body.status == Bool(false) <==> Get(res, "status") == Bool(false)
    // soft failure: `res.status === false`
    ensures Get(res, "status") == Bool(false) ==>
      && w.body.statusCode == (if Truthy(Get(res, "statusCode")) then Get(res, "statusCode") else Num(400))
      && w.body.message == Plain(Get(res, "message"))
      && w.body.data == None
    // success
    ensures Get(res, "status") != Bool(false) ==>
      && w.body.statusCode == (if Nullish(Get(res, "statusCode")) then Num(responseStatus) else Get(res, "statusCode"))
      && w.body.status == (if Nullish(Get(res, "status")) then Bool(true) else Get(res, "status"))
      && (Truthy(Get(res, "message")) ==> w.body.message == Plain(Get(res, "message")))
      && (!Truthy(Get(res, "message")) && Truthy(w.body.status) ==> w.body.message == Plain(Str("Operation successful")))
      && (!Truthy(Get(res, "message")) && !Truthy(w.body.status) ==> w.body.message == Plain(Str("Operation failed")))
      && (w.body.data.Some? <==> Truthy(Get(res, "data")))
      && (w.body.data.Some? ==> w.body.data.value == Get(res, "data"))
  {
    if Get(res, "status") == Bool(false) then
      var code := Or(Get(res, "statusCode"), Num(400));
      Write(code, Envelope(Bool(false), code, req.url, req.httpMethod, timestamp, Plain(Get(res, "message")), None))
    else
      var statusCode := Coalesce(Get(res, "statusCode"), Num(responseStatus));
      var status := Coalesce(Get(res, "status"), Bool(true));
      var message := Or(Get(res, "message"), Str(if Truthy(status) then "Operation successful" else "Operation failed"));
      var result := Coalesce(Get(res, "data"), res);
      var data := if Truthy(Get(res, "data")) then Some(result) else None;
      Write(statusCode, Envelope(status, statusCode, req.url, req.httpMethod, timestamp, Plain(message), data))
  }

  /** What a map holds under `k`, with a missing key read as `[]` (the
      `acc[property] || []` of the fold). */
  function Prior(acc: map<string, seq<JsVal>>, k: string): seq<JsVal> {
    if k in acc then acc[k] else []
  }

  /** One step of the `reduce` in `handleError` on a readable entry: an entry
      with a truthy `property` and truthy `constraints` appends its constraint
      values under its property; any other entry is skipped. */
  function Absorb(acc: map<string, seq<JsVal>>, e: JsVal): (r: map<string, seq<JsVal>>)
    ensures r.Keys == acc.Keys + (if Detailed(e) then {Key(e)} else {})
    ensures forall k :: Prior(r, k) == Prior(acc, k) + Contribution(e, k, true)
  {
    if Detailed(e) then acc[Key(e) := Prior(acc, Key(e)) + Messages(e)] else acc
  }

  /** `Absorb` of a detailed entry, by its key and messages. */
  lemma AbsorbDetailed(acc: map<string, seq<JsVal>>, e: JsVal, k: string, msgs: seq<JsVal>)
    requires Detailed(e) && Key(e) == k && Messages(e) == msgs
    ensures Absorb(acc, e) == acc[k := Prior(acc, k) + msgs]
  {
  }

  /** The `reduce` over the remaining entries: destructuring a `null` or
      `undefined` entry throws. */
  function Reduce(acc: map<string, seq<JsVal>>, entries: seq<JsVal>): (r: Option<map<string, seq<JsVal>>>)
    ensures |entries| > 0 && Nullish(entries[|entries| - 1]) ==> r.None?
    ensures r.Some? ==> acc.Keys <= r.value.Keys
    ensures r.Some? ==> forall k :: k in acc ==> acc[k] <= r.value[k]
    decreases |entries|
  {
    if |entries| == 0 then Some(acc)
    else if Nullish(entries[0]) then None
    else Reduce(Absorb(acc, entries[0]), entries[1..])
  }

  /** The fold succeeds exactly when every entry can be destructured. */
  lemma {:induction false} ReduceDefined(acc: map<string, seq<JsVal>>, entries: seq<JsVal>)
    ensures Reduce(acc, entries).Some? <==> AllReadable(entries)
    decreases |entries|
  {
    if |entries| > 0 && !Nullish(entries[0]) {
      var rest := entries[1..];
      ReduceDefined(Absorb(acc, entries[0]), rest);
      assert forall i :: 0 <= i < |rest| ==> rest[i] == entries[i + 1];
    }
  }

  /** The keys of a successful fold are the accumulator's plus the detailed
      entries' properties. */
  lemma {:induction false} ReduceKeys(acc: map<string, seq<JsVal>>, entries: seq<JsVal>)
    requires Reduce(acc, entries).Some?
    ensures Reduce(acc, entries).value.Keys == acc.Keys + KeySet(entries, true)
    decreases |entries|
  {
    if |entries| > 0 {
      var next := Absorb(acc, entries[0]);
      assert Reduce(acc, entries) == Reduce(next, entries[1..]);
      ReduceKeys(next, entries[1..]);
      KeySetCons(entries, true);
    }
  }

  /** In a successful fold each key holds what the accumulator held followed
      by the messages of the detailed entries with that property, in input
      order. */
  lemma {:induction false} ReduceValues(acc: map<string, seq<JsVal>>, entries: seq<JsVal>, k: string)
    requires Reduce(acc, entries).Some?
    ensures Prior(Reduce(acc, entries).value, k) == Prior(acc, k) + Collect(entries, k, true)
    decreases |entries|
  {
    if |entries| > 0 {
      var e := entries[0];
      var next := Absorb(acc, e);
      assert Reduce(acc, entries) == Reduce(next, entries[1..]);
      ReduceValues(next, entries[1..], k);
      assert Collect(entries, k, true) == Contribution(e, k, true) + Collect(entries[1..], k, true);
    }
  }

  /** `reduce(..., {})` over a validation-error list. */
  function FoldErrors(entries: seq<JsVal>): (r: Option<map<string, seq<JsVal>>>)
    ensures r.Some? <==> AllReadable(entries)
    ensures r.Some? ==> r.value.Keys == KeySet(entries, true)
    ensures r.Some? ==> forall k :: k in r.value ==> r.value[k] == Collect(entries, k, true)
  {
    ReduceDefined(map[], entries);
    if Reduce(map[], entries).Some? then
      var m := Reduce(map[], entries).value;
      ReduceKeys(map[], entries);
      forall k | k in m
        ensures m[k] == Collect(entries, k, true)
      {
        ReduceValues(map[], entries, k);
      }
      Some(m)
    else None
  }

  /** The error payload: `getResponse()` when the value has it, otherwise a
      generic `{ message }`. */
  function ErrorPayload(e: Thrown): (p: JsVal)
    requires !e.NullThrown?
    ensures e.Http? ==> p == e.ex.response
    ensures e.Other? && e.getResponse.Some? ==> p == e.getResponse.value
    ensures e.Other? && e.getResponse.None? ==> Truthy(p) && Get(p, "message") == Str(UnexpectedError)
  {
    match e
    case Http(ex) => ex.response
    case Other(getResponse, _) => getResponse.GetOr(Obj([("message", Str(UnexpectedError))]))
  }

  /** `handleError(exception, context)`. */
  function HandleError(e: Thrown, req: Request, timestamp: string): (h: Handled)
    ensures e.NullThrown? ==> h.TypeErrorThrown?
    ensures h.Written? ==>
      && h.write.httpStatus == h.write.body.statusCode
      && h.write.body.statusCode == Num(if e.Http? then e.ex.status else 500)
      && h.write.body.status == Bool(false)
      && h.write.body.data == None
      && h.write.body.path == req.url && h.write.body.httpMethod == req.httpMethod
      && h.write.body.timestamp == timestamp
    ensures e.Other? && e.getResponse.None? ==>
      h.Written? && h.write.body.message == Plain(Str(UnexpectedError))
    ensures !e.NullThrown? ==>
      var payload := ErrorPayload(e);
      var msg := Get(payload, "message");
      && (msg.Arr? ==>
            && (h.Written? <==> AllReadable(msg.elems))
            && (h.Written? ==> h.write.body.message.FieldErrors?)
            && (h.Written? ==> h.write.body.message.errors.Keys == KeySet(msg.elems, true))
            && (h.Written? ==> forall k :: k in h.write.body.message.errors ==>
                  h.write.body.message.errors[k] == Collect(msg.elems, k, true)))
      && (!msg.Arr? ==>
            && h.Written?
            && (Truthy(msg) ==> h.write.body.message == Plain(msg))
            && (!Truthy(msg) ==> h.write.body.message == Plain(payload)))
  {
    if e.NullThrown? then TypeErrorThrown
    else
      var status := Num(if e.Http? then e.ex.status else 500);
      var payload := ErrorPayload(e);
      var msg := Get(payload, "message");
      var formatted :=
        if msg.Arr? then
          match FoldErrors(msg.elems)
          case Some(m) => Some(FieldErrors(m))
          case None => None
        else Some(Plain(Or(msg, payload)));
      match formatted
      case None => TypeErrorThrown
      case Some(message) =>
        Written(Write(status, Envelope(Bool(false), status, req.url, req.httpMethod, timestamp, message, None)))
  }

  /** `intercept`: a returned value goes through `formatResponse`, a thrown
      one through `handleError`. */
  function Intercept(outcome: HandlerOutcome, req: Request, responseStatus: int, timestamp: string): (h: Handled)
    ensures h.Written? ==> h.write.httpStatus == h.write.body.statusCode
    ensures outcome.Returned? ==> h.Written?
    ensures outcome.Threw? && h.Written? ==> h.write.body.status == Bool(false) && h.write.body.data == None
  {
    match outcome
    case Returned(res) => Written(FormatResponse(res, req, responseStatus, timestamp))
    case Threw(e) => HandleError(e, req, timestamp)
  }

  /** A `statusCode` of 0 is kept on success (`??`) but replaced by 400 on a
      soft failure (`||`). */
  lemma ZeroStatusCode(req: Request, responseStatus: int, timestamp: string)
    ensures FormatResponse(Obj([("statusCode", Num(0))]), req, responseStatus, timestamp).httpStatus == Num(0)
    ensures FormatResponse(Obj([("status", Bool(false)), ("statusCode", Num(0))]), req, responseStatus, timestamp).httpStatus == Num(400)
  {
  }

  /** A handler result without a truthy `data` gets no `data` key, even when
      it is itself a non-empty object: `{ id: 1, firstName: "John" }` is
      answered with status 200 and "Operation successful" and no payload. */
  lemma PlainObjectHasNoData(req: Request, timestamp: string)
    ensures var w := FormatResponse(Obj([("id", Num(1)), ("firstName", Str("John"))]), req, 200, timestamp);
      && w.body.data == None
      && w.body.status == Bool(true)
      && w.httpStatus == Num(200)
      && w.body.message == Plain(Str("Operation successful"))
  {
  }

  /** Formatting the same input twice gives envelopes that differ only in the
      timestamp. */
  lemma FormatIgnoresTimeOnlyInTimestamp(res: JsVal, req: Request, responseStatus: int, t1: string, t2: string)
    ensures FormatResponse(res, req, responseStatus, t1).body.(timestamp := t2)
         == FormatResponse(res, req, responseStatus, t2).body
  {
  }

  /** A repeated property concatenates, and an entry without constraints is
      skipped. */
  lemma FoldExample()
    ensures FoldErrors([
      Obj([("property", Str("email")), ("constraints", Obj([("isEmail", Str("email must be an email"))]))]),
      Obj([("property", Str("password"))]),
      Obj([("property", Str("email")), ("constraints", Obj([("isNotEmpty", Str("email should not be empty"))]))])
    ]) == Some(map["email" := [Str("email must be an email"), Str("email should not be empty")]])
  {
    var e1 := Obj([("property", Str("email")), ("constraints", Obj([("isEmail", Str("email must be an email"))]))]);
    var e2 := Obj([("property", Str("password"))]);
    var e3 := Obj([("property", Str("email")), ("constraints", Obj([("isNotEmpty", Str("email should not be empty"))]))]);
    var first := map["email" := [Str("email must be an email")]];
    assert Key(e1) == "email" && Detailed(e1) && Messages(e1) == [Str("email must be an email")];
    assert !Detailed(e2);
    assert Key(e3) == "email" && Detailed(e3) && Messages(e3) == [Str("email should not be empty")];
    assert [e1, e2, e3][1..] == [e2, e3];
    assert [e2, e3][1..] == [e3];
    AbsorbDetailed(map[], e1, "email", [Str("email must be an email")]);
    assert [] + [Str("email must be an email")] == [Str("email must be an email")];
    AbsorbDetailed(first, e3, "email", [Str("email should not be empty")]);
    assert Prior(first, "email") == [Str("email must be an email")];
    assert [Str("email must be an email")] + [Str("email should not be empty")]
        == [Str("email must be an email"), Str("email should not be empty")];
    assert first["email" := Prior(first, "email") + [Str("email should not be empty")]]
        == map["email" := [Str("email must be an email"), Str("email should not be empty")]];
    assert Reduce(map[], [e1, e2, e3]) == Reduce(first, [e2, e3]);
    assert Reduce(first, [e2, e3]) == Reduce(first, [e3]);
  }

  /** A thrown not-found `HttpException` is answered with its own status and
      message and without a `data` key. */
  lemma NotFoundScenario(req: Request, timestamp: string)
    ensures var e := Http(HttpException(404, Obj([("message", Str("User with ID 5 not found"))]), "User with ID 5 not found"));
      HandleError(e, req, timestamp)
        == Written(Write(Num(404), Envelope(Bool(false), Num(404), req.url, req.httpMethod, timestamp,
                                           Plain(Str("User with ID 5 not found")), None)))
  {
  }

  /** A validation failure over two fields is folded into one key per field. */
  lemma ValidationScenario()
    ensures var email := Obj([("property", Str("email")), ("constraints", Obj([("isEmail", Str("email must be an email"))]))]);
      var password := Obj([("property", Str("password")), ("constraints", Obj([("minLength", Str("password too short"))]))]);
      FoldErrors([email, password])
        == Some(map["email" := [Str("email must be an email")], "password" := [Str("password too short")]])
  {
    var email := Obj([("property", Str("email")), ("constraints", Obj([("isEmail", Str("email must be an email"))]))]);
    var password := Obj([("property", Str("password")), ("constraints", Obj([("minLength", Str("password too short"))]))]);
    var first := map["email" := [Str("email must be an email")]];
    var folded := map["email" := [Str("email must be an email")], "password" := [Str("password too short")]];
    assert Key(email) == "email" && Detailed(email) && Messages(email) == [Str("email must be an email")];
    assert Key(password) == "password" && Detailed(password) && Messages(password) == [Str("password too short")];
    AbsorbDetailed(map[], email, "email", [Str("email must be an email")]);
    assert [] + [Str("email must be an email")] == [Str("email must be an email")];
    AbsorbDetailed(first, password, "password", [Str("password too short")]);
    assert [] + [Str("password too short")] == [Str("password too short")];
    assert first["password" := [Str("password too short")]] == folded;
    assert [email, password][1..] == [password];
    assert [password][1..] == [];
    assert Reduce(first, [password]) == Reduce(folded, []);
    assert Reduce(map[], [email, password]) == Reduce(first, [password]);
  }
}
