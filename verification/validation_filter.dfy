/** The validation exception filter: a `BadRequestException` whose payload
    `message` is a validation-error list is answered with that list folded
    into a map from property to constraint messages. Unlike the response
    interceptor's fold, every entry takes part, so a property without
    constraints still gets a key, holding an empty list. */
module ValidationFilter {
  import opened Wrappers
  import opened Js
  import opened Http
  import opened ValidationErrors

  /** The JSON body written. */
  datatype Body = Body(message: map<string, seq<JsVal>>, error: string, statusCode: int)

  /** `response.status(httpStatus).json(body)`. */
  datatype Write = Write(httpStatus: int, body: Body)

  /** What `catch` does: write a body, or throw a `TypeError` because the
      payload's `message` is not an array or holds `null`/`undefined`. */
  datatype Handled = Written(write: Write) | TypeErrorThrown

  /** `formatErrors(errors)`: `errors.forEach` over the list, creating the
      property's key when it is missing and pushing every constraint value. */
  method FormatErrors(errors: JsVal) returns (r: Option<map<string, seq<JsVal>>>)
    ensures r.Some? <==> errors.Arr? && AllReadable(errors.elems)
    ensures r.Some? ==> r.value.Keys == KeySet(errors.elems, false)
    ensures r.Some? ==> forall k :: k in r.value ==> r.value[k] == Collect(errors.elems, k, false)
  {
    if !errors.Arr? {
      return None;
    }
    var entries := errors.elems;
    var result: map<string, seq<JsVal>> := map[];
    var i := 0;
    while i < |entries|
      invariant 0 <= i <= |entries|
      invariant AllReadable(entries[..i])
      invariant result.Keys == KeySet(entries[..i], false)
      invariant forall k :: k in result ==> result[k] == Collect(entries[..i], k, false)
    {
      var e := entries[i];
      if Nullish(e) {
        return None;
      }
      var key := Key(e);
      ghost var before := result;
      if key !in result {
        result := result[key := []];
      }
      result := result[key := result[key] + Messages(e)];
      FileStep(entries[..i], e, before);
      assert entries[..i + 1] == entries[..i] + [e];
      i := i + 1;
    }
    assert entries[..i] == entries;
    return Some(result);
  }

  /** One `forEach` step: filing a readable entry into a map that holds the
      fold of a prefix gives the fold of the prefix extended by that entry. */
  lemma FileStep(prefix: seq<JsVal>, e: JsVal, result: map<string, seq<JsVal>>)
    requires result.Keys == KeySet(prefix, false)
    requires forall k :: k in result ==> result[k] == Collect(prefix, k, false)
    ensures var key := Key(e);
      var created := if key !in result then result[key := []] else result;
      var next := created[key := created[key] + Messages(e)];
      && next.Keys == KeySet(prefix + [e], false)
      && forall k :: k in next ==> next[k] == Collect(prefix + [e], k, false)
  {
    var key := Key(e);
    if key !in result {
      CollectOutsideKeySet(prefix, key, false);
    }
    KeySetSnoc(prefix, e, false);
    forall k | k in result || k == key
      ensures Collect(prefix + [e], k, false) == Collect(prefix, k, false) + Contribution(e, k, false)
    {
      CollectSnoc(prefix, e, k, false);
    }
  }

  /** `catch(exception, host)`: the status set is the exception's own, while
      the body always says 400 'Bad Request'. */
  method Catch(ex: HttpException) returns (h: Handled)
    ensures var errors := Get(ex.response, "message");
      h.Written? <==> errors.Arr? && AllReadable(errors.elems)
    ensures h.Written? ==>
      && h.write.httpStatus == ex.status
      && h.write.body.error == "Bad Request"
      && h.write.body.statusCode == 400
    ensures h.Written? ==>
      var entries := Get(ex.response, "message").elems;
      && h.write.body.message.Keys == KeySet(entries, false)
      && forall k :: k in h.write.body.message ==> h.write.body.message[k] == Collect(entries, k, false)
  {
    var formatted := FormatErrors(Get(ex.response, "message"));
    match formatted
    case None =>
      h := TypeErrorThrown;
    case Some(errors) =>
      h := Written(Write(ex.status, Body(errors, "Bad Request", 400)));
  }
}
