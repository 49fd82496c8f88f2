/**
 * The request/answer envelope of the l2l transport as index.js reads it:
 * answering a message delivers an answer whose `data` is the payload,
 * and callers treat a truthy error, on the answer itself or else on its
 * payload, as a failure.
 */
module Answers {
  import opened Wrappers
  import opened JsValues

  /** A message sent with `sendTo(target, action, data, callback)`. */
  datatype Request = Request(target: string, action: string, data: Value)

  /** The answer a requester receives when the responder answers with `payload`. */
  function AnswerOf(payload: Value): Value {
    Obj(map["data" := payload])
  }

  /**
   * The error an answer reports (index.js:155, 223-224): the
   * transport-level error when it is truthy, otherwise the payload's
   * error; reading the payload's error from a missing payload is a
   * TypeError.
   */
  function AnswerError(answer: Value): (r: Result<Value, Error>)
    ensures GetProp(answer, "error").Err? ==> r == Err(TypeError)
    ensures GetProp(answer, "error").Ok? && Truthy(GetProp(answer, "error").value) ==> r == GetProp(answer, "error")
    ensures GetProp(answer, "error").Ok? && !Truthy(GetProp(answer, "error").value) ==>
      r == GetProp(GetProp(answer, "data").value, "error")
    ensures answer.Obj? && !Truthy(GetProp(answer, "error").value) && "data" !in answer.fields ==> r == Err(TypeError)
    ensures r.Ok? && !Truthy(r.value) <==>
      && GetProp(answer, "error").Ok? && !Truthy(GetProp(answer, "error").value)
      && GetProp(answer, "data").Ok?
      && GetProp(GetProp(answer, "data").value, "error").Ok?
      && !Truthy(GetProp(GetProp(answer, "data").value, "error").value)
  {
    var e :- GetProp(answer, "error");
    if Truthy(e) then Ok(e)
    else GetProp(GetProp(answer, "data").value, "error")
  }

  /** An answer carrying a payload without an `error` property reports no error. */
  lemma AnswerOfHasNoError(payload: Value)
    requires payload.Obj? && "error" !in payload.fields
    ensures AnswerError(AnswerOf(payload)) == Ok(Undefined)
  {
  }

  /** An answer whose payload carries a truthy error reports exactly that error. */
  lemma AnswerOfCarriesError(payload: Value)
    requires payload.Obj? && "error" in payload.fields && Truthy(payload.fields["error"])
    ensures AnswerError(AnswerOf(payload)) == Ok(payload.fields["error"])
  {
  }

  /**
   * How a requester settles on an answer (index.js:154-158, 222-234): it
   * rejects with the reported error when that is truthy, and otherwise
   * resolves with the payload's property `field`; a property read on a
   * missing answer or payload fails with a TypeError.
   */
  function Unwrap(answer: Value, field: string): (r: Result<Value, Error>)
    ensures AnswerError(answer).Err? ==> r == Err(AnswerError(answer).error)
    ensures AnswerError(answer).Ok? && Truthy(AnswerError(answer).value) ==>
      r == Err(Rejected(AnswerError(answer).value))
    ensures AnswerError(answer).Ok? && !Truthy(AnswerError(answer).value) ==>
      r.Ok? && r == GetProp(GetProp(answer, "data").value, field)
  {
    var e :- AnswerError(answer);
    if Truthy(e) then Err(Rejected(e))
    else GetProp(GetProp(answer, "data").value, field)
  }

  /**
   * The envelope round trip: a responder that answers with an object
   * payload makes the requester reject with the payload's truthy error,
   * and otherwise resolve with the payload's `field` (undefined if absent).
   */
  lemma UnwrapAnswerOf(payload: map<string, Value>, field: string)
    ensures "error" in payload && Truthy(payload["error"]) ==>
      Unwrap(AnswerOf(Obj(payload)), field) == Err(Rejected(payload["error"]))
    ensures !("error" in payload && Truthy(payload["error"])) ==>
      Unwrap(AnswerOf(Obj(payload)), field) == Ok(if field in payload then payload[field] else Undefined)
  {
  }
}
