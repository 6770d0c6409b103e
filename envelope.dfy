/** The uniform response envelope `{code, success, message, result}` that
    every endpoint answers with (`create_response`). */
module Envelope {
  import opened Json

  /** The JSON body of every reply. */
  datatype Body = Body(code: int, success: bool, message: string, result: Value)

  /** What a handler hands back to Flask: the JSON body and the HTTP status. */
  datatype Response = Response(body: Body, status: int)

  /** `create_response` either builds a response or raises `TypeError`. */
  datatype Outcome = Ok(response: Response) | TypeError(message: string)

  /** The Successful (2xx) class of status codes, section 15.3 of RFC 9110. */
  predicate IsSuccessful(status: int)
  {
    200 <= status < 300
  }

  /** The only payloads the envelope accepts: a dict, or no data at all. */
  predicate IsDictOrNone(data: Value)
  {
    data.Object? || data.Null?
  }

  const TypeErrorMessage: string := "Data should be a dictionary \U{1F61E}"

  /** A reply as the API promises it: the HTTP status mirrors `code`,
      `success` is exactly the 2xx test of `code`, and `result` is an
      object or null. */
  predicate WellFormed(response: Response)
  {
    && response.status == response.body.code
    && (response.body.success <==> IsSuccessful(response.body.code))
    && IsDictOrNone(response.body.result)
  }

  /** Wraps `data` in the envelope; `status` defaults to 200 and `message`
      to the empty string, as in the Python signature. */
  function CreateResponse(data: Value := Null, status: int := 200, message: string := ""): (r: Outcome)
    ensures r.TypeError? <==> !IsDictOrNone(data)
    ensures r.TypeError? ==> r.message == TypeErrorMessage
    ensures r.Ok? ==> WellFormed(r.response)
    ensures r.Ok? ==> r.response.status == status && r.response.body.message == message
    ensures r.Ok? ==> r.response.body.result == data
    ensures r.Ok? ==> (r.response.body.success <==> IsSuccessful(status))
  {
    if !IsDictOrNone(data) then
      TypeError(TypeErrorMessage)
    else
      Ok(Response(Body(status, IsSuccessful(status), message, data), status))
  }

  /** The reply `response` is what `create_response(data, status, message)` returns. */
  predicate Answers(response: Response, data: Value, status: int, message: string)
  {
    CreateResponse(data, status, message) == Ok(response)
  }

  /** Every well-formed reply is produced by exactly one call of
      `create_response`: the one whose arguments are read back from the
      envelope. */
  lemma EnvelopeRoundTrip(response: Response)
    requires WellFormed(response)
    ensures CreateResponse(response.body.result, response.body.code, response.body.message) == Ok(response)
    ensures forall data, status, message ::
      Answers(response, data, status, message) <==>
        data == response.body.result && status == response.body.code && message == response.body.message
  {
  }

  /** Defaults: `create_response(data)` is a 200 reply with an empty message,
      and `create_response()` is a 200 reply with a null result. */
  lemma CreateResponseDefaults(data: Value)
    requires IsDictOrNone(data)
    ensures CreateResponse(data).Ok?
    ensures var r := CreateResponse(data).response;
      r.status == 200 && r.body.code == 200 && r.body.success && r.body.message == "" && r.body.result == data
    ensures CreateResponse() == Ok(Response(Body(200, true, "", Null), 200))
  {
  }
}
