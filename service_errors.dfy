/** How the browser's service layer turns whatever a failed call threw into an `AppError`
    (`handleServiceError`): the server's own message and status when the answer carries a
    message, else the message of a JavaScript `Error`, else a fixed text; status 500
    whenever the server did not give one. */
module ServiceErrors {
  import opened Common

  /** `AppError`: an `Error` whose name is `AppError`, with a status and an optional code. */
  datatype AppError = AppError(message: string, statusCode: int, code: Option<string>, name: string)

  /** `new AppError(message, statusCode = 500, code)`: an omitted status (`None`) is 500. */
  function NewAppError(message: string, statusCode: Option<int>, code: Option<string>): (e: AppError)
    ensures e.message == message && e.code == code && e.name == "AppError"
    ensures statusCode.None? ==> e.statusCode == 500
    ensures statusCode.Some? ==> e.statusCode == statusCode.value
  {
    AppError(message, statusCode.GetOr(500), code, "AppError")
  }

  /** The JSON body of an error answer, as far as the classifier reads it. */
  datatype ErrorBody = ErrorBody(message: Option<string>, code: Option<string>)

  /** The `response` of an HTTP client error: the status and the body, if any. */
  datatype ErrorResponse = ErrorResponse(status: int, data: Option<ErrorBody>)

  /** What a service call can throw, reduced to what the classifier tests: the `response`
      field of an object (`None` when the value is no object, has no such field, or the
      field is undefined), whether it is an `Error`, and its `message` ("" when it has
      none). */
  datatype Thrown = Thrown(response: Option<ErrorResponse>, isError: bool, message: string)

  /** `error.response?.data?.message`, when truthy. */
  function ServerMessage(t: Thrown): (m: Option<string>)
    ensures m.Some? ==> m.value != "" && t.response.Some? && t.response.value.data.Some?
    ensures m.Some? <==> t.response.Some? && t.response.value.data.Some? && TruthyStr(t.response.value.data.value.message)
  {
    if t.response.Some? && t.response.value.data.Some? && TruthyStr(t.response.value.data.value.message) then
      t.response.value.data.value.message
    else None
  }

  const UnexpectedError: string := "An unexpected error occurred"

  /** `handleServiceError`: three rules tried in order. */
  function HandleServiceError(t: Thrown): (e: AppError)
    ensures e.name == "AppError" && e.message != ""
    ensures ServerMessage(t).Some? ==>
      e == AppError(ServerMessage(t).value, t.response.value.status, t.response.value.data.value.code, "AppError")
    ensures ServerMessage(t).None? && t.isError && t.message != "" ==>
      e == AppError(t.message, 500, None, "AppError")
    ensures ServerMessage(t).None? && !(t.isError && t.message != "") ==>
      e == AppError(UnexpectedError, 500, None, "AppError")
  {
    var server := ServerMessage(t);
    if server.Some? then NewAppError(server.value, Some(t.response.value.status), t.response.value.data.value.code)
    else if t.isError && t.message != "" then NewAppError(t.message, None, None)
    else NewAppError(UnexpectedError, None, None)
  }

  /** An answer without a usable message counts for nothing: the error is classified as
      if it had no response at all. */
  lemma SilentResponseFallsThrough(t: Thrown, status: int, code: Option<string>, body: Option<ErrorBody>)
    requires body.None? || !TruthyStr(body.value.message)
    ensures HandleServiceError(t.(response := Some(ErrorResponse(status, body)))) == HandleServiceError(t.(response := None))
  {
  }

  /** A status other than 500 comes only from the server's answer, and only together with
      the server's message. */
  lemma StatusFromServerOnly(t: Thrown)
    ensures HandleServiceError(t).statusCode != 500 ==>
      ServerMessage(t).Some? && HandleServiceError(t).statusCode == t.response.value.status
  {
  }
}
