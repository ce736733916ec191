/** The server's last-resort error middleware (`notFound`, `errorHandler`) and the
    `next(error)` path every controller uses. */
module ErrorHandler {
  import opened Common
  import opened ApiResponse

  /** A thrown error as the handler sees it: `statusCode` and `code` may be missing,
      `message` may be empty, `name` is the error's class name. */
  datatype Err = Err(statusCode: Option<int>, message: string, code: Option<string>, name: string)

  /** What a controller does with a request: answer it, or call `next(error)`. */
  datatype Outcome<T> = Sent(reply: Reply<T>) | Forwarded(error: Err)

  /** The store's error for an update or delete of a row that does not exist (code
      P2025). Its exact message is not part of this model. */
  const RecordNotFound: Err := Err(None, "Record to update not found.", Some("P2025"), "PrismaClientKnownRequestError")

  /** `notFound`: a plain `Error` whose message names the URL, tagged with status 404. */
  function NotFound(originalUrl: string): (e: Err)
    ensures e.statusCode == Some(404) && e.code == None
    ensures e.message == "Not found - " + originalUrl
  {
    Err(Some(404), "Not found - " + originalUrl, None, "Error")
  }

  /** `errorHandler`: a base status and message taken from the error (500 and
      "Internal Server Error" when those are falsy), then overridden first by the store's
      error codes and then by the token library's error names. */
  function Handle<T>(err: Err, now: int): (r: Reply<T>)
    ensures r.status == r.body.statusCode && !r.body.success
    ensures r.body.data == None && r.body.pagination == None && r.body.timestamp == now
    ensures r.body.message != ""
  {
    var status0 := if TruthyInt(err.statusCode) then err.statusCode.value else 500;
    var message0 := if err.message != "" then err.message else "Internal Server Error";
    var (status1, message1) :=
      if err.code == Some("P2002") then (409, "Resource already exists")
      else if err.code == Some("P2025") then (404, "Resource not found")
      else (status0, message0);
    var (status2, message2) :=
      if err.name == "JsonWebTokenError" then (401, "Invalid token")
      else if err.name == "TokenExpiredError" then (401, "Token expired")
      else (status1, message1);
    Reply(status2, Envelope(false, status2, message2, None, None, now))
  }

  /** The reply the client finally receives for an outcome. */
  function Deliver<T>(o: Outcome<T>, now: int): (r: Reply<T>)
    ensures o.Sent? ==> r == o.reply
    ensures o.Forwarded? ==> !r.body.success && r.status == r.body.statusCode
  {
    match o
    case Sent(reply) => reply
    case Forwarded(err) => Handle(err, now)
  }

  /** The token names decide the answer whatever the status, message and code say. */
  lemma TokenErrorsWin<T>(err: Err, now: int)
    requires err.name == "JsonWebTokenError" || err.name == "TokenExpiredError"
    ensures Handle<T>(err, now).status == 401
    ensures Handle<T>(err, now).body.message ==
            (if err.name == "JsonWebTokenError" then "Invalid token" else "Token expired")
  {
  }

  /** Outside the token names, the store's codes decide: P2002 is a conflict and P2025 a
      missing row. */
  lemma StoreCodesMapped<T>(err: Err, now: int)
    requires err.name != "JsonWebTokenError" && err.name != "TokenExpiredError"
    requires err.code == Some("P2002") || err.code == Some("P2025")
    ensures err.code == Some("P2002") ==>
      Handle<T>(err, now).status == 409 && Handle<T>(err, now).body.message == "Resource already exists"
    ensures err.code == Some("P2025") ==>
      Handle<T>(err, now).status == 404 && Handle<T>(err, now).body.message == "Resource not found"
  {
  }

  /** With no recognised code or name, the error's own truthy status and message are
      used, and 500 / "Internal Server Error" stand in for falsy ones. */
  lemma UnrecognisedErrorsKeepBase<T>(err: Err, now: int)
    requires err.name != "JsonWebTokenError" && err.name != "TokenExpiredError"
    requires err.code != Some("P2002") && err.code != Some("P2025")
    ensures Handle<T>(err, now).status == (if TruthyInt(err.statusCode) then err.statusCode.value else 500)
    ensures Handle<T>(err, now).body.message == (if err.message != "" then err.message else "Internal Server Error")
  {
  }

  /** A controller whose store update hits a missing row answers 404 "Resource not found". */
  lemma RecordNotFoundIs404<T>(now: int)
    ensures Deliver<T>(Forwarded(RecordNotFound), now).status == 404
    ensures Deliver<T>(Forwarded(RecordNotFound), now).body.message == "Resource not found"
  {
  }

  /** An unmatched route always answers 404 and names the URL it was asked for. */
  lemma NotFoundAnswers404<T>(originalUrl: string, now: int)
    ensures Handle<T>(NotFound(originalUrl), now).status == 404
    ensures Handle<T>(NotFound(originalUrl), now).body.message == "Not found - " + originalUrl
  {
  }
}
