/** The response envelope of src/util/index.js: the ApiError and ApiResponse
    records and the AsyncHandler wrapper that turns a thrown error into a
    status code and a JSON body. */
module Util {
  import opened Js

  const DefaultErrorMessage := "Something went wrong"
  const DefaultResponseMessage := "Success"

  /** An `ApiError` after its constructor ran. Its `data` slot is always `null`;
      `()` stands for that `null`. The captured stack trace is not modelled. */
  datatype ApiError = ApiError(statusCode: int, data: Option<()>, message: string,
                               success: bool, errors: seq<string>)

  /** `new ApiError(statusCode, message?, errors?)`; an omitted argument is `None`. */
  function NewApiError(statusCode: int, message: Option<string>, errors: Option<seq<string>>): (e: ApiError)
    ensures e.statusCode == statusCode && !e.success && e.data == None
    ensures message.None? ==> e.message == DefaultErrorMessage
    ensures message.Some? ==> e.message == message.value
    ensures errors.None? ==> e.errors == []
    ensures errors.Some? ==> e.errors == errors.value
  {
    ApiError(statusCode, None, if message.Some? then message.value else DefaultErrorMessage,
             false, if errors.Some? then errors.value else [])
  }

  /** An `ApiResponse` after its constructor ran. */
  datatype ApiResponse<T> = ApiResponse(statusCode: int, data: Option<T>, message: string, success: bool)

  /** `new ApiResponse(statusCode, data?, message?)`: success is exactly "below 400". */
  function NewApiResponse<T>(statusCode: int, data: Option<T>, message: Option<string>): (r: ApiResponse<T>)
    ensures r.statusCode == statusCode && r.data == data
    ensures r.success <==> statusCode < 400
    ensures message.None? ==> r.message == DefaultResponseMessage
    ensures message.Some? ==> r.message == message.value
  {
    ApiResponse(statusCode, data, if message.Some? then message.value else DefaultResponseMessage,
                statusCode < 400)
  }

  /** A value thrown out of a wrapped handler. An ApiError is an `Error` whose
      constructor sets `statusCode` but never a `status` property; any other
      error may or may not carry `status`. */
  datatype Exception =
    | Thrown(e: ApiError)
    | OtherError(status: Option<int>, message: string)

  /** The `error.status` property AsyncHandler reads. */
  function StatusProperty(ex: Exception): (s: Option<int>)
    ensures ex.Thrown? ==> s == None
  {
    match ex
    case Thrown(_) => None
    case OtherError(status, _) => status
  }

  function MessageOf(ex: Exception): string {
    match ex
    case Thrown(e) => e.message
    case OtherError(_, m) => m
  }

  /** `error.status || 500`: a missing or zero status falls back to 500. */
  function ErrorStatus(ex: Exception): (code: int)
    ensures code != 0
    ensures StatusProperty(ex).Some? && StatusProperty(ex).value != 0 ==> code == StatusProperty(ex).value
    ensures StatusProperty(ex).None? ==> code == 500
  {
    var s := StatusProperty(ex);
    if s.Some? && s.value != 0 then s.value else 500
  }

  /** The body AsyncHandler writes on a throw. */
  datatype ErrorBody = ErrorBody(success: bool, message: string)

  /** What a wrapped handler does: it returns a value or throws. */
  datatype HandlerOutcome<R> = Returned(value: R) | Threw(ex: Exception)

  /** The part of Express's `res` that AsyncHandler writes. */
  class Response {
    var statusCode: int
    var body: Option<ErrorBody>

    /** A fresh response: Express starts at 200 with nothing sent. */
    constructor ()
      ensures statusCode == 200 && body == None
    {
      statusCode := 200;
      body := None;
    }

    /** `AsyncHandler(fn)(req, res, next)` once `fn` has run: its result is passed
        through untouched, and a throw is answered with `error.status || 500`
        and `{success: false, message}`. */
    method AsyncHandler<R>(outcome: HandlerOutcome<R>) returns (result: Option<R>)
      modifies this
      ensures outcome.Returned? ==> result == Some(outcome.value) && unchanged(this)
      ensures outcome.Threw? ==> result == None
      ensures outcome.Threw? ==> statusCode == ErrorStatus(outcome.ex)
                                 && body == Some(ErrorBody(false, MessageOf(outcome.ex)))
    {
      match outcome
      case Returned(v) =>
        result := Some(v);
      case Threw(ex) =>
        statusCode := ErrorStatus(ex);
        body := Some(ErrorBody(false, MessageOf(ex)));
        result := None;
    }
  }

  /** Because ApiError sets `statusCode` and AsyncHandler reads `status`,
      every thrown ApiError is answered with 500, whatever its own code. */
  lemma ThrownApiErrorAnswered500(e: ApiError)
    ensures ErrorStatus(Thrown(e)) == 500
    ensures MessageOf(Thrown(e)) == e.message
  {
  }

  /** The concrete discrepancy: `new ApiError(401, ...)` thrown through the
      handler comes back as 500. */
  lemma Thrown401Becomes500()
    ensures NewApiError(401, Some("Unable to authenticate"), None).statusCode == 401
    ensures ErrorStatus(Thrown(NewApiError(401, Some("Unable to authenticate"), None))) == 500
  {
  }

  /** The evidently intended status: an ApiError's own `statusCode`, and
      `error.status || 500` for any other error. */
  function IntendedErrorStatus(ex: Exception): (code: int)
    ensures ex.Thrown? ==> code == ex.e.statusCode
    ensures ex.OtherError? ==> code == ErrorStatus(ex)
  {
    match ex
    case Thrown(e) => e.statusCode
    case OtherError(_, _) => ErrorStatus(ex)
  }

  /** With the intended rule, a thrown ApiError keeps the code it was built
      with, so the two rules agree exactly on ApiErrors built with 500. */
  lemma IntendedStatusKeepsApiErrorCode(code: int, message: Option<string>)
    ensures IntendedErrorStatus(Thrown(NewApiError(code, message, None))) == code
    ensures (IntendedErrorStatus(Thrown(NewApiError(code, message, None)))
             == ErrorStatus(Thrown(NewApiError(code, message, None)))) <==> code == 500
  {
  }
}
