/**
  What the browser screens share: the status banner they show, and the
  replies they receive from the endpoint, seen only through the fields the
  screens read.
 */
module Client {
  import opened Js

  datatype Severity = Success | Info | Error

  /** The banner: its text and its severity. */
  datatype Status = Status(message: string, severity: Severity)

  const ConsoleHint := ". Please check console (F12) for details."

  /** An error banner: `${prefix}${reason}. Please check console (F12) for details.` */
  function Failure(prefix: string, reason: string): (s: Status)
    ensures s.severity == Error
    ensures |s.message| == |prefix| + |reason| + |ConsoleHint|
    ensures s.message[..|prefix|] == prefix
    ensures s.message[|prefix|..|prefix| + |reason|] == reason
  {
    Status(prefix + reason + ConsoleHint, Error)
  }

  /** The banner every caught error in a submit handler turns into. */
  function ErrorStatus(reason: string): Status {
    Failure("Error: ", reason)
  }

  /** A JSON reply body as a submit handler reads it: the truthiness of its
      `success` field, and its `error` field as text ('' when the field is
      absent or falsy). */
  datatype Body = Body(success: bool, error: string)

  /** The outcome of `fetch` for a write: the request was rejected before any
      response (a network failure, with the browser's message), or a response
      with an HTTP status and a JSON body. */
  datatype Reply = Unreachable(reason: string) | Response(status: nat, body: Body)

  /** A JSON reply body to a read: an array of records, or a JSON object that
      is not an array (the endpoint's `{error}` object), seen through its
      `error` field. */
  datatype ReadBody = Records(rows: seq<Record>) | NotArray(error: string)

  datatype ReadReply = ReadUnreachable(reason: string) | ReadResponse(status: nat, body: ReadBody)

  /** `response.ok`: the status is in the range 200 to 299. */
  predicate StatusOk(status: nat) {
    200 <= status <= 299
  }

  /** The fallback message when the server gives no structured error. */
  function ServerResponded(status: nat): string {
    "Server responded with " + Decimal(status)
  }

  /** `body.error` of a read reply; an array has no `error` field. */
  function ReadError(body: ReadBody): string {
    match body
    case Records(_) => ""
    case NotArray(e) => e
  }
}
