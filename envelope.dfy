/** The HTTP status codes and JSON envelopes every handler answers with. */
module Envelope {

  type StatusCode = nat

  const OK: StatusCode := 200
  const Created: StatusCode := 201
  const NoContent: StatusCode := 204
  const NotFound: StatusCode := 404
  const Conflict: StatusCode := 409
  const InternalServerError: StatusCode := 500

  /** The values of the envelope's `"status"` key. */
  const Success := "success"
  const Fail := "fail"
  const Error := "error"

  /** A JSON response body. Each constructor stands for one JSON shape:
      `Data`    is `{"status": status, "data": {key: row}}`,
      `Listing` is `{"status": status, "results": results, key: rows}`,
      `Message` is `{"status": status, "message": message}`,
      `NoBody`  is an empty body. */
  datatype Envelope<R> =
    | Data(status: string, key: string, row: R)
    | Listing(status: string, results: nat, key: string, rows: seq<R>)
    | Message(status: string, message: string)
    | NoBody

  /** What a handler does with a request: answer with a status code and a body, or
      panic, in which case the request's handler unwinds and no response is sent. */
  datatype Reply<R> = Respond(code: StatusCode, body: Envelope<R>) | Panic(message: string)

  /** The envelope rules every modelled handler keeps (the health check's 200 with a
      `"success"` message is not among them): a row or a listing only ever comes with
      `"success"` and a 2xx code, a listing's `"results"` counts its rows, a message
      carries `"fail"` or `"error"` with a 4xx or 5xx code, and only 204 has no body. */
  predicate WellFormed<R>(r: Reply<R>)
  {
    match r
    case Panic(_) => true
    case Respond(code, body) =>
      match body
      case Data(status, _, _) => status == Success && (code == OK || code == Created)
      case Listing(status, results, _, rows) => status == Success && code == OK && results == |rows|
      case Message(status, _) =>
        (status == Fail || status == Error) &&
        (code == NotFound || code == Conflict || code == InternalServerError)
      case NoBody => code == NoContent
  }
}
