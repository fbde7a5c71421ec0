/**
 * The service's error type, the HTTP response every error is turned into,
 * and the conversions from library errors (api/src/error.rs).
 */
module Errors {
  import opened Types

  datatype Error =
    | InvalidCredentials
    | BadRequest(message: string)
    | NotFound
    | InternalServer

  /** The service-wide result type: a value or one of the errors above. */
  datatype Result<+T> = Ok(value: T) | Err(error: Error)

  const StatusBadRequest: nat := 400
  const StatusUnauthorized: nat := 401
  const StatusNotFound: nat := 404
  const StatusInternalServerError: nat := 500

  const ErrorKey: string := "error"

  /** An HTTP response: a status code and a JSON object body with string values. */
  datatype Response = Response(status: nat, body: map<string, string>)

  /** Status and message of an error, as the match in `into_response` pairs them. */
  function StatusAndMessage(e: Error): (nat, string)
  {
    match e
    case InvalidCredentials => (StatusUnauthorized, "Invalid credentials")
    case BadRequest(message) => (StatusBadRequest, message)
    case NotFound => (StatusNotFound, "Not found")
    case InternalServer => (StatusInternalServerError, "Internal server error")
  }

  /**
   * The response sent for an error: its status identifies the variant, the
   * body is the single-key object {"error": message}, and a BadRequest
   * carries its message verbatim.
   */
  function IntoResponse(e: Error): (r: Response)
    ensures r.body.Keys == {ErrorKey}
    ensures r.status in {StatusBadRequest, StatusUnauthorized, StatusNotFound, StatusInternalServerError}
    ensures r.status == StatusBadRequest <==> e.BadRequest?
    ensures r.status == StatusUnauthorized <==> e.InvalidCredentials?
    ensures r.status == StatusNotFound <==> e.NotFound?
    ensures r.status == StatusInternalServerError <==> e.InternalServer?
    ensures e.BadRequest? ==> r.body[ErrorKey] == e.message
    ensures e.InvalidCredentials? ==> r.body[ErrorKey] == "Invalid credentials"
    ensures e.NotFound? ==> r.body[ErrorKey] == "Not found"
    ensures e.InternalServer? ==> r.body[ErrorKey] == "Internal server error"
  {
    var (status, message) := StatusAndMessage(e);
    Response(status, map[ErrorKey := message])
  }

  /**
   * Reads an error back from a response, the way a client of the API would.
   * It is the inverse of IntoResponse (see ResponseRoundTrip).
   */
  function ErrorOfResponse(r: Response): Option<Error>
  {
    if ErrorKey !in r.body then None
    else if r.status == StatusUnauthorized then Some(InvalidCredentials)
    else if r.status == StatusBadRequest then Some(BadRequest(r.body[ErrorKey]))
    else if r.status == StatusNotFound then Some(NotFound)
    else if r.status == StatusInternalServerError then Some(InternalServer)
    else None
  }

  /** No information is lost: every error can be recovered from its response. */
  lemma ResponseRoundTrip(e: Error)
    ensures ErrorOfResponse(IntoResponse(e)) == Some(e)
  {
  }

  /** Two different errors never produce the same response. */
  lemma {:induction false} ResponseInjective(a: Error, b: Error)
    requires IntoResponse(a) == IntoResponse(b)
    ensures a == b
  {
    ResponseRoundTrip(a);
    ResponseRoundTrip(b);
  }

  /** The database library's errors, as far as the service distinguishes them. */
  datatype SqlxError = RowNotFound | OtherSqlx(description: string)

  /** A missing row becomes NotFound; every other database error is an internal error. */
  function FromSqlx(err: SqlxError): (e: Error)
    ensures e == NotFound <==> err.RowNotFound?
    ensures e != NotFound ==> e == InternalServer
  {
    if err.RowNotFound? then NotFound else InternalServer
  }

  /** A malformed UUID is the client's fault: BadRequest with the parser's message. */
  function FromUuidError(description: string): (e: Error)
    ensures e.BadRequest? && e.message == description
  {
    BadRequest(description)
  }

  /** A JSON (de)serialisation failure: BadRequest with the library's message. */
  function FromSerdeError(description: string): (e: Error)
    ensures e.BadRequest? && e.message == description
  {
    BadRequest(description)
  }

  /** A failure to read the environment file is an internal error. */
  function FromDotenvError(description: string): (e: Error)
    ensures e == InternalServer
  {
    InternalServer
  }
}
