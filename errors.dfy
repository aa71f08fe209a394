/** The error taxonomy: the `HttpError` class with its three factories, and the error
    handler that turns whatever a request handler threw into a status and a JSON body.
    The status codes are those of section 15 of RFC 9110. */
module Errors {
  import opened Common

  /** 400 Bad Request, section 15.5.1 of RFC 9110. */
  const BAD_REQUEST: nat := 400
  /** 404 Not Found, section 15.5.5 of RFC 9110. */
  const NOT_FOUND: nat := 404
  /** 409 Conflict, section 15.5.10 of RFC 9110. */
  const CONFLICT: nat := 409
  /** 500 Internal Server Error, section 15.6.1 of RFC 9110. */
  const INTERNAL_SERVER_ERROR: nat := 500

  /** An error a domain service raises on purpose: a status and a message. */
  datatype HttpError = HttpError(status: nat, message: string)

  /** `new HttpError(status, message)`. */
  function NewHttpError(status: nat, message: string): (e: HttpError)
    ensures e.status == status && e.message == message
  {
    HttpError(status, message)
  }

  /** `HttpError.badRequest(message)`. */
  function BadRequest(message: string): (e: HttpError)
    ensures e.status == BAD_REQUEST && e.message == message
  {
    NewHttpError(BAD_REQUEST, message)
  }

  /** `HttpError.notFound(message)`. */
  function NotFound(message: string): (e: HttpError)
    ensures e.status == NOT_FOUND && e.message == message
  {
    NewHttpError(NOT_FOUND, message)
  }

  /** `HttpError.conflict(message)`. */
  function Conflict(message: string): (e: HttpError)
    ensures e.status == CONFLICT && e.message == message
  {
    NewHttpError(CONFLICT, message)
  }

  /** The names of the request fields a schema rejected (the keys of zod's
      `flatten().fieldErrors`); the empty name stands for an error about the
      request as a whole (`formErrors`). */
  type FieldErrors = set<string>

  /** What a request handler can throw. */
  datatype Thrown =
    | ZodError(details: FieldErrors)      // a schema's `parse` failed
    | Http(error: HttpError)              // a service raised an HttpError
    | PlainError(message: string)         // any other `Error`
    | NonError                            // a thrown value that is not an `Error`

  /** The outcome of a service call: a value, or what it threw. */
  datatype Result<+T> = Ok(value: T) | Err(thrown: Thrown)

  /** The JSON body of an error response. */
  datatype ErrorBody = ErrorBody(message: string, details: Option<FieldErrors>)

  datatype ErrorResponse = ErrorResponse(status: nat, body: ErrorBody)

  /** The error-handling middleware: validation errors become 400 with their field
      details, an `HttpError` keeps its own status and message, any other `Error`
      becomes 500 with its message, and anything else 500 "Unknown error". */
  function HandleError(err: Thrown): (r: ErrorResponse)
    ensures err.ZodError? ==> r.status == BAD_REQUEST && r.body == ErrorBody("Validation failed", Some(err.details))
    ensures err.Http? ==> r.status == err.error.status && r.body == ErrorBody(err.error.message, None)
    ensures err.PlainError? ==> r.status == INTERNAL_SERVER_ERROR && r.body == ErrorBody(err.message, None)
    ensures err.NonError? ==> r.status == INTERNAL_SERVER_ERROR && r.body == ErrorBody("Unknown error", None)
  {
    match err
    case ZodError(details) => ErrorResponse(BAD_REQUEST, ErrorBody("Validation failed", Some(details)))
    case Http(e) => ErrorResponse(e.status, ErrorBody(e.message, None))
    case PlainError(message) => ErrorResponse(INTERNAL_SERVER_ERROR, ErrorBody(message, None))
    case NonError => ErrorResponse(INTERNAL_SERVER_ERROR, ErrorBody("Unknown error", None))
  }

  /** An error built by one of the three factories. */
  predicate IsDomainError(e: HttpError) {
    e == BadRequest(e.message) || e == NotFound(e.message) || e == Conflict(e.message)
  }

  /** A response carries "details" exactly when the request failed validation. */
  lemma DetailsOnlyForValidation(err: Thrown)
    ensures HandleError(err).body.details.Some? <==> err.ZodError?
  {
  }

  /** Every error a service raises through a factory reaches the client as a 4xx
      response with the service's message and no details; a 500 only ever comes from
      an error no service raised on purpose. */
  lemma DomainErrorsAreClientErrors(err: Thrown)
    ensures err.Http? && IsDomainError(err.error) ==>
      HandleError(err).status in {BAD_REQUEST, NOT_FOUND, CONFLICT} &&
      HandleError(err).body == ErrorBody(err.error.message, None)
    ensures HandleError(err).status == INTERNAL_SERVER_ERROR ==>
      !err.ZodError? && !(err.Http? && IsDomainError(err.error))
  {
  }
}
