/** The uniform response envelope (`ApiResponse`), its error record
    (`ErrorDetails`) and the HTTP response carrying it (`ResponseEntity`). */
module Responses {
  import opened Wrappers
  import opened Http

  /** An ISO-8601 time of day read from the clock; only its being non-empty
      matters here. */
  type Timestamp = s: string | |s| > 0 witness "1970-01-01T00:00:00Z"

  /** A thrown exception as the envelope sees it: its message and the simple
      name of its class. */
  datatype Throwable = Throwable(message: string, simpleName: string)

  datatype ErrorDetails = ErrorDetails(message: string, details: string, exceptionType: string, timestamp: Timestamp)

  /** `new ErrorDetails(message, details, type)`, with the clock reading
      passed in: the three texts are kept as given and the time is stamped
      once, at construction. */
  function NewErrorDetails(message: string, details: string, exceptionType: string, now: Timestamp): (e: ErrorDetails)
    ensures e.message == message && e.details == details && e.exceptionType == exceptionType
    ensures e.timestamp == now && |e.timestamp| > 0
  {
    ErrorDetails(message, details, exceptionType, now)
  }

  /** `data` and `error` are `None` where Java holds `null` (and Jackson then
      omits the field). */
  datatype ApiResponse<T> = ApiResponse(statusCode: int, data: Option<T>, error: Option<ErrorDetails>) {

    /** The envelope never carries both a payload and an error. */
    predicate Exclusive() {
      !(data.Some? && error.Some?)
    }
  }

  /** `createSuccessResponse(status, data)`: the status's code and the data,
      no error. A `null` datum leaves the envelope with neither. */
  function CreateSuccessResponse<T>(status: HttpStatus, data: Option<T>): (r: ApiResponse<T>)
    ensures r.statusCode == status.Value()
    ensures r.data == data && r.error.None?
    ensures r.Exclusive()
  {
    ApiResponse(status.Value(), data, None)
  }

  /** `createFailureResponse(status, message, exception)`: the status's code,
      no data, and an error record of the message, the exception's message
      and the exception's simple class name. */
  function CreateFailureResponse<T>(status: HttpStatus, message: string, exception: Throwable, now: Timestamp): (r: ApiResponse<T>)
    ensures r.statusCode == status.Value()
    ensures r.data.None?
    ensures r.error == Some(ErrorDetails(message, exception.message, exception.simpleName, now))
    ensures r.Exclusive()
  {
    ApiResponse(status.Value(), None, Some(NewErrorDetails(message, exception.message, exception.simpleName, now)))
  }

  /** An HTTP response: its status line and its body. */
  datatype ResponseEntity<T> = ResponseEntity(status: HttpStatus, body: ApiResponse<T>) {

    /** The status inside the envelope is the HTTP status of the response,
        and the envelope does not carry both data and error. */
    predicate Consistent() {
      body.statusCode == status.Value() && body.Exclusive()
    }
  }

  /** `ResponseEntity.status(status).body(createSuccessResponse(status, data))`,
      the shape every controller handler returns on success. */
  function SuccessEntity<T>(status: HttpStatus, data: Option<T>): (r: ResponseEntity<T>)
    ensures r.Consistent() && r.status == status
    ensures r.body.data == data && r.body.error.None?
  {
    ResponseEntity(status, CreateSuccessResponse(status, data))
  }
}
