/** `ApiExceptionHandler`: the single place that turns a not-found outcome
    into a 404 error envelope. */
module ExceptionHandler {
  import opened Wrappers
  import opened Uuids
  import opened Http
  import opened Responses
  import opened ResourceNotFound

  const NotFoundSummary: string := "Resource not found"

  function AsThrowable(e: ResourceNotFoundException): (t: Throwable)
    ensures t.message == e.Message() && t.simpleName == SimpleName
  {
    Throwable(e.Message(), SimpleName)
  }

  /** `handleNotFoundException`: HTTP 404 with a failure envelope whose
      error says "Resource not found", details the exception's message and
      names the exception's type. */
  function HandleNotFoundException<T>(e: ResourceNotFoundException, now: Timestamp): (r: ResponseEntity<T>)
    ensures r.Consistent()
    ensures r.status == HttpStatus.NotFound && r.body.statusCode == 404
    ensures r.body.data.None? && r.body.error.Some?
    ensures r.body.error.value.message == NotFoundSummary
    ensures r.body.error.value.details == e.Message()
    ensures r.body.error.value.exceptionType == "ResourceNotFoundException"
    ensures r.body.error.value.timestamp == now
  {
    ResponseEntity(HttpStatus.NotFound, CreateFailureResponse(HttpStatus.NotFound, NotFoundSummary, AsThrowable(e), now))
  }

  /** The 404 envelope names the missing id: its details read back to it. */
  lemma NotFoundDetailsNameId<T>(e: ResourceNotFoundException, now: Timestamp)
    ensures ParseMessage(HandleNotFoundException<T>(e, now).body.error.value.details) == Some(e.id)
  {
    ParseMessageOfMessage(e);
  }
}
