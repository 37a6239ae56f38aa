/**
 * The central exception handler: every error that escapes the filter chain becomes a JSON
 * error envelope with a status chosen by the kind of error.
 */
module ExceptionHandler {
  import opened JavaLang
  import opened ErrorCodes
  import opened Exceptions
  import opened ErrorResponses
  import opened Http
  import opened Jackson

  const UNEXPECTED_MESSAGE: string := "An unexpected error occurred"

  /** The body written when the envelope cannot be serialised. */
  const FALLBACK_BODY: string := "{\"code\":\"INTERNAL_ERROR\",\"message\":\"Error processing response\"}"

  /** The status and the envelope chosen for an error. */
  datatype Classification = Classification(status: int, envelope: ErrorResponse)

  /**
   * The classification chain of `handle`, first match wins: authentication errors 401, service
   * unavailability 503, other gateway errors their own status, response-status errors their
   * status with its name and the reason (or the standard reason phrase), anything else 500
   * with a fixed message. Every envelope carries the request path.
   */
  function Classify(error: Throwable, path: string, now: LocalDateTime): (c: Classification)
    ensures c.envelope.path == Some(path) && c.envelope.timestamp == now
    ensures error.Gateway? && error.ex.cls.AuthenticationExceptionClass? ==>
      c == Classification(401, Of(error.ex.GetCode(), error.ex.message, path, now))
    ensures error.Gateway? && error.ex.cls.ServiceUnavailableExceptionClass? ==>
      c == Classification(503, Of(error.ex.GetCode(), error.ex.message, path, now))
    ensures error.Gateway? ==>
      c.envelope.code == Some(error.ex.GetCode()) && c.envelope.message == Some(error.ex.message)
    ensures error.ResponseStatus? ==>
      && c.status == error.status.value
      && c.envelope.code == Some(error.status.name)
      && c.envelope.message == Some(if error.reason.Some? then error.reason.value else error.status.reasonPhrase)
    ensures error.Unclassified? ==>
      c == Classification(500, Of("INTERNAL_ERROR", "An unexpected error occurred", path, now))
  {
    match error
    case Gateway(ex) =>
      if ex.cls.AuthenticationExceptionClass? then
        Classification(401, Of(ex.GetCode(), ex.message, path, now))
      else if ex.cls.ServiceUnavailableExceptionClass? then
        Classification(503, Of(ex.GetCode(), ex.message, path, now))
      else
        Classification(ex.GetHttpStatus(), Of(ex.GetCode(), ex.message, path, now))
    case ResponseStatus(status, reason) =>
      var message := if reason.Some? then reason.value else status.reasonPhrase;
      Classification(status.value, Of(status.name, message, path, now))
    case Unclassified(_, _) =>
      Classification(INTERNAL_ERROR.HttpStatus(), Of(INTERNAL_ERROR.Code(), UNEXPECTED_MESSAGE, path, now))
  }

  /**
   * For every gateway exception the constructors can build, the status chosen is the
   * exception's own `getHttpStatus()`, an error status from the code table.
   */
  lemma GatewayStatusIsOwnStatus(ex: GatewayException, path: string, now: LocalDateTime)
    requires ex.Valid()
    ensures Classify(Gateway(ex), path, now).status == ex.GetHttpStatus()
    ensures 400 <= Classify(Gateway(ex), path, now).status <= 599
    ensures FromStatus(Classify(Gateway(ex), path, now).status) == Some(ex.errorCode)
  {
    ValidStatusAndCode(ex);
  }

  /** The exceptions the gateway itself raises map to 401 and 503 with their own code. */
  lemma FixedExceptionStatuses(message: string, path: string, now: LocalDateTime)
    ensures Classify(Gateway(NewAuthenticationExceptionWithMessage(message)), path, now)
      == Classification(401, Of("UNAUTHORIZED", message, path, now))
    ensures Classify(Gateway(NewServiceUnavailableExceptionWithMessage(message)), path, now)
      == Classification(503, Of("SERVICE_UNAVAILABLE", message, path, now))
  {
  }

  /** An unclassified error's own class and text never reach the envelope. */
  lemma UnclassifiedTextNotCopied(c1: string, m1: Option<string>, c2: string, m2: Option<string>,
                                  path: string, now: LocalDateTime)
    ensures Classify(Unclassified(c1, m1), path, now) == Classify(Unclassified(c2, m2), path, now)
  {
  }

  /**
   * `handle`: sets the classified status and `application/json`, then writes the serialised
   * envelope, or the fixed fallback body when serialisation fails.
   */
  method Handle(ex: Exchange, error: Throwable, mapper: ObjectMapper, now: LocalDateTime) returns (step: Step)
    modifies ex
    ensures step == Complete
    ensures var c := Classify(error, old(ex.request.path), now);
      && ex.statusCode == Some(c.status)
      && ex.responseHeaders == old(ex.responseHeaders)[HEADER_CONTENT_TYPE := [APPLICATION_JSON]]
      && (mapper.writeEnvelope(c.envelope).Some? ==> ex.responseBody == mapper.writeEnvelope(c.envelope))
      && (mapper.writeEnvelope(c.envelope).None? ==> ex.responseBody == Some(FALLBACK_BODY))
    ensures ex.request == old(ex.request) && ex.attributes == old(ex.attributes)
    ensures ex.serversRewrite == old(ex.serversRewrite)
  {
    var path := ex.request.path;
    var c := Classify(error, path, now);
    ex.statusCode := Some(c.status);
    ex.responseHeaders := ex.responseHeaders[HEADER_CONTENT_TYPE := [APPLICATION_JSON]];
    var bytes := mapper.writeEnvelope(c.envelope);
    if bytes.Some? {
      ex.responseBody := bytes;
    } else {
      ex.responseBody := Some(FALLBACK_BODY);
    }
    step := Complete;
  }
}
