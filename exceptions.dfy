/**
 * The gateway's exception hierarchy: `GatewayException` carries an `ErrorCode` from which its
 * status and code derive; `AuthenticationException` and `ServiceUnavailableException` fix that
 * code. `Throwable` is everything the central exception handler can be handed.
 */
module Exceptions {
  import opened JavaLang
  import opened ErrorCodes

  /** The runtime class of a gateway exception object. */
  datatype ExceptionClass =
    | GatewayExceptionClass
    | AuthenticationExceptionClass
    | ServiceUnavailableExceptionClass

  /** The `cause` handed to a constructor; the gateway stores it and never reads it. */
  datatype Cause = Cause(description: string)

  datatype GatewayException = GatewayException(
    cls: ExceptionClass,
    errorCode: ErrorCode,
    message: string,
    cause: Option<Cause>)
  {
    /** `getHttpStatus()`. */
    function GetHttpStatus(): int
    {
      errorCode.HttpStatus()
    }

    /** `getCode()`. */
    function GetCode(): string
    {
      errorCode.Code()
    }

    /** What every constructor establishes: the two subclasses carry their own fixed code. */
    predicate Valid()
    {
      && (cls.AuthenticationExceptionClass? ==> errorCode == UNAUTHORIZED)
      && (cls.ServiceUnavailableExceptionClass? ==> errorCode == SERVICE_UNAVAILABLE)
    }
  }

  /** `new GatewayException(errorCode)`: the message is the code's default message. */
  function NewGatewayException(errorCode: ErrorCode): (e: GatewayException)
    ensures e.Valid() && e.cls.GatewayExceptionClass?
    ensures e.errorCode == errorCode && e.message == errorCode.DefaultMessage() && e.cause.None?
    ensures e.GetHttpStatus() == errorCode.HttpStatus() && e.GetCode() == errorCode.Code()
  {
    GatewayException(GatewayExceptionClass, errorCode, errorCode.DefaultMessage(), None)
  }

  /** `new GatewayException(errorCode, message)`: the message is kept verbatim. */
  function NewGatewayExceptionWithMessage(errorCode: ErrorCode, message: string): (e: GatewayException)
    ensures e.Valid() && e.cls.GatewayExceptionClass?
    ensures e.errorCode == errorCode && e.message == message && e.cause.None?
    ensures e.GetHttpStatus() == errorCode.HttpStatus() && e.GetCode() == errorCode.Code()
  {
    GatewayException(GatewayExceptionClass, errorCode, message, None)
  }

  /** `new GatewayException(errorCode, message, cause)`. */
  function NewGatewayExceptionWithCause(errorCode: ErrorCode, message: string, cause: Cause): (e: GatewayException)
    ensures e.Valid() && e.cls.GatewayExceptionClass?
    ensures e.errorCode == errorCode && e.message == message && e.cause == Some(cause)
    ensures e.GetHttpStatus() == errorCode.HttpStatus() && e.GetCode() == errorCode.Code()
  {
    GatewayException(GatewayExceptionClass, errorCode, message, Some(cause))
  }

  /** `new AuthenticationException()`: status 401, code "UNAUTHORIZED", message "Authentication required". */
  function NewAuthenticationException(): (e: GatewayException)
    ensures e.Valid() && e.cls.AuthenticationExceptionClass?
    ensures e.GetHttpStatus() == 401 && e.GetCode() == "UNAUTHORIZED"
    ensures e.message == "Authentication required" && e.cause.None?
  {
    var base := NewGatewayException(UNAUTHORIZED);
    base.(cls := AuthenticationExceptionClass)
  }

  /** `new AuthenticationException(message)`. */
  function NewAuthenticationExceptionWithMessage(message: string): (e: GatewayException)
    ensures e.Valid() && e.cls.AuthenticationExceptionClass?
    ensures e.GetHttpStatus() == 401 && e.GetCode() == "UNAUTHORIZED"
    ensures e.message == message && e.cause.None?
  {
    NewGatewayExceptionWithMessage(UNAUTHORIZED, message).(cls := AuthenticationExceptionClass)
  }

  /** `new AuthenticationException(message, cause)`. */
  function NewAuthenticationExceptionWithCause(message: string, cause: Cause): (e: GatewayException)
    ensures e.Valid() && e.cls.AuthenticationExceptionClass?
    ensures e.GetHttpStatus() == 401 && e.GetCode() == "UNAUTHORIZED"
    ensures e.message == message && e.cause == Some(cause)
  {
    NewGatewayExceptionWithCause(UNAUTHORIZED, message, cause).(cls := AuthenticationExceptionClass)
  }

  /** `new ServiceUnavailableException()`: status 503, code "SERVICE_UNAVAILABLE", message "Service temporarily unavailable". */
  function NewServiceUnavailableException(): (e: GatewayException)
    ensures e.Valid() && e.cls.ServiceUnavailableExceptionClass?
    ensures e.GetHttpStatus() == 503 && e.GetCode() == "SERVICE_UNAVAILABLE"
    ensures e.message == "Service temporarily unavailable" && e.cause.None?
  {
    NewGatewayException(SERVICE_UNAVAILABLE).(cls := ServiceUnavailableExceptionClass)
  }

  /** `new ServiceUnavailableException(message)`. */
  function NewServiceUnavailableExceptionWithMessage(message: string): (e: GatewayException)
    ensures e.Valid() && e.cls.ServiceUnavailableExceptionClass?
    ensures e.GetHttpStatus() == 503 && e.GetCode() == "SERVICE_UNAVAILABLE"
    ensures e.message == message && e.cause.None?
  {
    NewGatewayExceptionWithMessage(SERVICE_UNAVAILABLE, message).(cls := ServiceUnavailableExceptionClass)
  }

  /** `new ServiceUnavailableException(message, cause)`. */
  function NewServiceUnavailableExceptionWithCause(message: string, cause: Cause): (e: GatewayException)
    ensures e.Valid() && e.cls.ServiceUnavailableExceptionClass?
    ensures e.GetHttpStatus() == 503 && e.GetCode() == "SERVICE_UNAVAILABLE"
    ensures e.message == message && e.cause == Some(cause)
  {
    NewGatewayExceptionWithCause(SERVICE_UNAVAILABLE, message, cause).(cls := ServiceUnavailableExceptionClass)
  }

  /** Every well-formed exception's status and code come from the error-code table. */
  lemma ValidStatusAndCode(e: GatewayException)
    requires e.Valid()
    ensures e.cls.AuthenticationExceptionClass? ==> e.GetHttpStatus() == 401 && e.GetCode() == "UNAUTHORIZED"
    ensures e.cls.ServiceUnavailableExceptionClass? ==> e.GetHttpStatus() == 503 && e.GetCode() == "SERVICE_UNAVAILABLE"
    ensures FromStatus(e.GetHttpStatus()) == Some(e.errorCode)
  {
    StatusDeterminesCode(e.errorCode);
  }

  /** `org.springframework.http.HttpStatus` as the handler uses it: value, `name()`, `getReasonPhrase()`. */
  datatype HttpStatusInfo = HttpStatusInfo(value: int, name: string, reasonPhrase: string)

  /** What the central exception handler can be handed. */
  datatype Throwable =
    | Gateway(ex: GatewayException)
    | ResponseStatus(status: HttpStatusInfo, reason: Option<string>)  // ResponseStatusException
    | Unclassified(className: string, message: Option<string>)        // any other throwable
}
