/**
 * The authentication filter. With authentication enabled and a protected route it extracts
 * the bearer token, has the identity service validate it, and either stores the operator id
 * for the filters after it or answers 401 with a JSON error envelope.
 */
module AuthFilter {
  import opened JavaLang
  import opened Strings
  import opened Http
  import opened Exceptions
  import opened ErrorCodes
  import opened ErrorResponses
  import opened Jackson
  import opened Tokens
  import opened AuthResults
  import opened AuthClient
  import AccessLog
  import AuthValidate

  /** Runs right after the access-log filter. */
  const ORDER: int := AccessLog.ORDER + 100

  /** The attribute the operator id is stored under. */
  const OPERATOR_ID_ATTR: string := "operatorId"

  const MISSING_HEADER_MESSAGE: string := "Missing or invalid Authorization header"

  /** What the filter does with the exchange. */
  datatype Verdict =
    | Forward(attributes: Attributes)  // the chain runs with these attributes
    | Deny(message: Option<string>)    // a 401 envelope with this message is written
    | Fail(error: Throwable)           // the filter throws

  /** The verdict, with the authentication call it made, if any. */
  datatype Decision = Decision(authentication: Option<Authentication>, verdict: Verdict)

  /**
   * `handleAuthenticationResult`, as a value: an authenticated result stores its operator id
   * and forwards; any other is denied with its error message. Storing a missing id throws,
   * as `ConcurrentHashMap.put` does with `null`.
   */
  function ResultVerdict(attributes: Attributes, result: AuthenticationResult): (v: Verdict)
    ensures result.authenticated && result.operatorId.Some? ==>
      v == Forward(attributes[OPERATOR_ID_ATTR := AttrLong(result.operatorId.value)])
    ensures !result.authenticated ==> v == Deny(result.errorMessage)
    ensures v.Fail? <==> result.authenticated && result.operatorId.None?
  {
    if result.authenticated then
      match result.operatorId
      case Some(id) => Forward(attributes[OPERATOR_ID_ATTR := AttrLong(id)])
      case None => Fail(Unclassified("java.lang.NullPointerException", None))
    else Deny(result.errorMessage)
  }

  /**
   * `filter`, as a value: disabled or public leads straight to the chain; a first
   * `Authorization` value that does not parse is denied; otherwise the client's result decides.
   * `outcome` is how the call to the identity service ended, should it be made.
   */
  function Decide(enabled: bool, attributes: Attributes, headers: Headers,
                  client: AuthServiceClient, outcome: RpcOutcome): (d: Decision)
    ensures !enabled || IsPublicRoute(attributes) ==> d == Decision(None, Forward(attributes))
    ensures enabled && !IsPublicRoute(attributes) && FromBearerToken(GetFirst(headers, HEADER_AUTHORIZATION)).None? ==>
      d == Decision(None, Deny(Some("Missing or invalid Authorization header")))
    ensures d.authentication.Some? <==>
      enabled && !IsPublicRoute(attributes) && FromBearerToken(GetFirst(headers, HEADER_AUTHORIZATION)).Some?
    ensures d.authentication.Some? ==>
      && d.authentication.value == Authenticate(client, FromBearerToken(GetFirst(headers, HEADER_AUTHORIZATION)), outcome)
      && d.authentication.value.request.Some?
      && d.verdict == ResultVerdict(attributes, d.authentication.value.result)
    ensures !d.verdict.Fail?
  {
    if !enabled then Decision(None, Forward(attributes))
    else if IsPublicRoute(attributes) then Decision(None, Forward(attributes))
    else
      var tokenInfo := FromBearerToken(GetFirst(headers, HEADER_AUTHORIZATION));
      if tokenInfo.None? then Decision(None, Deny(Some(MISSING_HEADER_MESSAGE)))
      else
        var authentication := Authenticate(client, tokenInfo, outcome);
        AuthenticateTotal(client, tokenInfo, outcome);
        Decision(Some(authentication), ResultVerdict(attributes, authentication.result))
  }

  /** The envelope of a 401: code "UNAUTHORIZED", the given message, no path. */
  function UnauthorizedEnvelope(message: Option<string>, now: LocalDateTime): (e: ErrorResponse)
    ensures e.code == Some(UNAUTHORIZED.Code()) && e.code == Some("UNAUTHORIZED")
    ensures e.message == message && e.path.None? && e.timestamp == now
  {
    Builder(now).(code := Some(UNAUTHORIZED.Code()), message := message)
  }

  /**
   * `writeUnauthorizedResponse`: status 401 and `application/json` are set, then the envelope
   * is written; when it cannot be serialised the response completes with no body.
   */
  method WriteUnauthorizedResponse(ex: Exchange, message: Option<string>, mapper: ObjectMapper, now: LocalDateTime)
    returns (step: Step)
    modifies ex
    ensures step == Complete
    ensures ex.statusCode == Some(401) && ex.statusCode == Some(UNAUTHORIZED.HttpStatus())
    ensures ex.responseHeaders == old(ex.responseHeaders)[HEADER_CONTENT_TYPE := [APPLICATION_JSON]]
    ensures ex.responseBody == mapper.writeEnvelope(UnauthorizedEnvelope(message, now))
    ensures ex.request == old(ex.request) && ex.attributes == old(ex.attributes)
    ensures ex.serversRewrite == old(ex.serversRewrite)
  {
    ex.statusCode := Some(401);
    ex.responseHeaders := ex.responseHeaders[HEADER_CONTENT_TYPE := [APPLICATION_JSON]];
    var envelope := Builder(now).(code := Some(UNAUTHORIZED.Code()), message := message);
    ex.responseBody := mapper.writeEnvelope(envelope);
    step := Complete;
  }

  /** `handleAuthenticationResult`: carries out `ResultVerdict` on the exchange. */
  method HandleAuthenticationResult(ex: Exchange, result: AuthenticationResult, mapper: ObjectMapper, now: LocalDateTime)
    returns (step: Step)
    modifies ex
    ensures var v := ResultVerdict(old(ex.attributes), result);
      && (v.Forward? ==> step == Continue && ex.attributes == v.attributes
                         && ex.statusCode == old(ex.statusCode) && ex.responseBody == old(ex.responseBody)
                         && ex.responseHeaders == old(ex.responseHeaders))
      && (v.Deny? ==> step == Complete && ex.attributes == old(ex.attributes) && ex.statusCode == Some(401)
                      && ex.responseHeaders == old(ex.responseHeaders)[HEADER_CONTENT_TYPE := [APPLICATION_JSON]]
                      && ex.responseBody == mapper.writeEnvelope(UnauthorizedEnvelope(v.message, now)))
      && (v.Fail? ==> step == Raise(v.error) && ex.attributes == old(ex.attributes)
                      && ex.statusCode == old(ex.statusCode) && ex.responseBody == old(ex.responseBody)
                      && ex.responseHeaders == old(ex.responseHeaders))
    ensures ex.request == old(ex.request) && ex.serversRewrite == old(ex.serversRewrite)
  {
    if result.authenticated {
      if result.operatorId.None? {
        step := Raise(Unclassified("java.lang.NullPointerException", None));
        return;
      }
      ex.attributes := ex.attributes[OPERATOR_ID_ATTR := AttrLong(result.operatorId.value)];
      step := Continue;
    } else {
      step := WriteUnauthorizedResponse(ex, result.errorMessage, mapper, now);
    }
  }

  /**
   * `filter`: carries out `Decide` on the exchange and reports the call it made to the
   * identity service. A forwarded exchange keeps its request and response; a denied one gets
   * the 401 envelope and its attributes are left alone.
   */
  method Filter(ex: Exchange, enabled: bool, client: AuthServiceClient, outcome: RpcOutcome,
                mapper: ObjectMapper, now: LocalDateTime)
    returns (step: Step, authentication: Option<Authentication>)
    modifies ex
    ensures var d := Decide(enabled, old(ex.attributes), old(ex.request.headers), client, outcome);
      && authentication == d.authentication
      && (d.verdict.Forward? ==> step == Continue && ex.attributes == d.verdict.attributes
                                 && ex.statusCode == old(ex.statusCode) && ex.responseBody == old(ex.responseBody)
                                 && ex.responseHeaders == old(ex.responseHeaders))
      && (d.verdict.Deny? ==> step == Complete && ex.attributes == old(ex.attributes) && ex.statusCode == Some(401)
                              && ex.responseHeaders == old(ex.responseHeaders)[HEADER_CONTENT_TYPE := [APPLICATION_JSON]]
                              && ex.responseBody == mapper.writeEnvelope(UnauthorizedEnvelope(d.verdict.message, now)))
    ensures ex.request == old(ex.request) && ex.serversRewrite == old(ex.serversRewrite)
  {
    if !enabled || IsPublicRoute(ex.attributes) {
      step, authentication := Continue, None;
      return;
    }
    var tokenInfo := FromBearerToken(GetFirst(ex.request.headers, HEADER_AUTHORIZATION));
    if tokenInfo.None? {
      step := WriteUnauthorizedResponse(ex, Some(MISSING_HEADER_MESSAGE), mapper, now);
      authentication := None;
      return;
    }
    var a := Authenticate(client, tokenInfo, outcome);
    AuthenticateTotal(client, tokenInfo, outcome);
    authentication := Some(a);
    step := HandleAuthenticationResult(ex, a.result, mapper, now);
  }

  /** When the identity service is not consulted, how a call would have ended is irrelevant. */
  lemma UnconsultedIgnoresOutcome(enabled: bool, attributes: Attributes, headers: Headers,
                                  client: AuthServiceClient, o1: RpcOutcome, o2: RpcOutcome)
    requires Decide(enabled, attributes, headers, client, o1).authentication.None?
    ensures Decide(enabled, attributes, headers, client, o1) == Decide(enabled, attributes, headers, client, o2)
  {
  }

  /**
   * On a protected route with authentication on, the request goes on exactly when the header
   * parses and the service grants an operator id, and then that id is what is stored.
   */
  lemma ForwardIff(attributes: Attributes, headers: Headers, client: AuthServiceClient, outcome: RpcOutcome)
    requires !IsPublicRoute(attributes)
    ensures var d := Decide(true, attributes, headers, client, outcome);
      d.verdict.Forward? <==>
        && FromBearerToken(GetFirst(headers, HEADER_AUTHORIZATION)).Some?
        && outcome.Ok? && outcome.response.success == Some(true) && outcome.response.operatorId.Some?
    ensures var d := Decide(true, attributes, headers, client, outcome);
      d.verdict.Forward? ==>
        d.verdict.attributes == attributes[OPERATOR_ID_ATTR := AttrLong(outcome.response.operatorId.value)]
  {
    var tokenInfo := FromBearerToken(GetFirst(headers, HEADER_AUTHORIZATION));
    if tokenInfo.Some? {
      AuthenticateTotal(client, tokenInfo, outcome);
      ParsedTokenIsSent(client, GetFirst(headers, HEADER_AUTHORIZATION), outcome);
    }
  }

  /** The message of each denial on a protected route with a parsable header. */
  lemma DenyMessages(attributes: Attributes, headers: Headers, client: AuthServiceClient, outcome: RpcOutcome)
    requires !IsPublicRoute(attributes)
    requires FromBearerToken(GetFirst(headers, HEADER_AUTHORIZATION)).Some?
    ensures var v := Decide(true, attributes, headers, client, outcome).verdict;
      && (outcome.HttpStatusError? && 400 <= outcome.statusCode <= 499 ==> v == Deny(Some("Invalid token")))
      && (outcome.HttpStatusError? && !(400 <= outcome.statusCode <= 499) ==> v == Deny(Some("Auth service unavailable")))
      && (outcome.OtherError? ==> v == Deny(Some("Authentication service error")))
      && (outcome.Ok? && !(outcome.response.success == Some(true) && outcome.response.operatorId.Some?) ==>
            v == Deny(Some(if outcome.response.message.Some? then outcome.response.message.value else "Token validation failed")))
  {
    ParsedTokenIsSent(client, GetFirst(headers, HEADER_AUTHORIZATION), outcome);
  }

  /** End to end: `Bearer <token>` on a protected route, granted by the service, stores the granted id. */
  lemma BearerGranted(attributes: Attributes, headers: Headers, token: string, client: AuthServiceClient,
                      id: Long, message: Option<string>)
    requires !IsPublicRoute(attributes)
    requires token != [] && IsTrimmed(token)
    requires HEADER_AUTHORIZATION in headers && |headers[HEADER_AUTHORIZATION]| > 0
    requires headers[HEADER_AUTHORIZATION][0] == BEARER_PREFIX + token
    ensures var outcome := Ok(AuthValidate.AuthValidateResponse(Some(true), Some(id), message));
      var d := Decide(true, attributes, headers, client, outcome);
      && d.authentication.Some?
      && d.authentication.value.request.value.body == AuthValidate.AuthValidateRequest(Some(token))
      && d.verdict == Forward(attributes[OPERATOR_ID_ATTR := AttrLong(id)])
  {
    BearerRoundTrip([], token, []);
    assert BEARER_PREFIX + [] + token + [] == BEARER_PREFIX + token;
  }
}
