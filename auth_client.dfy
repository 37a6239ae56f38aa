/**
 * The client of the identity service: it sends the token to the validation endpoint and turns
 * the reply, or the failure of the call, into an `AuthenticationResult`. It never signals an
 * error. The outcome of the HTTP call is an input of the model.
 */
module AuthClient {
  import opened JavaLang
  import opened Tokens
  import opened AuthResults
  import opened AuthValidate

  /** Default of the `gateway.auth.validate-endpoint` property. */
  const DEFAULT_VALIDATE_ENDPOINT: string := "/auth/validate"

  datatype AuthServiceClient = AuthServiceClient(authServiceUrl: string, validateEndpoint: string)

  /** The constructor: the endpoint falls back to its default when the property is not set. */
  function NewAuthServiceClient(authServiceUrl: string, validateEndpoint: Option<string>): (c: AuthServiceClient)
    ensures c.authServiceUrl == authServiceUrl
    ensures validateEndpoint.Some? ==> c.validateEndpoint == validateEndpoint.value
    ensures validateEndpoint.None? ==> c.validateEndpoint == "/auth/validate"
  {
    AuthServiceClient(authServiceUrl, if validateEndpoint.Some? then validateEndpoint.value else DEFAULT_VALIDATE_ENDPOINT)
  }

  /** The HTTP request the client issues. */
  datatype ValidateCall = ValidateCall(
    httpMethod: string,
    baseUrl: string,
    uri: string,
    contentType: string,
    body: AuthValidateRequest)

  /** How the call ended: a decoded reply, an error status, or any other failure. */
  datatype RpcOutcome =
    | Ok(response: AuthValidateResponse)
    | HttpStatusError(statusCode: int)   // WebClientResponseException
    | OtherError                         // any other exception

  /** What `authenticate` did: the request it sent, if any, and the result it produced. */
  datatype Authentication = Authentication(request: Option<ValidateCall>, result: AuthenticationResult)

  /**
   * `toAuthenticationResult`: success exactly when the reply says `success: true` and carries
   * an operator id; otherwise a failure with the reply's message or a fixed one.
   */
  function ToAuthenticationResult(response: AuthValidateResponse): (r: AuthenticationResult)
    ensures WellFormed(r)
    ensures r.authenticated <==> response.success == Some(true) && response.operatorId.Some?
    ensures r.authenticated ==> r.operatorId == response.operatorId
    ensures !r.authenticated && response.message.Some? ==> r.errorMessage == response.message
    ensures !r.authenticated && response.message.None? ==> r.errorMessage == Some("Token validation failed")
  {
    IsSuccessCases(response, response.operatorId, response.message);
    if response.IsSuccess() && response.operatorId.Some? then
      Success(response.operatorId.value)
    else
      Failure(if response.message.Some? then response.message.value else "Token validation failed")
  }

  /** `is4xxClientError()`. */
  predicate Is4xxClientError(statusCode: int)
  {
    400 <= statusCode < 500
  }

  /** `handleWebClientError`: a 4xx status means a bad token, any other the service is down. */
  function HandleWebClientError(statusCode: int): (r: AuthenticationResult)
    ensures WellFormed(r) && !r.authenticated
    ensures 400 <= statusCode <= 499 ==> r.errorMessage == Some("Invalid token")
    ensures !(400 <= statusCode <= 499) ==> r.errorMessage == Some("Auth service unavailable")
  {
    if Is4xxClientError(statusCode) then Failure("Invalid token") else Failure("Auth service unavailable")
  }

  /** `handleGenericError`: any other failure of the call. */
  function HandleGenericError(): (r: AuthenticationResult)
    ensures WellFormed(r) && !r.authenticated
    ensures r.errorMessage == Some("Authentication service error")
  {
    Failure("Authentication service error")
  }

  /**
   * `authenticate(tokenInfo)`: a missing or invalid token fails without any request; otherwise
   * a POST of `{token}` as JSON to the validation endpoint under the configured base URL, whose
   * outcome is mapped to a result.
   */
  function Authenticate(client: AuthServiceClient, tokenInfo: Option<TokenInfo>, outcome: RpcOutcome): (a: Authentication)
    ensures a.request.None? <==> tokenInfo.None? || !tokenInfo.value.IsValid()
    ensures a.request.None? ==> a.result == Failure("Invalid or missing token")
    ensures a.request.Some? ==>
      a.request.value == ValidateCall("POST", client.authServiceUrl, client.validateEndpoint,
                                      "application/json", AuthValidateRequest(tokenInfo.value.token))
    ensures a.request.Some? ==> a.result == match outcome
      case Ok(response) => ToAuthenticationResult(response)
      case HttpStatusError(code) => HandleWebClientError(code)
      case OtherError => HandleGenericError()
  {
    if tokenInfo.None? || !tokenInfo.value.IsValid() then
      Authentication(None, Failure("Invalid or missing token"))
    else
      var request := AuthValidateRequest(tokenInfo.value.token);
      var call := ValidateCall("POST", client.authServiceUrl, client.validateEndpoint, "application/json", request);
      var result := match outcome
        case Ok(response) => ToAuthenticationResult(response)
        case HttpStatusError(code) => HandleWebClientError(code)
        case OtherError => HandleGenericError();
      Authentication(Some(call), result)
  }

  /**
   * Totality: whatever happens, `authenticate` yields a well-formed result, and it is a
   * success only when a request was sent and the reply granted an operator id.
   */
  lemma AuthenticateTotal(client: AuthServiceClient, tokenInfo: Option<TokenInfo>, outcome: RpcOutcome)
    ensures WellFormed(Authenticate(client, tokenInfo, outcome).result)
    ensures Authenticate(client, tokenInfo, outcome).result.authenticated <==>
      && Authenticate(client, tokenInfo, outcome).request.Some?
      && outcome.Ok? && outcome.response.success == Some(true) && outcome.response.operatorId.Some?
    ensures !outcome.Ok? ==> !Authenticate(client, tokenInfo, outcome).result.authenticated
  {
  }

  /** Without a valid token the outcome of a call is never consulted. */
  lemma InvalidTokenIgnoresOutcome(client: AuthServiceClient, tokenInfo: Option<TokenInfo>, o1: RpcOutcome, o2: RpcOutcome)
    requires tokenInfo.None? || !tokenInfo.value.IsValid()
    ensures Authenticate(client, tokenInfo, o1) == Authenticate(client, tokenInfo, o2)
  {
  }

  /** A token produced from a header is always sent: the guard never rejects a parsed token. */
  lemma ParsedTokenIsSent(client: AuthServiceClient, header: Option<string>, outcome: RpcOutcome)
    requires FromBearerToken(header).Some?
    ensures Authenticate(client, FromBearerToken(header), outcome).request.Some?
  {
  }
}
