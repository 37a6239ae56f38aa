# op-stack-gateway request pipeline, modelled in Dafny

This project models the decision logic of the op-stack API gateway, a Spring Cloud Gateway
service. Every request goes through three global filters in a fixed order:

1. **Access log** (`AccessLog`). It picks or generates the request id and forwards it as the
   `X-Request-ID` header. It works out the client address from `X-Forwarded-For`, `X-Real-IP`
   or the peer, and picks the level of the exit log line.
2. **Authentication** (`AuthFilter`). It skips when authentication is disabled or the route is
   public. Otherwise it reads the `Bearer` token and has the identity service validate it
   (`Tokens`, `AuthClient`, `AuthValidate`, `AuthResults`). Then it either stores the operator
   id in the exchange attributes or answers 401 with a JSON error envelope.
3. **Operator-id injection** (`InjectionFilter`). On a protected JSON POST it sets `operatorId`
   on the top-level object of the body. It then recomputes `Content-Length`.

Two more parts are modelled:

- The OpenAPI servers rewrite (`SwaggerRewrite`). On `/v3/api-docs` responses it replaces
  `servers` with the gateway's own base URL.
- The central exception handler (`ExceptionHandler`).

Both rest on the error taxonomy: the `ErrorCode` table (`ErrorCodes`), the
`GatewayException` hierarchy (`Exceptions`) and the two envelopes (`ErrorResponses`,
`ApiResponses`). `Routes` holds the prefix predicates for backend services and public paths.
`Pipeline` relates the filters to each other.

How the model is built:

- JSON documents are a datatype (`Json`). Jackson's `ObjectNode` and `ArrayNode` are classes
  whose `put`/`set`/`add` change them in place.
- Jackson's `ObjectMapper` is a value holding the parse and serialise functions (`Jackson`).
  A failed parse or write is `None`.
- `ServerWebExchange` is the class `Http.Exchange`. Each filter is a method that changes the
  exchange. Its postcondition ties the new state to a pure decision function, and the
  properties are proved about those functions.
- The Java `String` operations the code relies on are written out in `Strings`: `startsWith`,
  `contains`, `trim`, `split(",")`, decimal text and UTF-8 byte length.
- Java `null` is `Option.None`. `Long` is an `int` subtype with the 64-bit range.

Three behaviours of the code worth knowing:

- A present but empty `X-Request-ID` is kept as the request id; no fresh id is generated.
- A connection failure or timeout of the identity service reaches the generic error handler.
  It gives "Authentication service error", not "Auth service unavailable".
- Every rejection by the authentication filter is a 401. The filter never answers 503, even
  when the identity service is down.

## Model

| member | source | states |
|---|---|---|
| ErrorCodes.ErrorCode.HttpStatus | common/src/main/java/com/catface996/gateway/common/enums/ErrorCode.java:17-44 | every constant's status is a client or server error status (400..599) |
| ErrorCodes.Values | common/src/main/java/com/catface996/gateway/common/enums/ErrorCode.java:17-42 | the enum has exactly six constants and lists every one of them |
| ErrorCodes.Table | common/src/main/java/com/catface996/gateway/common/enums/ErrorCode.java:17-42 | the statuses in declaration order are 401, 403, 404, 500, 502, 503, and each code equals its constant name |
| ErrorCodes.StatusDeterminesCode | common/src/main/java/com/catface996/gateway/common/enums/ErrorCode.java:17-42 | the statuses are pairwise distinct: looking a constant's status up in the table gives that constant back |
| ErrorCodes.FromStatusSound | common/src/main/java/com/catface996/gateway/common/enums/ErrorCode.java:17-42 | a status lookup succeeds exactly for the six table statuses, and then names a constant with that status |
| ErrorCodes.CodeIsName | common/src/main/java/com/catface996/gateway/common/enums/ErrorCode.java:17-45 | `valueOf(code)` gives the constant back, because the code is the constant's name |
| ErrorCodes.DefaultMessages | common/src/main/java/com/catface996/gateway/common/enums/ErrorCode.java:17-42 | the six default messages, e.g. UNAUTHORIZED has "Authentication required" |
| Exceptions.NewGatewayException | common/src/main/java/com/catface996/gateway/common/exception/GatewayException.java:14-17 | the code-only constructor keeps the code, uses its default message, and derives status and code from it |
| Exceptions.NewGatewayExceptionWithMessage | common/src/main/java/com/catface996/gateway/common/exception/GatewayException.java:19-22 | the message is stored verbatim and the code is kept |
| Exceptions.NewGatewayExceptionWithCause | common/src/main/java/com/catface996/gateway/common/exception/GatewayException.java:24-27 | message and cause are stored and the code is kept |
| Exceptions.ValidStatusAndCode | common/src/main/java/com/catface996/gateway/common/exception/GatewayException.java:29-35 | `getHttpStatus`/`getCode` come from the error code; an authentication exception is 401/"UNAUTHORIZED" and a service-unavailable one 503/"SERVICE_UNAVAILABLE" |
| Exceptions.NewAuthenticationException | common/src/main/java/com/catface996/gateway/common/exception/AuthenticationException.java:11-13 | status 401, code "UNAUTHORIZED", message "Authentication required" |
| Exceptions.NewAuthenticationExceptionWithMessage | common/src/main/java/com/catface996/gateway/common/exception/AuthenticationException.java:15-17 | code fixed to UNAUTHORIZED (401), the message kept verbatim |
| Exceptions.NewAuthenticationExceptionWithCause | common/src/main/java/com/catface996/gateway/common/exception/AuthenticationException.java:19-21 | code fixed to UNAUTHORIZED, message and cause kept |
| Exceptions.NewServiceUnavailableException | common/src/main/java/com/catface996/gateway/common/exception/ServiceUnavailableException.java:11-13 | status 503, code "SERVICE_UNAVAILABLE", message "Service temporarily unavailable" |
| Exceptions.NewServiceUnavailableExceptionWithMessage | common/src/main/java/com/catface996/gateway/common/exception/ServiceUnavailableException.java:15-17 | code fixed to SERVICE_UNAVAILABLE (503), the message kept verbatim |
| Exceptions.NewServiceUnavailableExceptionWithCause | common/src/main/java/com/catface996/gateway/common/exception/ServiceUnavailableException.java:19-21 | code fixed to SERVICE_UNAVAILABLE, message and cause kept |
| ErrorResponses.Builder | common/src/main/java/com/catface996/gateway/common/dto/ErrorResponse.java:23-40 | an envelope built with nothing set has no code, message or path, and the current time |
| ErrorResponses.Of | common/src/main/java/com/catface996/gateway/common/dto/ErrorResponse.java:45-52 | `of` copies code, message and path unchanged and stamps the current time |
| ErrorResponses.OfInjective | common/src/main/java/com/catface996/gateway/common/dto/ErrorResponse.java:45-52 | `of` loses nothing: equal envelopes come from equal arguments |
| ApiResponses.Success | common/src/main/java/com/catface996/gateway/common/dto/ApiResponse.java:52-60 | success true, code "SUCCESS", message "Operation successful", the given data and time |
| ApiResponses.SuccessWithMessage | common/src/main/java/com/catface996/gateway/common/dto/ApiResponse.java:65-73 | like `success(data)` but with the supplied message |
| ApiResponses.Error | common/src/main/java/com/catface996/gateway/common/dto/ApiResponse.java:78-86 | success false, no data, the supplied code and message |
| ApiResponses.SuccessIsDefaultMessage | common/src/main/java/com/catface996/gateway/common/dto/ApiResponse.java:52-73 | `success(data)` equals `success(data, "Operation successful")` |
| ApiResponses.FlagSeparatesFactories | common/src/main/java/com/catface996/gateway/common/dto/ApiResponse.java:52-86 | an error response never equals a success response, whatever code it carries |
| Strings.Trim | domain/src/main/java/com/catface996/gateway/domain/auth/model/TokenInfo.java:32 | `trim()` leaves no character up to U+0020 at either end and never lengthens |
| Strings.TrimUnique | domain/src/main/java/com/catface996/gateway/domain/auth/model/TokenInfo.java:32 | trimming blanks around an already trimmed text gives exactly that text |
| Strings.TrimEmptyIff | domain/src/main/java/com/catface996/gateway/domain/auth/model/TokenInfo.java:32-35 | the trimmed text is empty exactly when the input is only blanks |
| Tokens.FromBearerToken | domain/src/main/java/com/catface996/gateway/domain/auth/model/TokenInfo.java:28-37 | no token for a missing header or one not starting with the exact "Bearer "; none when the rest is blank; otherwise a valid token that is the trimmed rest |
| Tokens.BearerRoundTrip | domain/src/main/java/com/catface996/gateway/domain/auth/model/TokenInfo.java:28-36 | "Bearer " followed by a trimmed non-empty token, padded with any blanks, gives that token back |
| Tokens.PrefixIsExact | domain/src/main/java/com/catface996/gateway/domain/auth/model/TokenInfo.java:29-35 | "bearer x", "BEARER x", "Bearer" and "Bearer\tx" give no token |
| Tokens.ValidityCases | domain/src/main/java/com/catface996/gateway/domain/auth/model/TokenInfo.java:44-46 | `isValid()` is false exactly for a missing or empty token |
| AuthResults.Success | domain/src/main/java/com/catface996/gateway/domain/auth/model/AuthenticationResult.java:38-43 | authenticated, with the id and no error message |
| AuthResults.Failure | domain/src/main/java/com/catface996/gateway/domain/auth/model/AuthenticationResult.java:51-56 | not authenticated, no id, with the message |
| AuthResults.FactoriesAreWellFormed | domain/src/main/java/com/catface996/gateway/domain/auth/model/AuthenticationResult.java:20-56 | the results with exactly one of id and message populated, as the flag says, are exactly those the two factories build |
| AuthResults.NeverBoth | domain/src/main/java/com/catface996/gateway/domain/auth/model/AuthenticationResult.java:38-56 | neither factory populates both the id and the message, and a success never equals a failure |
| AuthValidate.IsSuccessCases | application/src/main/java/com/catface996/gateway/application/auth/dto/AuthValidateResponse.java:20-39 | `isSuccess()` holds exactly for an explicit `true`; `null` and `false` give false; operatorId and message do not matter |
| AuthClient.NewAuthServiceClient | infrastructure/src/main/java/com/catface996/gateway/infrastructure/auth/client/AuthServiceClient.java:29-36 | keeps the base URL; the validate endpoint defaults to "/auth/validate" |
| AuthClient.ToAuthenticationResult | infrastructure/src/main/java/com/catface996/gateway/infrastructure/auth/client/AuthServiceClient.java:61-70 | success exactly when the reply says true and has an id (and then that id); otherwise a failure with the reply's message or "Token validation failed" |
| AuthClient.HandleWebClientError | infrastructure/src/main/java/com/catface996/gateway/infrastructure/auth/client/AuthServiceClient.java:72-78 | an error status is a failure: "Invalid token" for 4xx, "Auth service unavailable" for any other |
| AuthClient.HandleGenericError | infrastructure/src/main/java/com/catface996/gateway/infrastructure/auth/client/AuthServiceClient.java:80-83 | any other failure of the call is the failure "Authentication service error" |
| AuthClient.Authenticate | infrastructure/src/main/java/com/catface996/gateway/infrastructure/auth/client/AuthServiceClient.java:39-59 | no request and "Invalid or missing token" exactly for a missing or invalid token; otherwise one JSON POST of the token to the endpoint under the base URL, whose outcome is mapped as above |
| AuthClient.AuthenticateTotal | infrastructure/src/main/java/com/catface996/gateway/infrastructure/auth/client/AuthServiceClient.java:56-58 | every outcome yields a well-formed result, never an error; a success needs a sent request and a granting reply |
| AuthClient.InvalidTokenIgnoresOutcome | infrastructure/src/main/java/com/catface996/gateway/infrastructure/auth/client/AuthServiceClient.java:40-42 | without a valid token the result does not depend on the service at all |
| AuthClient.ParsedTokenIsSent | infrastructure/src/main/java/com/catface996/gateway/infrastructure/auth/client/AuthServiceClient.java:40-46 | a token parsed from a header always passes the guard and is sent |
| Http.PublicRouteCases | infrastructure/src/main/java/com/catface996/gateway/infrastructure/filter/AuthenticationGatewayFilter.java:94-102 | public only when a route is matched and its "public" metadata is the boolean true; no route, or the string "true", is protected |
| AccessLog.RequestId | infrastructure/src/main/java/com/catface996/gateway/infrastructure/filter/AccessLogFilter.java:49-50 | the first `X-Request-ID` value whenever there is one, even empty; otherwise the generated id |
| Strings.SplitFirst | infrastructure/src/main/java/com/catface996/gateway/infrastructure/filter/AccessLogFilter.java:103 | `split(",")[0]` throws exactly on a non-empty string of only commas, and otherwise is the text before the first comma |
| AccessLog.ClientIp | infrastructure/src/main/java/com/catface996/gateway/infrastructure/filter/AccessLogFilter.java:98-118 | throws exactly when a non-empty `X-Forwarded-For` is only commas; otherwise it takes that header's first entry, trimmed |
| AccessLog.ClientIpPrecedence | infrastructure/src/main/java/com/catface996/gateway/infrastructure/filter/AccessLogFilter.java:98-118 | first `X-Forwarded-For` entry, else a non-empty `X-Real-IP` verbatim, else the peer address, else "unknown" |
| AccessLog.ExitLevel | infrastructure/src/main/java/com/catface996/gateway/infrastructure/filter/AccessLogFilter.java:82-90 | error from 500, warn for 400..499, info below; a missing status counts as 0 |
| AccessLog.ExitLevelMonotone | infrastructure/src/main/java/com/catface996/gateway/infrastructure/filter/AccessLogFilter.java:82-90 | a higher status never logs at a lower level |
| AccessLog.RouteId | infrastructure/src/main/java/com/catface996/gateway/infrastructure/filter/AccessLogFilter.java:93-96 | the matched route's id, or "unknown" |
| AccessLog.Filter | infrastructure/src/main/java/com/catface996/gateway/infrastructure/filter/AccessLogFilter.java:44-72 | stores the id as an attribute; forwards the request with the id as sole `X-Request-ID`; if the client address throws, the request is unchanged and the error propagates |
| AccessLog.ForwardedRequestId | infrastructure/src/main/java/com/catface996/gateway/infrastructure/filter/AccessLogFilter.java:53-62 | the forwarded request carries the chosen id, and all its other headers are unchanged |
| AuthFilter.ResultVerdict | infrastructure/src/main/java/com/catface996/gateway/infrastructure/filter/AuthenticationGatewayFilter.java:104-115 | an authenticated result stores its id under "operatorId" and forwards; any other is denied with its message |
| AuthFilter.Decide | infrastructure/src/main/java/com/catface996/gateway/infrastructure/filter/AuthenticationGatewayFilter.java:67-92 | disabled or public: forward without consulting the service. Unparsable first Authorization value: deny with "Missing or invalid Authorization header", not consulted. Otherwise the client's result decides. Never throws |
| AuthFilter.UnauthorizedEnvelope | infrastructure/src/main/java/com/catface996/gateway/infrastructure/filter/AuthenticationGatewayFilter.java:122-125 | the 401 envelope has code "UNAUTHORIZED", the given message, and no path |
| AuthFilter.WriteUnauthorizedResponse | infrastructure/src/main/java/com/catface996/gateway/infrastructure/filter/AuthenticationGatewayFilter.java:117-135 | sets status 401 and `application/json`, then writes the serialised envelope; if serialising fails, completes with no body |
| AuthFilter.HandleAuthenticationResult | infrastructure/src/main/java/com/catface996/gateway/infrastructure/filter/AuthenticationGatewayFilter.java:104-115 | carries out the verdict on the exchange: the attribute and continue, or the 401 response |
| AuthFilter.Filter | infrastructure/src/main/java/com/catface996/gateway/infrastructure/filter/AuthenticationGatewayFilter.java:67-92 | carries out `Decide` on the exchange and reports the identity-service call it made |
| AuthFilter.UnconsultedIgnoresOutcome | infrastructure/src/main/java/com/catface996/gateway/infrastructure/filter/AuthenticationGatewayFilter.java:67-87 | when the service is not consulted, its answer cannot change the decision |
| AuthFilter.ForwardIff | infrastructure/src/main/java/com/catface996/gateway/infrastructure/filter/AuthenticationGatewayFilter.java:80-115 | on a protected route, forward exactly when the header parses and the service grants an id, and then that id is stored |
| AuthFilter.DenyMessages | infrastructure/src/main/java/com/catface996/gateway/infrastructure/filter/AuthenticationGatewayFilter.java:89-114 | the 401 message for each failing outcome of the service call |
| AuthFilter.BearerGranted | infrastructure/src/main/java/com/catface996/gateway/infrastructure/filter/AuthenticationGatewayFilter.java:80-110 | "Bearer <token>", granted by the service: the token is sent and the granted id is stored |
| Json.SetMemberPresent | infrastructure/src/main/java/com/catface996/gateway/infrastructure/filter/OperatorIdInjectionFilter.java:116 | `put` on a present name replaces its value in place |
| Json.SetMemberAbsent | infrastructure/src/main/java/com/catface996/gateway/infrastructure/filter/OperatorIdInjectionFilter.java:116 | `put` on an absent name appends it at the end |
| Json.SetMemberLookup | infrastructure/src/main/java/com/catface996/gateway/infrastructure/filter/OperatorIdInjectionFilter.java:116 | after `put`, the name reads the new value and other names are unaffected |
| Json.SetMemberKeepsOthers | infrastructure/src/main/java/com/catface996/gateway/infrastructure/filter/OperatorIdInjectionFilter.java:116 | `put` keeps all other members and their order |
| Json.SetMemberUnique | infrastructure/src/main/java/com/catface996/gateway/infrastructure/filter/OperatorIdInjectionFilter.java:116 | `put` keeps member names unique |
| Json.SetMemberOverwrite | infrastructure/src/main/java/com/catface996/gateway/infrastructure/filter/OperatorIdInjectionFilter.java:116 | two `put`s of one name equal one `put` of the second value |
| Json.ObjectNode.Put | infrastructure/src/main/java/com/catface996/gateway/infrastructure/filter/OperatorIdInjectionFilter.java:116 | the node's members become the insert-or-overwrite of the name |
| InjectionFilter.InjectionTarget | infrastructure/src/main/java/com/catface996/gateway/infrastructure/filter/OperatorIdInjectionFilter.java:58-80 | injects only on a protected route, for POST, with a present, non-empty and JSON-compatible first content type and a Long "operatorId" attribute; then that id |
| InjectionFilter.InjectOperatorId | infrastructure/src/main/java/com/catface996/gateway/infrastructure/filter/OperatorIdInjectionFilter.java:106-128 | the result is the serialised object with the id set, or the original body |
| InjectionFilter.EmptyBodyBecomesObject | infrastructure/src/main/java/com/catface996/gateway/infrastructure/filter/OperatorIdInjectionFilter.java:109-117 | an empty body becomes an object whose only member is operatorId |
| InjectionFilter.ObjectBodyGetsId | infrastructure/src/main/java/com/catface996/gateway/infrastructure/filter/OperatorIdInjectionFilter.java:112-119 | on an object the id is set: appended if absent, replaced in place if present; other members keep their value and order |
| InjectionFilter.NonObjectBodyUnchanged | infrastructure/src/main/java/com/catface996/gateway/infrastructure/filter/OperatorIdInjectionFilter.java:120-127 | a malformed or non-object body is forwarded as it was |
| InjectionFilter.InjectedBodyReadsBack | infrastructure/src/main/java/com/catface996/gateway/infrastructure/filter/OperatorIdInjectionFilter.java:112-119 | with a faithful mapper the forwarded body parses back to the edited object |
| InjectionFilter.ReinjectionOverwrites | infrastructure/src/main/java/com/catface996/gateway/infrastructure/filter/OperatorIdInjectionFilter.java:115-119 | injecting twice equals injecting the second id once: an existing operatorId is overwritten, not duplicated |
| InjectionFilter.ForwardedHeaders | infrastructure/src/main/java/com/catface996/gateway/infrastructure/filter/OperatorIdInjectionFilter.java:141-147 | all original headers are kept, and Content-Length reads back as the body's UTF-8 byte length |
| Strings.Utf8LengthBounds | infrastructure/src/main/java/com/catface996/gateway/infrastructure/filter/OperatorIdInjectionFilter.java:132 | the UTF-8 length of a text is between one and four bytes per character |
| InjectionFilter.ContinueWithModifiedBody | infrastructure/src/main/java/com/catface996/gateway/infrastructure/filter/OperatorIdInjectionFilter.java:130-155 | replaces the request with one carrying the new body and the recomputed headers |
| InjectionFilter.Filter | infrastructure/src/main/java/com/catface996/gateway/infrastructure/filter/OperatorIdInjectionFilter.java:58-95 | a request failing a guard goes on untouched; otherwise the injected body and its headers replace the request's |
| SwaggerRewrite.AppliesToInfix | infrastructure/src/main/java/com/catface996/gateway/infrastructure/filter/SwaggerServersRewriteGatewayFilterFactory.java:60-65 | any path containing "/v3/api-docs" is rewritten |
| SwaggerRewrite.GatewayBaseUrl | infrastructure/src/main/java/com/catface996/gateway/infrastructure/filter/SwaggerServersRewriteGatewayFilterFactory.java:105-114 | `scheme://host` exactly when the port is -1, 80 or 443, whatever the scheme; otherwise `:port` follows and reads back as the port |
| SwaggerRewrite.GatewayBaseUrlExamples | infrastructure/src/main/java/com/catface996/gateway/infrastructure/filter/SwaggerServersRewriteGatewayFilterFactory.java:110-113 | http on port 443 and https on port 80 both drop the port |
| SwaggerRewrite.RewriteServers | infrastructure/src/main/java/com/catface996/gateway/infrastructure/filter/SwaggerServersRewriteGatewayFilterFactory.java:116-141 | the result is the serialised document with `servers` replaced, or the original text |
| SwaggerRewrite.ObjectDocumentRewritten | infrastructure/src/main/java/com/catface996/gateway/infrastructure/filter/SwaggerServersRewriteGatewayFilterFactory.java:120-134 | `servers` becomes exactly [{url: base, description: "API Gateway"}]: replaced in place when present, appended when absent; other members keep their value and order |
| SwaggerRewrite.NonObjectDocumentUnchanged | infrastructure/src/main/java/com/catface996/gateway/infrastructure/filter/SwaggerServersRewriteGatewayFilterFactory.java:118-140 | a malformed or non-object document comes back unchanged |
| SwaggerRewrite.RewriteTreeIdempotent | infrastructure/src/main/java/com/catface996/gateway/infrastructure/filter/SwaggerServersRewriteGatewayFilterFactory.java:125-132 | rewriting a rewritten tree again with the same base URL changes nothing |
| SwaggerRewrite.RewriteBodyIdempotent | infrastructure/src/main/java/com/catface996/gateway/infrastructure/filter/SwaggerServersRewriteGatewayFilterFactory.java:116-141 | with a faithful mapper, rewriting the text twice equals rewriting it once |
| SwaggerRewrite.WriteWith | infrastructure/src/main/java/com/catface996/gateway/infrastructure/filter/SwaggerServersRewriteGatewayFilterFactory.java:75-99 | a Flux body is rewritten with the base URL the installed decorator carries and Content-Length set to its UTF-8 length; any other publisher is written unchanged |
| SwaggerRewrite.FilterThenWrite | infrastructure/src/main/java/com/catface996/gateway/infrastructure/filter/SwaggerServersRewriteGatewayFilterFactory.java:59-103 | a documentation response passed through `filter` and then written is the document rewritten with the base URL of the request itself |
| SwaggerRewrite.ContentLengthMatches | infrastructure/src/main/java/com/catface996/gateway/infrastructure/filter/SwaggerServersRewriteGatewayFilterFactory.java:89-92 | the Content-Length text reads back as the rewritten body's byte count |
| SwaggerRewrite.Filter | infrastructure/src/main/java/com/catface996/gateway/infrastructure/filter/SwaggerServersRewriteGatewayFilterFactory.java:59-103 | outside documentation paths nothing changes; on them the response gets the rewrite with this request's base URL |
| ExceptionHandler.Classify | infrastructure/src/main/java/com/catface996/gateway/infrastructure/config/GlobalExceptionHandler.java:38-89 | authentication → 401, service unavailable → 503, other gateway errors their own code and message; status errors use status, name and reason or reason phrase; anything else is 500 with a fixed message; path is always the request path |
| ExceptionHandler.GatewayStatusIsOwnStatus | infrastructure/src/main/java/com/catface996/gateway/infrastructure/config/GlobalExceptionHandler.java:45-70 | for every constructible gateway exception the status is its own `getHttpStatus()`, a table status |
| ExceptionHandler.FixedExceptionStatuses | infrastructure/src/main/java/com/catface996/gateway/infrastructure/config/GlobalExceptionHandler.java:45-61 | the gateway's authentication and service-unavailable exceptions become 401 "UNAUTHORIZED" and 503 "SERVICE_UNAVAILABLE" with their message |
| ExceptionHandler.UnclassifiedTextNotCopied | infrastructure/src/main/java/com/catface996/gateway/infrastructure/config/GlobalExceptionHandler.java:81-89 | an unclassified error's class and text never reach the envelope |
| ExceptionHandler.Handle | infrastructure/src/main/java/com/catface996/gateway/infrastructure/config/GlobalExceptionHandler.java:38-105 | sets the status and `application/json`, then writes the envelope once, or the fixed fallback literal if serialising fails |
| Routes.MatchesPathCases | domain/src/main/java/com/catface996/gateway/domain/route/model/BackendService.java:43-45 | a null path never matches; a path matches exactly when it is the prefix plus anything; an empty prefix matches every path |
| Routes.NoSegmentBoundary | domain/src/main/java/com/catface996/gateway/domain/route/model/BackendService.java:44 | "/api/servicex" matches the prefix "/api/service" |
| Routes.AnyPrefix | common/src/main/java/com/catface996/gateway/common/constants/PublicRouteConstants.java:43 | `anyMatch(path::startsWith)` holds exactly when some listed prefix starts the path |
| Routes.IsPublicPath | common/src/main/java/com/catface996/gateway/common/constants/PublicRouteConstants.java:42-44 | public exactly when the path starts with the register or the login path |
| Routes.PublicPathExamples | common/src/main/java/com/catface996/gateway/common/constants/PublicRouteConstants.java:21-34 | login and register are public, "/api/auth" and "/api/auth/logout" are not, "/api/auth/loginx" is |
| Routes.PublicPathMonotone | common/src/main/java/com/catface996/gateway/common/constants/PublicRouteConstants.java:42-44 | extending a public path keeps it public |
| Pipeline.GlobalFilterOrder | infrastructure/src/main/java/com/catface996/gateway/infrastructure/filter/AuthenticationGatewayFilter.java:45 | access log (the highest precedence) runs before authentication, which runs before injection, 100 apart; the servers rewrite is at -2 |
| Pipeline.GrantedIdIsInjected | infrastructure/src/main/java/com/catface996/gateway/infrastructure/filter/OperatorIdInjectionFilter.java:75-80 | the id the authentication filter stores is the id the injection filter injects into a protected JSON POST |
| Pipeline.PublicRouteUntouched | infrastructure/src/main/java/com/catface996/gateway/infrastructure/filter/OperatorIdInjectionFilter.java:59-62 | on a public route authentication forwards without consulting the service, and injection leaves the request alone |

## Left out

- Reactive plumbing is not modelled: `Mono`/`Flux`, buffer joining and release, decorators as
  objects, cancellation and backpressure. Each filter is a method on the exchange that
  returns how it ends (continue, complete, throw). The response decorator of the servers
  rewrite is a field of the exchange holding its base URL.
- Logging output, the clock and the UUID generator are left out. The current time and the
  generated id are parameters. Of the access log only the values its lines use are modelled:
  request id, client address, route id and level. The exit line being skipped when the chain
  fails is not modelled.
- Jackson is not modelled; its parse and serialise functions are given. Properties that read an
  edited body back assume a faithful mapper: every tree serialises to non-empty text that
  parses back to it. JSON syntax, number formatting and the `timestamp` pattern are not modelled.
- `MediaType.isCompatibleWith(APPLICATION_JSON)` is a given predicate on the first, non-empty
  `Content-Type` value (an empty value makes `getContentType()` null, which the model follows). An unparsable content type, which Spring rejects with an exception, is not modelled.
- Header names are compared exactly. Spring's `HttpHeaders` ignores case, so a lower-case
  `content-length` would be replaced there but is kept beside the new one here.
- Bodies are decoded strings. Bytes that are not valid UTF-8 are not modelled; Java replaces
  them when decoding, so the re-encoded body can differ from the received bytes.
- A `Flux` response body is taken as already joined into one text.
- The request path is one field. The servers rewrite reads the decoded URI path; the other
  filters and the handler read the raw path.
- Attribute values of an unexpected Java type are treated as absent: a `gatewayRoute` that is
  not a `Route`, or an `operatorId` that is not a `Long`. The source would throw
  `ClassCastException` there.
- `null` arguments to the exception constructors and to the envelope and result factories are
  not modelled. Messages, codes and ids are always present; `success(null)` is not covered.
- A 2xx reply with an empty body gives no authentication result at all. It is left out; the
  call outcome has no such case.
- The WebClient connect and response timeouts are not modelled. A timed-out call is just
  `OtherError`.
- A peer address whose host did not resolve (`getAddress()` is `null`) is not modelled; the peer
  address is an optional host-address text.
- `HttpStatus.valueOf` on a non-standard status code throws in the handler. This is not modelled:
  a `ResponseStatusException` carries its resolved status name and reason phrase.
- `AuthenticationService` and `AuthValidateRequest` appear only as the types the client uses.
- Bean wiring, `FilterConfig`, `SwaggerConfig`, `GatewayApplication`, `WebClientConfig` and
  `RouteConstants` are left out. From `RouteConstants` only the header names, the "public"
  metadata key and the "Bearer " prefix are used.
- `isPublicPath` is only defined for a present path; the source throws on `null`.
