/**
 * The part of Spring's web model the gateway's filters read and change: headers, the matched
 * route, exchange attributes, the request, and the `ServerWebExchange` holding them together
 * with the response under construction.
 */
module Http {
  import opened JavaLang
  import opened Exceptions

  /** A header map: each name carries a list of values. */
  type Headers = map<string, seq<string>>

  const HEADER_AUTHORIZATION: string := "Authorization"
  const HEADER_REQUEST_ID: string := "X-Request-ID"
  const HEADER_CONTENT_TYPE: string := "Content-Type"
  const HEADER_CONTENT_LENGTH: string := "Content-Length"
  const APPLICATION_JSON: string := "application/json"

  /** Route metadata key marking a route as public. */
  const METADATA_KEY_PUBLIC: string := "public"

  /** The exchange attribute under which Spring Cloud Gateway stores the matched route. */
  const GATEWAY_ROUTE_ATTR: string := "org.springframework.cloud.gateway.support.ServerWebExchangeUtils.gatewayRoute"

  /** `HttpHeaders.getFirst(name)`: the first value, or `None` when there is none. */
  function GetFirst(headers: Headers, name: string): Option<string>
  {
    if name in headers && |headers[name]| > 0 then Some(headers[name][0]) else None
  }

  /** A route metadata value, as far as the filters distinguish them. */
  datatype MetaValue = MetaBool(b: bool) | MetaString(s: string) | MetaOther

  /** A matched gateway route: its id and its metadata. */
  datatype Route = Route(id: string, metadata: map<string, MetaValue>)

  /** The exchange attribute values the gateway reads or writes. */
  datatype AttrValue = AttrRoute(route: Route) | AttrLong(l: Long) | AttrString(s: string)

  type Attributes = map<string, AttrValue>

  /** The matched route, if one was stored in the attributes. */
  function GatewayRoute(attributes: Attributes): Option<Route>
  {
    if GATEWAY_ROUTE_ATTR in attributes && attributes[GATEWAY_ROUTE_ATTR].AttrRoute? then
      Some(attributes[GATEWAY_ROUTE_ATTR].route)
    else None
  }

  /**
   * `isPublicRoute(exchange)`, shared by the authentication and injection filters: a route
   * was matched and its `public` metadata is the boolean `true`.
   */
  predicate IsPublicRoute(attributes: Attributes)
  {
    match GatewayRoute(attributes)
    case None => false
    case Some(route) =>
      METADATA_KEY_PUBLIC in route.metadata && route.metadata[METADATA_KEY_PUBLIC] == MetaBool(true)
  }

  /**
   * Only a boolean `true` marks a route public: no route, no `public` key, `false`, or the
   * string "true" all leave it protected.
   */
  lemma PublicRouteCases(attributes: Attributes, route: Route)
    ensures GATEWAY_ROUTE_ATTR !in attributes ==> !IsPublicRoute(attributes)
    ensures IsPublicRoute(attributes[GATEWAY_ROUTE_ATTR := AttrRoute(route)]) <==>
      METADATA_KEY_PUBLIC in route.metadata && route.metadata[METADATA_KEY_PUBLIC] == MetaBool(true)
    ensures !IsPublicRoute(attributes[GATEWAY_ROUTE_ATTR := AttrRoute(
      route.(metadata := route.metadata[METADATA_KEY_PUBLIC := MetaString("true")]))])
    ensures IsPublicRoute(attributes[GATEWAY_ROUTE_ATTR := AttrRoute(
      route.(metadata := route.metadata[METADATA_KEY_PUBLIC := MetaBool(true)]))])
  {
  }

  /**
   * An incoming request: method, the URI parts the filters read, headers, the remote peer's
   * host address, and the body already decoded as UTF-8.
   */
  datatype Request = Request(
    httpMethod: string,
    scheme: Option<string>,
    host: Option<string>,
    port: int,
    path: string,
    headers: Headers,
    remoteAddress: Option<string>,
    body: string)

  /** How a filter ends: the chain runs next, the response is complete, or it throws. */
  datatype Step = Continue | Complete | Raise(error: Throwable)

  /**
   * `ServerWebExchange`: the request (replaced when a filter mutates the exchange), the
   * attribute map, and the response under construction. `responseBody` is `None` until a body
   * is written; `serversRewrite` is the base URL of the OpenAPI servers rewrite once that
   * response decorator is installed.
   */
  class Exchange {
    var request: Request
    var attributes: Attributes
    var statusCode: Option<int>
    var responseHeaders: Headers
    var responseBody: Option<string>
    var serversRewrite: Option<string>

    constructor (request: Request, attributes: Attributes)
      ensures this.request == request && this.attributes == attributes
      ensures statusCode.None? && responseHeaders == map[] && responseBody.None? && serversRewrite.None?
    {
      this.request := request;
      this.attributes := attributes;
      statusCode := None;
      responseHeaders := map[];
      responseBody := None;
      serversRewrite := None;
    }
  }
}
