/**
 * How the global filters fit together: their fixed order, and the hand-over of the operator
 * id from the authentication filter to the injection filter through the exchange attributes.
 */
module Pipeline {
  import opened JavaLang
  import opened Http
  import opened Tokens
  import opened AuthClient
  import AccessLog
  import AuthFilter
  import InjectionFilter
  import SwaggerRewrite

  /**
   * Access logging runs first of all, then authentication, then injection, each 100 after the
   * previous one; the servers rewrite sits just before the response writer.
   */
  lemma GlobalFilterOrder()
    ensures AccessLog.ORDER == INT_MIN
    ensures AccessLog.ORDER < AuthFilter.ORDER < InjectionFilter.ORDER
    ensures AuthFilter.ORDER == AccessLog.ORDER + 100 && InjectionFilter.ORDER == AuthFilter.ORDER + 100
    ensures INT_MIN <= InjectionFilter.ORDER <= INT_MAX
    ensures SwaggerRewrite.ORDER == -2
  {
  }

  /**
   * The id the authentication filter stores is the id the injection filter injects: after a
   * forward on a protected route, a JSON POST is rewritten with the operator id the identity
   * service granted.
   */
  lemma GrantedIdIsInjected(request: Request, attributes: Attributes, client: AuthServiceClient,
                            outcome: RpcOutcome, jsonCompatible: string -> bool)
    requires !IsPublicRoute(attributes)
    requires AuthFilter.Decide(true, attributes, request.headers, client, outcome).verdict.Forward?
    requires request.httpMethod == "POST"
    requires GetFirst(request.headers, HEADER_CONTENT_TYPE).Some?
    requires GetFirst(request.headers, HEADER_CONTENT_TYPE).value != []
    requires jsonCompatible(GetFirst(request.headers, HEADER_CONTENT_TYPE).value)
    ensures outcome.Ok? && outcome.response.operatorId.Some?
    ensures var forwarded := AuthFilter.Decide(true, attributes, request.headers, client, outcome).verdict.attributes;
      InjectionFilter.InjectionTarget(request, forwarded, jsonCompatible) == Some(outcome.response.operatorId.value)
  {
    var d := AuthFilter.Decide(true, attributes, request.headers, client, outcome);
    AuthFilter.ForwardIff(attributes, request.headers, client, outcome);
    var id := outcome.response.operatorId.value;
    var forwarded := attributes[AuthFilter.OPERATOR_ID_ATTR := AttrLong(id)];
    assert d.verdict.attributes == forwarded;
    OperatorIdKeepsRoute(attributes, AttrLong(id));
    assert forwarded[AuthFilter.OPERATOR_ID_ATTR] == AttrLong(id);
  }

  /** Storing the operator id leaves the matched route, and so its publicness, as it was. */
  lemma OperatorIdKeepsRoute(attributes: Attributes, value: AttrValue)
    ensures GatewayRoute(attributes[AuthFilter.OPERATOR_ID_ATTR := value]) == GatewayRoute(attributes)
    ensures IsPublicRoute(attributes[AuthFilter.OPERATOR_ID_ATTR := value]) == IsPublicRoute(attributes)
  {
    assert AuthFilter.OPERATOR_ID_ATTR != GATEWAY_ROUTE_ATTR;
  }

  /**
   * On a public route neither filter acts: authentication forwards without consulting the
   * identity service and injection leaves the request alone.
   */
  lemma PublicRouteUntouched(request: Request, attributes: Attributes, enabled: bool, client: AuthServiceClient,
                             outcome: RpcOutcome, jsonCompatible: string -> bool)
    requires IsPublicRoute(attributes)
    ensures AuthFilter.Decide(enabled, attributes, request.headers, client, outcome) ==
      AuthFilter.Decision(None, AuthFilter.Forward(attributes))
    ensures InjectionFilter.InjectionTarget(request, attributes, jsonCompatible).None?
  {
  }
}
