/**
 * The access-log filter: it runs first, fixes the request id, forwards it as a header, and
 * logs entry and exit. Only the values the log lines are built from are modelled; the clock,
 * the UUID generator and the log output are not.
 */
module AccessLog {
  import opened JavaLang
  import opened Strings
  import opened Http
  import opened Exceptions

  /** `Ordered.HIGHEST_PRECEDENCE`. */
  const ORDER: int := INT_MIN

  const HEADER_X_FORWARDED_FOR: string := "X-Forwarded-For"
  const HEADER_X_REAL_IP: string := "X-Real-IP"
  const UNKNOWN: string := "unknown"

  /**
   * The request id: the first `X-Request-ID` value whenever there is one, even an empty one;
   * otherwise the freshly `generated` UUID text.
   */
  function RequestId(headers: Headers, generated: string): (id: string)
    ensures HEADER_REQUEST_ID in headers && |headers[HEADER_REQUEST_ID]| > 0 ==> id == headers[HEADER_REQUEST_ID][0]
    ensures !(HEADER_REQUEST_ID in headers && |headers[HEADER_REQUEST_ID]| > 0) ==> id == generated
  {
    match GetFirst(headers, HEADER_REQUEST_ID)
    case Some(given) => given
    case None => generated
  }

  /**
   * `getClientIp(request)`: the trimmed first entry of a non-empty `X-Forwarded-For`, else a
   * non-empty `X-Real-IP`, else the remote host address, else "unknown". `None` is the
   * `ArrayIndexOutOfBoundsException` that `split(",")[0]` throws on a header of only commas.
   */
  function ClientIp(request: Request): (ip: Option<string>)
    ensures ip.None? <==>
      var xff := GetFirst(request.headers, HEADER_X_FORWARDED_FOR);
      xff.Some? && xff.value != [] && OnlyCommas(xff.value)
    ensures var xff := GetFirst(request.headers, HEADER_X_FORWARDED_FOR);
      xff.Some? && xff.value != [] && ip.Some? ==> ip.value == Trim(BeforeComma(xff.value))
  {
    var xff := GetFirst(request.headers, HEADER_X_FORWARDED_FOR);
    if xff.Some? && xff.value != [] then
      match SplitFirst(xff.value)
      case None => None
      case Some(first) => Some(Trim(first))
    else
      var realIp := GetFirst(request.headers, HEADER_X_REAL_IP);
      if realIp.Some? && realIp.value != [] then Some(realIp.value)
      else if request.remoteAddress.Some? then Some(request.remoteAddress.value)
      else Some(UNKNOWN)
  }

  /** The precedence of the sources: each is used only when every earlier one is absent or empty. */
  lemma ClientIpPrecedence(request: Request, first: string, rest: string)
    ensures GetFirst(request.headers, HEADER_X_FORWARDED_FOR) == Some(first + [','] + rest) && first != [] && ',' !in first ==>
      ClientIp(request) == Some(Trim(first))
    ensures GetFirst(request.headers, HEADER_X_FORWARDED_FOR) == Some(first) && first != [] && ',' !in first ==>
      ClientIp(request) == Some(Trim(first))
    ensures var xff := GetFirst(request.headers, HEADER_X_FORWARDED_FOR);
      var realIp := GetFirst(request.headers, HEADER_X_REAL_IP);
      (xff.None? || xff.value == []) && realIp.Some? && realIp.value != [] ==> ClientIp(request) == realIp
    ensures var xff := GetFirst(request.headers, HEADER_X_FORWARDED_FOR);
      var realIp := GetFirst(request.headers, HEADER_X_REAL_IP);
      (xff.None? || xff.value == []) && (realIp.None? || realIp.value == []) ==>
        ClientIp(request) == Some(if request.remoteAddress.Some? then request.remoteAddress.value else "unknown")
  {
    if GetFirst(request.headers, HEADER_X_FORWARDED_FOR) == Some(first + [','] + rest) && first != [] && ',' !in first {
      BeforeCommaOf(first, rest);
      assert (first + [','] + rest)[0] == first[0];
    }
    if GetFirst(request.headers, HEADER_X_FORWARDED_FOR) == Some(first) && first != [] && ',' !in first {
      assert first[0] != ',';
      BeforeCommaAll(first);
    }
  }

  /** Without a comma the whole text is the first segment. */
  lemma BeforeCommaAll(s: string)
    requires ',' !in s
    ensures BeforeComma(s) == s
  {
  }

  /** The three log levels of the exit line. */
  datatype LogLevel = Info | Warn | Error
  {
    function Severity(): nat
    {
      match this
      case Info => 0
      case Warn => 1
      case Error => 2
    }
  }

  /** The level of the exit line: error from 500 up, warn from 400 up, info below; no status counts as 0. */
  function ExitLevel(statusCode: Option<int>): (level: LogLevel)
    ensures var status := if statusCode.Some? then statusCode.value else 0;
      && (level == Error <==> status >= 500)
      && (level == Warn <==> 400 <= status < 500)
      && (level == Info <==> status < 400)
  {
    var status := if statusCode.Some? then statusCode.value else 0;
    if status >= 500 then Error
    else if status >= 400 then Warn
    else Info
  }

  /** A higher status never logs at a lower level. */
  lemma ExitLevelMonotone(a: int, b: int)
    requires a <= b
    ensures ExitLevel(Some(a)).Severity() <= ExitLevel(Some(b)).Severity()
    ensures ExitLevel(None) == ExitLevel(Some(0)) == Info
  {
  }

  /** `getRouteId(exchange)`: the matched route's id, or "unknown". */
  function RouteId(attributes: Attributes): (id: string)
    ensures GatewayRoute(attributes).Some? ==> id == GatewayRoute(attributes).value.id
    ensures GatewayRoute(attributes).None? ==> id == "unknown"
  {
    match GatewayRoute(attributes)
    case Some(route) => route.id
    case None => UNKNOWN
  }

  /**
   * `filter`: stores the request id as an attribute, then forwards a request carrying it as the
   * sole `X-Request-ID` value. When computing the client address throws, the attribute is
   * already stored, the request is left as it was and the error propagates.
   */
  method Filter(ex: Exchange, generated: string) returns (step: Step, requestId: string)
    modifies ex
    ensures requestId == RequestId(old(ex.request.headers), generated)
    ensures ex.attributes == old(ex.attributes)[HEADER_REQUEST_ID := AttrString(requestId)]
    ensures ClientIp(old(ex.request)).Some? ==>
      step == Continue && ex.request == old(ex.request).(headers := old(ex.request.headers)[HEADER_REQUEST_ID := [requestId]])
    ensures ClientIp(old(ex.request)).None? ==>
      step.Raise? && step.error.Unclassified? && ex.request == old(ex.request)
    ensures ex.statusCode == old(ex.statusCode) && ex.responseHeaders == old(ex.responseHeaders)
    ensures ex.responseBody == old(ex.responseBody) && ex.serversRewrite == old(ex.serversRewrite)
  {
    var request := ex.request;
    requestId := RequestId(request.headers, generated);
    ex.attributes := ex.attributes[HEADER_REQUEST_ID := AttrString(requestId)];
    var mutated := request.(headers := request.headers[HEADER_REQUEST_ID := [requestId]]);
    var clientIp := ClientIp(request);
    if clientIp.None? {
      step := Raise(Unclassified("java.lang.ArrayIndexOutOfBoundsException", None));
      return;
    }
    ex.request := mutated;
    step := Continue;
  }

  /** Whatever id is chosen, the forwarded request carries exactly that id and nothing else changes. */
  lemma ForwardedRequestId(request: Request, generated: string)
    ensures var id := RequestId(request.headers, generated);
      var forwarded := request.headers[HEADER_REQUEST_ID := [id]];
      && GetFirst(forwarded, HEADER_REQUEST_ID) == Some(id)
      && (GetFirst(request.headers, HEADER_REQUEST_ID).Some? ==> id == GetFirst(request.headers, HEADER_REQUEST_ID).value)
      && (forall name :: name in request.headers && name != HEADER_REQUEST_ID ==> forwarded[name] == request.headers[name])
  {
  }
}
