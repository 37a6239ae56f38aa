/**
 * The OpenAPI servers rewrite, applied to `/v3/api-docs` responses: the document's `servers`
 * list is replaced by the single entry of the gateway's own base URL, so that calls made from
 * the documentation go through the gateway.
 */
module SwaggerRewrite {
  import opened JavaLang
  import opened Strings
  import opened Json
  import opened Http
  import opened Jackson

  /** `NettyWriteResponseFilter.WRITE_RESPONSE_FILTER_ORDER`. */
  const WRITE_RESPONSE_FILTER_ORDER: int := -1

  /** Runs just before the response is written. */
  const ORDER: int := WRITE_RESPONSE_FILTER_ORDER - 1

  const API_DOCS_MARKER: string := "/v3/api-docs"
  const SERVERS_FIELD: string := "servers"
  const GATEWAY_DESCRIPTION: string := "API Gateway"

  /** The path guard: only documentation requests are rewritten. */
  predicate AppliesTo(path: string)
  {
    Contains(path, API_DOCS_MARKER)
  }

  /** Any path with the marker somewhere inside it is a documentation request. */
  lemma AppliesToInfix(before: string, after: string)
    ensures AppliesTo(before + API_DOCS_MARKER + after)
  {
    ContainsInfix(before, API_DOCS_MARKER, after);
  }

  /** `scheme://host` as string concatenation renders it. */
  function Origin(scheme: Option<string>, host: Option<string>): string
  {
    StringValueOf(scheme) + "://" + StringValueOf(host)
  }

  /**
   * `getGatewayBaseUrl`: the origin, followed by `:port` unless the port is unspecified (-1),
   * 80 or 443 — whatever the scheme. A written port reads back as the request's port.
   */
  function GatewayBaseUrl(scheme: Option<string>, host: Option<string>, port: int): (url: string)
    ensures StartsWith(url, Origin(scheme, host))
    ensures url == Origin(scheme, host) <==> port == -1 || port == 80 || port == 443
    ensures url != Origin(scheme, host) ==> url == Origin(scheme, host) + ":" + IntToDecimal(port)
    ensures port >= 0 && port != 80 && port != 443 ==>
      var digits := url[|Origin(scheme, host)| + 1..];
      && url[|Origin(scheme, host)|] == ':'
      && IsDigits(digits) && DecimalValue(digits) == port
  {
    var origin := Origin(scheme, host);
    if port == -1 || port == 80 || port == 443 then
      assert origin[..|origin|] == origin;
      origin
    else
      var digits := IntToDecimal(port);
      var url := origin + ":" + digits;
      assert |url| == |origin| + 1 + |digits|;
      assert url[..|origin|] == origin;
      assert url[|origin|] == ':';
      assert url[|origin| + 1..] == digits;
      if port >= 0 then DecimalRoundTrip(port); url else url
  }

  /** The base URL for a few concrete requests. */
  lemma GatewayBaseUrlExamples()
    ensures GatewayBaseUrl(Some("http"), Some("gw.example.com"), 443) == "http://gw.example.com"
    ensures GatewayBaseUrl(Some("https"), Some("gw.example.com"), 80) == "https://gw.example.com"
    ensures GatewayBaseUrl(Some("http"), Some("gw"), -1) == "http://gw"
    ensures GatewayBaseUrl(Some("http"), Some("gw"), 8) == "http://gw:8"
  {
    assert Origin(Some("http"), Some("gw.example.com")) == "http://gw.example.com";
    assert Origin(Some("https"), Some("gw.example.com")) == "https://gw.example.com";
    assert Origin(Some("http"), Some("gw")) == "http://gw";
    assert IntToDecimal(8) == "8";
  }

  /** The replacement `servers` value: one entry with the gateway's URL and description. */
  function ServersValue(baseUrl: string): Json
  {
    JArray([JObject([Member("url", JString(baseUrl)), Member("description", JString(GATEWAY_DESCRIPTION))])])
  }

  /** The edited document, when the parsed root is an object. */
  function RewrittenTree(body: string, baseUrl: string, mapper: ObjectMapper): Option<Json>
  {
    match mapper.readTree(body)
    case Some(JObject(members)) => Some(JObject(SetMember(members, SERVERS_FIELD, ServersValue(baseUrl))))
    case _ => None
  }

  /** The body `rewriteServers` returns: the serialised edit, or the original text. */
  function RewrittenBody(body: string, baseUrl: string, mapper: ObjectMapper): string
  {
    match RewrittenTree(body, baseUrl, mapper)
    case None => body
    case Some(tree) =>
      match mapper.writeTree(tree)
      case Some(text) => text
      case None => body
  }

  /**
   * `rewriteServers`: builds the one-entry array, sets it as `servers` on an object root and
   * serialises the root; anything else, or a processing error, returns the original text.
   */
  method RewriteServers(body: string, baseUrl: string, mapper: ObjectMapper) returns (modified: string)
    ensures modified == RewrittenBody(body, baseUrl, mapper)
  {
    var root := mapper.readTree(body);
    if root.Some? && root.value.JObject? {
      var rootObject := new ObjectNode(root.value.members);
      var newServers := new ArrayNode();
      var gatewayServer := new ObjectNode([]);
      gatewayServer.Put("url", JString(baseUrl));
      gatewayServer.Put("description", JString(GATEWAY_DESCRIPTION));
      assert gatewayServer.members == [Member("url", JString(baseUrl)), Member("description", JString(GATEWAY_DESCRIPTION))];
      newServers.Add(gatewayServer.Tree());
      assert newServers.Tree() == ServersValue(baseUrl);
      rootObject.Put(SERVERS_FIELD, newServers.Tree());
      var text := mapper.writeTree(rootObject.Tree());
      if text.Some? {
        return text.value;
      }
    }
    return body;
  }

  /**
   * On an object document `servers` becomes exactly the gateway entry, and every other member
   * keeps its value and order.
   */
  lemma ObjectDocumentRewritten(body: string, baseUrl: string, mapper: ObjectMapper, members: seq<Member>)
    requires mapper.readTree(body) == Some(JObject(members))
    ensures RewrittenTree(body, baseUrl, mapper).Some?
    ensures var edited := RewrittenTree(body, baseUrl, mapper).value.members;
      && Lookup(edited, SERVERS_FIELD) == Some(ServersValue(baseUrl))
      && Without(edited, SERVERS_FIELD) == Without(members, SERVERS_FIELD)
      && (SERVERS_FIELD !in Keys(members) ==> edited == members + [Member(SERVERS_FIELD, ServersValue(baseUrl))])
      && (UniqueKeys(members) && SERVERS_FIELD in Keys(members) ==>
            && |edited| == |members|
            && forall i :: 0 <= i < |members| ==>
                 edited[i] == (if members[i].key == SERVERS_FIELD then Member(SERVERS_FIELD, ServersValue(baseUrl)) else members[i]))
      && (UniqueKeys(members) ==> UniqueKeys(edited))
  {
    SetMemberLookup(members, SERVERS_FIELD, ServersValue(baseUrl), SERVERS_FIELD);
    SetMemberKeepsOthers(members, SERVERS_FIELD, ServersValue(baseUrl));
    if SERVERS_FIELD !in Keys(members) {
      SetMemberAbsent(members, SERVERS_FIELD, ServersValue(baseUrl));
    }
    if UniqueKeys(members) {
      SetMemberUnique(members, SERVERS_FIELD, ServersValue(baseUrl));
      if SERVERS_FIELD in Keys(members) {
        SetMemberPresent(members, SERVERS_FIELD, ServersValue(baseUrl));
      }
    }
  }

  /** A malformed or non-object document is returned unchanged. */
  lemma NonObjectDocumentUnchanged(body: string, baseUrl: string, mapper: ObjectMapper)
    requires mapper.readTree(body).None? || !mapper.readTree(body).value.JObject?
    ensures RewrittenBody(body, baseUrl, mapper) == body
  {
  }

  /** Tree-level idempotence: rewriting a rewritten document again changes nothing. */
  lemma RewriteTreeIdempotent(members: seq<Member>, baseUrl: string)
    ensures var once := SetMember(members, SERVERS_FIELD, ServersValue(baseUrl));
      SetMember(once, SERVERS_FIELD, ServersValue(baseUrl)) == once
  {
    SetMemberOverwrite(members, SERVERS_FIELD, ServersValue(baseUrl), ServersValue(baseUrl));
  }

  /** With a faithful mapper the text-level rewrite is idempotent too. */
  lemma RewriteBodyIdempotent(body: string, baseUrl: string, mapper: ObjectMapper)
    requires Faithful(mapper)
    ensures RewrittenBody(RewrittenBody(body, baseUrl, mapper), baseUrl, mapper) == RewrittenBody(body, baseUrl, mapper)
  {
    var once := RewrittenBody(body, baseUrl, mapper);
    if RewrittenTree(body, baseUrl, mapper).Some? {
      var tree := RewrittenTree(body, baseUrl, mapper).value;
      var members := mapper.readTree(body).value.members;
      assert once == mapper.writeTree(tree).value;
      assert mapper.readTree(once) == Some(tree);
      RewriteTreeIdempotent(members, baseUrl);
    }
  }

  /** A response body as handed to `writeWith`: a `Flux` of buffers (already joined) or another publisher. */
  datatype Publisher = FluxBody(content: string) | OtherPublisher(content: string)

  /**
   * The decorated response's `writeWith`: the decorator `filter` installed carries the base URL
   * in `serversRewrite`; a `Flux` body is rewritten with it and `Content-Length` set to its
   * UTF-8 length; any other publisher is written unchanged.
   */
  method WriteWith(ex: Exchange, body: Publisher, mapper: ObjectMapper)
    requires ex.serversRewrite.Some?
    modifies ex
    ensures body.OtherPublisher? ==>
      ex.responseBody == Some(body.content) && ex.responseHeaders == old(ex.responseHeaders)
    ensures body.FluxBody? ==>
      var written := RewrittenBody(body.content, old(ex.serversRewrite).value, mapper);
      && ex.responseBody == Some(written)
      && ex.responseHeaders == old(ex.responseHeaders)[HEADER_CONTENT_LENGTH := [NatToDecimal(Utf8Length(written))]]
    ensures ex.request == old(ex.request) && ex.attributes == old(ex.attributes)
    ensures ex.statusCode == old(ex.statusCode) && ex.serversRewrite == old(ex.serversRewrite)
  {
    var baseUrl := ex.serversRewrite.value;
    match body {
      case FluxBody(content) =>
        var modified := RewriteServers(content, baseUrl, mapper);
        ex.responseHeaders := ex.responseHeaders[HEADER_CONTENT_LENGTH := [NatToDecimal(Utf8Length(modified))]];
        ex.responseBody := Some(modified);
      case OtherPublisher(content) =>
        ex.responseBody := Some(content);
    }
  }

  /**
   * A documentation response goes through `filter` and then its decorated `writeWith`: the
   * body written is the document rewritten with the base URL of the request itself.
   */
  method FilterThenWrite(ex: Exchange, content: string, mapper: ObjectMapper) returns (step: Step)
    requires AppliesTo(ex.request.path)
    modifies ex
    ensures step == Continue
    ensures ex.responseBody == Some(RewrittenBody(content,
      GatewayBaseUrl(old(ex.request.scheme), old(ex.request.host), old(ex.request.port)), mapper))
    ensures ex.request == old(ex.request) && ex.attributes == old(ex.attributes)
  {
    step := Filter(ex);
    WriteWith(ex, FluxBody(content), mapper);
  }

  /** The `Content-Length` a rewritten `Flux` body gets reads back as its UTF-8 byte count. */
  lemma ContentLengthMatches(written: string)
    ensures IsDigits(NatToDecimal(Utf8Length(written)))
    ensures DecimalValue(NatToDecimal(Utf8Length(written))) == Utf8Length(written)
  {
    DecimalRoundTrip(Utf8Length(written));
  }

  /**
   * `filter`: outside documentation paths the exchange goes on unchanged; on them the
   * response is decorated to rewrite with the base URL of this request.
   */
  method Filter(ex: Exchange) returns (step: Step)
    modifies ex
    ensures step == Continue
    ensures !AppliesTo(old(ex.request.path)) ==> ex.serversRewrite == old(ex.serversRewrite)
    ensures AppliesTo(old(ex.request.path)) ==>
      ex.serversRewrite == Some(GatewayBaseUrl(old(ex.request.scheme), old(ex.request.host), old(ex.request.port)))
    ensures ex.request == old(ex.request) && ex.attributes == old(ex.attributes)
    ensures ex.statusCode == old(ex.statusCode) && ex.responseHeaders == old(ex.responseHeaders)
    ensures ex.responseBody == old(ex.responseBody)
  {
    if !Contains(ex.request.path, API_DOCS_MARKER) {
      return Continue;
    }
    var baseUrl := GatewayBaseUrl(ex.request.scheme, ex.request.host, ex.request.port);
    ex.serversRewrite := Some(baseUrl);
    step := Continue;
  }
}
