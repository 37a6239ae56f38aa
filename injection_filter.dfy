/**
 * The operator-id injection filter: on a protected JSON POST that passed authentication it
 * sets `operatorId` on the top-level object of the request body and forwards the rewritten
 * body with a matching `Content-Length`.
 */
module InjectionFilter {
  import opened JavaLang
  import opened Strings
  import opened Json
  import opened Http
  import opened Jackson
  import AuthFilter

  /** Runs right after the authentication filter. */
  const ORDER: int := AuthFilter.ORDER + 100

  /** The member set on the body. */
  const OPERATOR_ID_FIELD: string := "operatorId"

  /**
   * The guards of `filter`: the operator id to inject, or `None` when the request passes
   * through untouched. `getContentType()` is `null` when the first `Content-Type` value is
   * missing or empty; `jsonCompatible` is `MediaType.isCompatibleWith(APPLICATION_JSON)`
   * applied to a non-empty value.
   */
  function InjectionTarget(request: Request, attributes: Attributes, jsonCompatible: string -> bool): (id: Option<Long>)
    ensures id.Some? <==>
      && !IsPublicRoute(attributes)
      && request.httpMethod == "POST"
      && GetFirst(request.headers, HEADER_CONTENT_TYPE).Some?
      && GetFirst(request.headers, HEADER_CONTENT_TYPE).value != []
      && jsonCompatible(GetFirst(request.headers, HEADER_CONTENT_TYPE).value)
      && AuthFilter.OPERATOR_ID_ATTR in attributes && attributes[AuthFilter.OPERATOR_ID_ATTR].AttrLong?
    ensures id.Some? ==> attributes[AuthFilter.OPERATOR_ID_ATTR] == AttrLong(id.value)
  {
    if IsPublicRoute(attributes) then None
    else if request.httpMethod != "POST" then None
    else
      var contentType := GetFirst(request.headers, HEADER_CONTENT_TYPE);
      if contentType.None? || contentType.value == [] || !jsonCompatible(contentType.value) then None
      else if AuthFilter.OPERATOR_ID_ATTR in attributes && attributes[AuthFilter.OPERATOR_ID_ATTR].AttrLong? then
        Some(attributes[AuthFilter.OPERATOR_ID_ATTR].l)
      else None
  }

  /** The tree `injectOperatorId` edits: an empty body is a new empty object, anything else is parsed. */
  function RootNode(body: string, mapper: ObjectMapper): Option<Json>
  {
    if body == [] then Some(JObject([])) else mapper.readTree(body)
  }

  /** The edited tree, when the root is an object: `operatorId` set to the id. */
  function InjectedTree(body: string, operatorId: Long, mapper: ObjectMapper): Option<Json>
  {
    match RootNode(body, mapper)
    case Some(JObject(members)) => Some(JObject(SetMember(members, OPERATOR_ID_FIELD, JInt(operatorId))))
    case _ => None
  }

  /** The body `injectOperatorId` returns: the serialised edit, or the original text. */
  function InjectedBody(body: string, operatorId: Long, mapper: ObjectMapper): string
  {
    match InjectedTree(body, operatorId, mapper)
    case None => body
    case Some(tree) =>
      match mapper.writeTree(tree)
      case Some(text) => text
      case None => body
  }

  /**
   * `injectOperatorId`: parses the body (an empty one becomes a new object node), puts the id
   * on an object root and serialises it; a non-object root or a processing error leaves the
   * original body.
   */
  method InjectOperatorId(body: string, operatorId: Long, mapper: ObjectMapper) returns (modified: string)
    ensures modified == InjectedBody(body, operatorId, mapper)
  {
    var root: Option<Json>;
    if body == [] {
      root := Some(JObject([]));
    } else {
      root := mapper.readTree(body);
    }
    if root.Some? && root.value.JObject? {
      var node := new ObjectNode(root.value.members);
      node.Put(OPERATOR_ID_FIELD, JInt(operatorId));
      var text := mapper.writeTree(node.Tree());
      if text.Some? {
        return text.value;
      }
      return body;
    }
    return body;
  }

  /** An empty body becomes an object whose only member is the operator id. */
  lemma EmptyBodyBecomesObject(operatorId: Long, mapper: ObjectMapper)
    ensures InjectedTree([], operatorId, mapper) == Some(JObject([Member(OPERATOR_ID_FIELD, JInt(operatorId))]))
  {
  }

  /**
   * On an object body the id is set, inserted at the end when absent and replaced in place
   * when present, and every other member keeps its value and order.
   */
  lemma ObjectBodyGetsId(body: string, operatorId: Long, mapper: ObjectMapper, members: seq<Member>)
    requires body != [] && mapper.readTree(body) == Some(JObject(members))
    ensures InjectedTree(body, operatorId, mapper).Some?
    ensures var edited := InjectedTree(body, operatorId, mapper).value.members;
      && Lookup(edited, OPERATOR_ID_FIELD) == Some(JInt(operatorId))
      && Without(edited, OPERATOR_ID_FIELD) == Without(members, OPERATOR_ID_FIELD)
      && (OPERATOR_ID_FIELD !in Keys(members) ==> edited == members + [Member(OPERATOR_ID_FIELD, JInt(operatorId))])
      && (UniqueKeys(members) && OPERATOR_ID_FIELD in Keys(members) ==>
            && |edited| == |members|
            && forall i :: 0 <= i < |members| ==>
                 edited[i] == (if members[i].key == OPERATOR_ID_FIELD then Member(OPERATOR_ID_FIELD, JInt(operatorId)) else members[i]))
      && (UniqueKeys(members) ==> UniqueKeys(edited))
  {
    SetMemberLookup(members, OPERATOR_ID_FIELD, JInt(operatorId), OPERATOR_ID_FIELD);
    SetMemberKeepsOthers(members, OPERATOR_ID_FIELD, JInt(operatorId));
    if OPERATOR_ID_FIELD !in Keys(members) {
      SetMemberAbsent(members, OPERATOR_ID_FIELD, JInt(operatorId));
    }
    if UniqueKeys(members) {
      SetMemberUnique(members, OPERATOR_ID_FIELD, JInt(operatorId));
      if OPERATOR_ID_FIELD in Keys(members) {
        SetMemberPresent(members, OPERATOR_ID_FIELD, JInt(operatorId));
      }
    }
  }

  /** A non-empty body that is malformed or not an object is forwarded as it was. */
  lemma NonObjectBodyUnchanged(body: string, operatorId: Long, mapper: ObjectMapper)
    requires body != []
    requires mapper.readTree(body).None? || !mapper.readTree(body).value.JObject?
    ensures InjectedBody(body, operatorId, mapper) == body
  {
  }

  /** With a faithful mapper, the forwarded body parses back to the edited tree. */
  lemma InjectedBodyReadsBack(body: string, operatorId: Long, mapper: ObjectMapper)
    requires Faithful(mapper)
    requires InjectedTree(body, operatorId, mapper).Some?
    ensures mapper.readTree(InjectedBody(body, operatorId, mapper)) == InjectedTree(body, operatorId, mapper)
  {
  }

  /**
   * Injecting twice is injecting the second id once: a body already carrying an operator id
   * has it overwritten, not duplicated.
   */
  lemma ReinjectionOverwrites(body: string, id1: Long, id2: Long, mapper: ObjectMapper)
    requires Faithful(mapper)
    ensures InjectedBody(InjectedBody(body, id1, mapper), id2, mapper) == InjectedBody(body, id2, mapper)
  {
    var once := InjectedBody(body, id1, mapper);
    if once != body {
      var tree1 := InjectedTree(body, id1, mapper).value;
      var members := RootNode(body, mapper).value.members;
      assert mapper.writeTree(tree1).Some? && once == mapper.writeTree(tree1).value;
      assert once != [] && mapper.readTree(once) == Some(tree1);
      SetMemberOverwrite(members, OPERATOR_ID_FIELD, JInt(id1), JInt(id2));
      assert InjectedTree(once, id2, mapper) == InjectedTree(body, id2, mapper);
    }
  }

  /** The forwarded headers: every original header, with `Content-Length` set to the body's UTF-8 length. */
  function ForwardedHeaders(headers: Headers, body: string): (forwarded: Headers)
    ensures HEADER_CONTENT_LENGTH in forwarded && |forwarded[HEADER_CONTENT_LENGTH]| == 1
    ensures IsDigits(forwarded[HEADER_CONTENT_LENGTH][0])
    ensures DecimalValue(forwarded[HEADER_CONTENT_LENGTH][0]) == Utf8Length(body)
    ensures forall name :: name in headers ==> name in forwarded
    ensures forall name :: name in headers && name != HEADER_CONTENT_LENGTH ==> forwarded[name] == headers[name]
    ensures forall name :: name in forwarded ==> name in headers || name == HEADER_CONTENT_LENGTH
  {
    DecimalRoundTrip(Utf8Length(body));
    headers[HEADER_CONTENT_LENGTH := [NatToDecimal(Utf8Length(body))]]
  }

  /** `continueWithModifiedBody`: the exchange's request is replaced by one carrying the new body. */
  method ContinueWithModifiedBody(ex: Exchange, modifiedBody: string) returns (step: Step)
    modifies ex
    ensures step == Continue
    ensures ex.request == old(ex.request).(headers := ForwardedHeaders(old(ex.request.headers), modifiedBody),
                                           body := modifiedBody)
    ensures ex.attributes == old(ex.attributes) && ex.statusCode == old(ex.statusCode)
    ensures ex.responseHeaders == old(ex.responseHeaders) && ex.responseBody == old(ex.responseBody)
    ensures ex.serversRewrite == old(ex.serversRewrite)
  {
    var headers := ex.request.headers[HEADER_CONTENT_LENGTH := [NatToDecimal(Utf8Length(modifiedBody))]];
    ex.request := ex.request.(headers := headers, body := modifiedBody);
    step := Continue;
  }

  /**
   * `filter`: a request failing a guard goes on untouched; otherwise its body is rewritten
   * with the id and its headers recomputed, even when the body text itself is unchanged.
   */
  method Filter(ex: Exchange, mapper: ObjectMapper, jsonCompatible: string -> bool) returns (step: Step)
    modifies ex
    ensures step == Continue
    ensures var target := InjectionTarget(old(ex.request), old(ex.attributes), jsonCompatible);
      && (target.None? ==> ex.request == old(ex.request))
      && (target.Some? ==>
            var body := InjectedBody(old(ex.request.body), target.value, mapper);
            ex.request == old(ex.request).(headers := ForwardedHeaders(old(ex.request.headers), body), body := body))
    ensures ex.attributes == old(ex.attributes) && ex.statusCode == old(ex.statusCode)
    ensures ex.responseHeaders == old(ex.responseHeaders) && ex.responseBody == old(ex.responseBody)
    ensures ex.serversRewrite == old(ex.serversRewrite)
  {
    var target := InjectionTarget(ex.request, ex.attributes, jsonCompatible);
    if target.None? {
      return Continue;
    }
    var modified := InjectOperatorId(ex.request.body, target.value, mapper);
    step := ContinueWithModifiedBody(ex, modified);
  }
}
