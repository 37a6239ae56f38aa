/** The bearer token carried by the `Authorization` header. */
module Tokens {
  import opened JavaLang
  import opened Strings

  const BEARER_PREFIX: string := "Bearer "

  /** `TokenInfo`: the raw token without its `Bearer ` prefix; `null` is `None`. */
  datatype TokenInfo = TokenInfo(token: Option<string>)
  {
    /** `isValid()`: a token is present and non-empty. */
    predicate IsValid()
    {
      match token
      case None => false
      case Some(t) => |t| > 0
    }
  }

  /**
   * `TokenInfo.fromBearerToken(header)`: `None` for a missing header, a header that does not
   * start with the exact prefix `Bearer `, or a remainder that trims to nothing; otherwise the
   * remainder after the seven prefix characters, trimmed of characters up to U+0020.
   */
  function FromBearerToken(header: Option<string>): (r: Option<TokenInfo>)
    ensures header.None? ==> r.None?
    ensures header.Some? && !StartsWith(header.value, BEARER_PREFIX) ==> r.None?
    ensures header.Some? && StartsWith(header.value, BEARER_PREFIX) ==>
      (r.None? <==> AllSpace(header.value[|BEARER_PREFIX|..]))
    ensures r.Some? ==>
      && r.value.IsValid()
      && header.Some? && StartsWith(header.value, BEARER_PREFIX)
      && r.value.token == Some(Trim(header.value[|BEARER_PREFIX|..]))
  {
    match header
    case None => None
    case Some(h) =>
      if !StartsWith(h, BEARER_PREFIX) then None
      else
        var token := Trim(h[|BEARER_PREFIX|..]);
        TrimEmptyIff(h[|BEARER_PREFIX|..]);
        if token == [] then None else Some(TokenInfo(Some(token)))
  }

  /**
   * Round trip: a non-empty token with no surrounding blanks, sent as `Bearer <token>` and
   * padded with any blanks, is extracted exactly.
   */
  lemma BearerRoundTrip(lead: string, token: string, trail: string)
    requires token != [] && IsTrimmed(token)
    requires AllSpace(lead) && AllSpace(trail)
    ensures FromBearerToken(Some(BEARER_PREFIX + lead + token + trail)) == Some(TokenInfo(Some(token)))
  {
    var h := BEARER_PREFIX + lead + token + trail;
    assert h[..|BEARER_PREFIX|] == BEARER_PREFIX;
    assert h[|BEARER_PREFIX|..] == lead + token + trail;
    TrimUnique(lead, token, trail);
  }

  /** The prefix is case-sensitive and must include its space. */
  lemma PrefixIsExact()
    ensures FromBearerToken(Some("bearer abc")) == None
    ensures FromBearerToken(Some("BEARER abc")) == None
    ensures FromBearerToken(Some("Bearer")) == None
    ensures FromBearerToken(Some("Bearer\tabc")) == None
    ensures FromBearerToken(Some("Bearer  abc ")) == Some(TokenInfo(Some("abc")))
  {
    assert !StartsWith("bearer abc", BEARER_PREFIX) by { assert "bearer abc"[0] != BEARER_PREFIX[0]; }
    assert !StartsWith("BEARER abc", BEARER_PREFIX) by { assert "BEARER abc"[1] != BEARER_PREFIX[1]; }
    assert !StartsWith("Bearer\tabc", BEARER_PREFIX) by { assert "Bearer\tabc"[6] != BEARER_PREFIX[6]; }
    BearerRoundTrip(" ", "abc", " ");
    assert BEARER_PREFIX + " " + "abc" + " " == "Bearer  abc ";
  }

  /** `isValid()` fails exactly for a missing or empty token. */
  lemma ValidityCases(t: string)
    ensures !TokenInfo(None).IsValid()
    ensures !TokenInfo(Some("")).IsValid()
    ensures TokenInfo(Some(t)).IsValid() <==> t != []
  {
  }
}
