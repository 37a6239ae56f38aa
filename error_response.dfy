/** The error envelope `{code, message, path, timestamp}` the gateway writes for its own errors. */
module ErrorResponses {
  import opened JavaLang

  /** Every field but the timestamp may be left `null` by the builder. */
  datatype ErrorResponse = ErrorResponse(
    code: Option<string>,
    message: Option<string>,
    path: Option<string>,
    timestamp: LocalDateTime)

  /**
   * `ErrorResponse.builder().build()`: code, message and path stay unset and the timestamp
   * takes its default, the current time `now`.
   */
  function Builder(now: LocalDateTime): (r: ErrorResponse)
    ensures r.code.None? && r.message.None? && r.path.None?
    ensures r.timestamp == now
  {
    ErrorResponse(None, None, None, now)
  }

  /** `ErrorResponse.of(code, message, path)`: the three texts copied unchanged, stamped with `now`. */
  function Of(code: string, message: string, path: string, now: LocalDateTime): (r: ErrorResponse)
    ensures r.code == Some(code) && r.message == Some(message) && r.path == Some(path)
    ensures r.timestamp == now
  {
    Builder(now).(code := Some(code), message := Some(message), path := Some(path))
  }

  /** Distinct arguments give distinct envelopes: `of` loses nothing it is given. */
  lemma OfInjective(c1: string, m1: string, p1: string, t1: LocalDateTime,
                    c2: string, m2: string, p2: string, t2: LocalDateTime)
    requires Of(c1, m1, p1, t1) == Of(c2, m2, p2, t2)
    ensures c1 == c2 && m1 == m2 && p1 == p2 && t1 == t2
  {
  }
}
