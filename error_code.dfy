/** The gateway's closed table of error kinds: HTTP status, stable code and default message. */
module ErrorCodes {
  import opened JavaLang

  datatype ErrorCode =
    | UNAUTHORIZED
    | FORBIDDEN
    | NOT_FOUND
    | INTERNAL_ERROR
    | BAD_GATEWAY
    | SERVICE_UNAVAILABLE
  {
    /** `getHttpStatus()`: always a client or server error status. */
    function HttpStatus(): (status: int)
      ensures 400 <= status <= 599
    {
      match this
      case UNAUTHORIZED => 401
      case FORBIDDEN => 403
      case NOT_FOUND => 404
      case INTERNAL_ERROR => 500
      case BAD_GATEWAY => 502
      case SERVICE_UNAVAILABLE => 503
    }

    /** `getCode()`. */
    function Code(): string
    {
      match this
      case UNAUTHORIZED => "UNAUTHORIZED"
      case FORBIDDEN => "FORBIDDEN"
      case NOT_FOUND => "NOT_FOUND"
      case INTERNAL_ERROR => "INTERNAL_ERROR"
      case BAD_GATEWAY => "BAD_GATEWAY"
      case SERVICE_UNAVAILABLE => "SERVICE_UNAVAILABLE"
    }

    /** `getDefaultMessage()`. */
    function DefaultMessage(): string
    {
      match this
      case UNAUTHORIZED => "Authentication required"
      case FORBIDDEN => "Access denied"
      case NOT_FOUND => "Resource not found"
      case INTERNAL_ERROR => "Internal server error"
      case BAD_GATEWAY => "Bad gateway"
      case SERVICE_UNAVAILABLE => "Service temporarily unavailable"
    }

    /** `name()`: the identifier the constant is declared with. */
    function Name(): string
    {
      match this
      case UNAUTHORIZED => "UNAUTHORIZED"
      case FORBIDDEN => "FORBIDDEN"
      case NOT_FOUND => "NOT_FOUND"
      case INTERNAL_ERROR => "INTERNAL_ERROR"
      case BAD_GATEWAY => "BAD_GATEWAY"
      case SERVICE_UNAVAILABLE => "SERVICE_UNAVAILABLE"
    }
  }

  /** `ErrorCode.values()`, in declaration order. */
  function Values(): (vs: seq<ErrorCode>)
    ensures |vs| == 6
    ensures forall e: ErrorCode :: e in vs
  {
    EveryConstantListed();
    [UNAUTHORIZED, FORBIDDEN, NOT_FOUND, INTERNAL_ERROR, BAD_GATEWAY, SERVICE_UNAVAILABLE]
  }

  lemma EveryConstantListed()
    ensures forall e: ErrorCode ::
      e in [UNAUTHORIZED, FORBIDDEN, NOT_FOUND, INTERNAL_ERROR, BAD_GATEWAY, SERVICE_UNAVAILABLE]
  {
    var vs := [UNAUTHORIZED, FORBIDDEN, NOT_FOUND, INTERNAL_ERROR, BAD_GATEWAY, SERVICE_UNAVAILABLE];
    forall e: ErrorCode ensures e in vs {
      if e.UNAUTHORIZED? { assert vs[0] == e; }
      else if e.FORBIDDEN? { assert vs[1] == e; }
      else if e.NOT_FOUND? { assert vs[2] == e; }
      else if e.INTERNAL_ERROR? { assert vs[3] == e; }
      else if e.BAD_GATEWAY? { assert vs[4] == e; }
      else { assert vs[5] == e; }
    }
  }

  /** The first constant of `vs` whose status is `status`. */
  function FindStatus(vs: seq<ErrorCode>, status: int): (r: Option<ErrorCode>)
    ensures r.Some? ==> r.value in vs && r.value.HttpStatus() == status
    ensures r.None? ==> forall e :: e in vs ==> e.HttpStatus() != status
  {
    if vs == [] then None
    else if vs[0].HttpStatus() == status then Some(vs[0])
    else FindStatus(vs[1..], status)
  }

  /** The first constant of `vs` called `name`. */
  function FindName(vs: seq<ErrorCode>, name: string): (r: Option<ErrorCode>)
    ensures r.Some? ==> r.value in vs && r.value.Name() == name
    ensures r.None? ==> forall e :: e in vs ==> e.Name() != name
  {
    if vs == [] then None
    else if vs[0].Name() == name then Some(vs[0])
    else FindName(vs[1..], name)
  }

  /** The constant carrying a given HTTP status, if any. */
  function FromStatus(status: int): Option<ErrorCode>
  {
    FindStatus(Values(), status)
  }

  /** `ErrorCode.valueOf(name)`; `None` where Java throws `IllegalArgumentException`. */
  function ValueOf(name: string): Option<ErrorCode>
  {
    FindName(Values(), name)
  }

  /** The table: six constants whose statuses, in order, are 401, 403, 404, 500, 502, 503. */
  lemma Table()
    ensures |Values()| == 6
    ensures forall i :: 0 <= i < 6 ==> Values()[i].HttpStatus() == [401, 403, 404, 500, 502, 503][i]
    ensures forall i :: 0 <= i < 6 ==> Values()[i].Code() == Values()[i].Name()
  {
  }

  /** The statuses are pairwise distinct: the status determines the constant. */
  lemma StatusDeterminesCode(e: ErrorCode)
    ensures FromStatus(e.HttpStatus()) == Some(e)
  {
  }

  /** A status lookup that succeeds names a constant with exactly that status. */
  lemma FromStatusSound(status: int)
    ensures FromStatus(status).Some? ==> FromStatus(status).value.HttpStatus() == status
    ensures FromStatus(status).None? <==> status !in {401, 403, 404, 500, 502, 503}
  {
  }

  /** Each constant's code is its own name, so `valueOf(code)` gives the constant back. */
  lemma CodeIsName(e: ErrorCode)
    ensures e.Code() == e.Name()
    ensures ValueOf(e.Code()) == Some(e)
  {
  }

  /** The default messages of the table. */
  lemma DefaultMessages()
    ensures UNAUTHORIZED.DefaultMessage() == "Authentication required"
    ensures FORBIDDEN.DefaultMessage() == "Access denied"
    ensures NOT_FOUND.DefaultMessage() == "Resource not found"
    ensures INTERNAL_ERROR.DefaultMessage() == "Internal server error"
    ensures BAD_GATEWAY.DefaultMessage() == "Bad gateway"
    ensures SERVICE_UNAVAILABLE.DefaultMessage() == "Service temporarily unavailable"
  {
  }
}
