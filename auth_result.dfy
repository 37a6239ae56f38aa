/** The outcome of validating a token: an operator id on success, a reason on failure. */
module AuthResults {
  import opened JavaLang

  /** `AuthenticationResult`; its fields are final, so a result never changes once built. */
  datatype AuthenticationResult = AuthenticationResult(
    authenticated: bool,
    operatorId: Option<Long>,
    errorMessage: Option<string>)

  /** `AuthenticationResult.success(operatorId)`. */
  function Success(operatorId: Long): (r: AuthenticationResult)
    ensures r.authenticated && r.operatorId == Some(operatorId) && r.errorMessage.None?
  {
    AuthenticationResult(true, Some(operatorId), None)
  }

  /** `AuthenticationResult.failure(errorMessage)`. */
  function Failure(errorMessage: string): (r: AuthenticationResult)
    ensures !r.authenticated && r.operatorId.None? && r.errorMessage == Some(errorMessage)
  {
    AuthenticationResult(false, None, Some(errorMessage))
  }

  /** Exactly one of the id and the message is populated, as the flag says. */
  predicate WellFormed(r: AuthenticationResult)
  {
    if r.authenticated then r.operatorId.Some? && r.errorMessage.None?
    else r.operatorId.None? && r.errorMessage.Some?
  }

  /** The results the two factories build are exactly the well-formed ones. */
  lemma FactoriesAreWellFormed(r: AuthenticationResult)
    ensures WellFormed(r) <==>
      (r.authenticated && r.operatorId.Some? && r == Success(r.operatorId.value)) ||
      (!r.authenticated && r.errorMessage.Some? && r == Failure(r.errorMessage.value))
  {
  }

  /** Neither factory populates both the operator id and the error message. */
  lemma NeverBoth(id: Long, message: string)
    ensures WellFormed(Success(id)) && WellFormed(Failure(message))
    ensures Success(id) != Failure(message)
  {
  }
}
