/** The request and reply bodies of the identity service's token validation endpoint. */
module AuthValidate {
  import opened JavaLang

  /** `AuthValidateRequest`: `{ "token": ... }`. */
  datatype AuthValidateRequest = AuthValidateRequest(token: Option<string>)

  /** `AuthValidateResponse`: every field may be absent (`null`) in the reply. */
  datatype AuthValidateResponse = AuthValidateResponse(
    success: Option<bool>,
    operatorId: Option<Long>,
    message: Option<string>)
  {
    /** `isSuccess()`: `Boolean.TRUE.equals(success)`, so an absent flag counts as false. */
    predicate IsSuccess()
    {
      match success
      case Some(flag) => flag
      case None => false
    }
  }

  /** The flag reads true only for an explicit `true`, and ignores the other two fields. */
  lemma IsSuccessCases(r: AuthValidateResponse, id: Option<Long>, message: Option<string>)
    ensures r.IsSuccess() <==> r.success == Some(true)
    ensures !r.(success := None).IsSuccess()
    ensures !r.(success := Some(false)).IsSuccess()
    ensures r.(operatorId := id, message := message).IsSuccess() == r.IsSuccess()
  {
  }
}
