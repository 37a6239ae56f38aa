/** The standard response wrapper `{success, code, message, data, timestamp}` and its three factories. */
module ApiResponses {
  import opened JavaLang

  datatype ApiResponse<T> = ApiResponse(
    success: bool,
    code: Option<string>,
    message: Option<string>,
    data: Option<T>,
    timestamp: LocalDateTime)

  const SUCCESS_CODE: string := "SUCCESS"
  const SUCCESS_MESSAGE: string := "Operation successful"

  /** `ApiResponse.success(data)`. */
  function Success<T>(data: Option<T>, now: LocalDateTime): (r: ApiResponse<T>)
    ensures r.success && r.code == Some("SUCCESS") && r.message == Some("Operation successful")
    ensures r.data == data && r.timestamp == now
  {
    ApiResponse(true, Some(SUCCESS_CODE), Some(SUCCESS_MESSAGE), data, now)
  }

  /** `ApiResponse.success(data, message)`. */
  function SuccessWithMessage<T>(data: Option<T>, message: string, now: LocalDateTime): (r: ApiResponse<T>)
    ensures r.success && r.code == Some("SUCCESS") && r.message == Some(message)
    ensures r.data == data && r.timestamp == now
  {
    ApiResponse(true, Some(SUCCESS_CODE), Some(message), data, now)
  }

  /** `ApiResponse.error(code, message)`: never successful and never carries data. */
  function Error<T>(code: string, message: string, now: LocalDateTime): (r: ApiResponse<T>)
    ensures !r.success && r.data.None?
    ensures r.code == Some(code) && r.message == Some(message) && r.timestamp == now
  {
    ApiResponse(false, Some(code), Some(message), None, now)
  }

  /** `success(data)` is `success(data, message)` with the standard message. */
  lemma SuccessIsDefaultMessage<T>(data: Option<T>, now: LocalDateTime)
    ensures Success(data, now) == SuccessWithMessage(data, SUCCESS_MESSAGE, now)
  {
  }

  /**
   * The success flag tells the factories apart: an error response is never equal to a
   * success response, whatever code and message it is given.
   */
  lemma FlagSeparatesFactories<T>(data: Option<T>, message: string, code: string, text: string, now: LocalDateTime)
    ensures Error<T>(code, text, now) != Success(data, now)
    ensures Error<T>(code, text, now) != SuccessWithMessage(data, message, now)
  {
  }
}
