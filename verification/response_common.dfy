/** The generic service envelope `ResponseCommon<T>` and its two factories.
    `Data` is an Option: None stands for C#'s `default(T)`, which is what a
    failure carries.
 */
module ResponseCommon {
  import opened Wrappers

  datatype ResponseCommon<T> = ResponseCommon(
    statusCode: int,
    isSuccess: bool,
    message: string,
    error: Option<string>,
    data: Option<T>)

  const SuccessStatus := 200
  const DefaultSuccessMessage := "Success"
  const DefaultFailureStatus := 500

  /** `ResponseCommon<T>.Success(data, message = "Success")`. */
  function Success<T>(data: T, message: string := DefaultSuccessMessage): (r: ResponseCommon<T>)
    ensures r.statusCode == 200 && r.isSuccess
    ensures r.error == None
    ensures r.data == Some(data)
    ensures r.message == message
  {
    ResponseCommon(SuccessStatus, true, message, None, Some(data))
  }

  /** `ResponseCommon<T>.Failure(message, statusCode = 500, error = null)`. */
  function Failure<T>(message: string, statusCode: int := DefaultFailureStatus,
                      error: Option<string> := None): (r: ResponseCommon<T>)
    ensures !r.isSuccess
    ensures r.data == None
    ensures r.statusCode == statusCode && r.message == message && r.error == error
  {
    ResponseCommon(statusCode, false, message, error, None)
  }

  /** Called without a message, Success says "Success". */
  lemma SuccessDefaultMessage<T>(data: T)
    ensures Success(data).message == "Success"
    ensures Success(data) == Success(data, "Success")
  {
  }

  /** Called without a status, Failure reports 500 and no error detail. */
  lemma FailureDefaults<T>(message: string)
    ensures Failure<T>(message).statusCode == 500
    ensures Failure<T>(message).error == None
    ensures Failure<T>(message) == Failure<T>(message, 500, None)
  {
  }
}
