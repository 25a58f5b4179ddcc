/** The controller layer's HTTP wrapper: every call settles into an
    `ApiResponse` record instead of throwing. */
module ApiHelper {
  import opened Wrappers
  import opened JsValue

  /** A successful HTTP answer: its body and status. */
  datatype HttpResponse = HttpResponse(data: Value, status: Value)

  /** `{success, data?, error?, status?}`; None is an absent key. */
  datatype ApiResponse<T> = ApiResponse(success: bool, data: Option<T>, error: Option<Value>, status: Value)

  /** A response mapper; it may throw (a Failure). */
  type Mapper<T> = Value -> Result<T, JsError>

  /** The mapper used when none is given: the body as it is. */
  function NoMapper(): Mapper<Value> {
    json => Success(json)
  }

  /** `mapResponse(json, mapper)` */
  function MapResponse<T>(json: Value, mapper: Mapper<T>): Result<T, JsError> {
    mapper(json)
  }

  /** Without a mapper the body is passed through unchanged. */
  lemma MapWithoutMapper(json: Value)
    ensures MapResponse(json, NoMapper()) == Success(json)
  {
  }

  /** `extractErrorMessage(error)`: the server's message when truthy, else
      the error's message, else 'Network Error'. */
  function ExtractErrorMessage(e: JsError): (m: Value)
    ensures Truthy(m)
    ensures Truthy(Get(Get(e.response, "data"), "message")) ==> m == Get(Get(e.response, "data"), "message")
    ensures !Truthy(Get(Get(e.response, "data"), "message")) && Truthy(e.message) ==> m == e.message
    ensures !Truthy(Get(Get(e.response, "data"), "message")) && !Truthy(e.message) ==> m == Str("Network Error")
  {
    var server := Get(Get(e.response, "data"), "message");
    if Truthy(server) then server
    else
      assert !Truthy(e.message) ==> [e.message][1..] == [];
      FirstTruthy([e.message], Str("Network Error"))
  }

  /** `post` and `get`: the request's outcome shaped into an
      `ApiResponse`. A mapper that throws inside the `try` is reported the
      same way as a failed request. */
  function Send<T>(outcome: Result<HttpResponse, JsError>, mapper: Mapper<T>): (r: ApiResponse<T>)
    ensures r.success <==> outcome.Success? && MapResponse(outcome.value.data, mapper).Success?
    ensures r.success ==>
      r.data == Some(MapResponse(outcome.value.data, mapper).value) && r.error.None?
      && r.status == outcome.value.status
    ensures !r.success ==> r.data.None? && r.error.Some? && Truthy(r.error.value)
  {
    match outcome
    case Failure(e) => Failed(e)
    case Success(resp) =>
      match MapResponse(resp.data, mapper)
      case Success(d) => ApiResponse(true, Some(d), None, resp.status)
      case Failure(e) => Failed(e)
  }

  /** The `catch` branch: `{success: false, error: message, status}`. */
  function Failed<T>(e: JsError): (r: ApiResponse<T>)
    ensures !r.success && r.data.None? && r.error == Some(ExtractErrorMessage(e))
    ensures r.status == Get(e.response, "status")
  {
    ApiResponse(false, None, Some(ExtractErrorMessage(e)), Get(e.response, "status"))
  }
}
