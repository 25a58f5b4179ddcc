/** The login call of the controller layer: the `ApiResponse` of the login
    POST turned into a user or a thrown error. */
module AuthRemote {
  import opened Wrappers
  import opened JsValue
  import opened ApiHelper
  import opened UserModel

  /** The mapper `User.fromJson`; on a null or undefined body it throws a
      TypeError whose text, chosen by the JavaScript engine, is a parameter. */
  function UserMapper(typeErrorText: string): Mapper<User> {
    json => match FromJson(json)
            case Some(u) => Success(u)
            case None => Failure(NewError(typeErrorText))
  }

  /** `if (!response.success || !response.data) throw new Error(response.error || 'Login failed')`,
      else `response.data`. A `User` instance is always truthy. */
  function CheckLogin(response: ApiResponse<User>): (r: Result<User, JsError>)
    ensures r.Success? <==> response.success && response.data.Some?
    ensures r.Success? ==> r.value == response.data.value
    ensures r.Failure? ==> r.error.response == Undefined && r.error.message.Str?
    ensures r.Failure? && (response.error.None? || !Truthy(response.error.value)) ==>
      r.error.message == Str("Login failed")
    ensures r.Failure? && response.error.Some? && response.error.value.Str? && Truthy(response.error.value) ==>
      r.error.message == response.error.value
  {
    if !response.success || response.data.None? then
      var m := ToText(FirstTruthy([response.error.GetOr(Undefined)], Str("Login failed")));
      LoginFailedText(response.error.GetOr(Undefined));
      Failure(NewError(m))
    else Success(response.data.value)
  }

  /** A falsy `error` becomes 'Login failed'; a truthy one is kept. */
  lemma LoginFailedText(error: Value)
    ensures !Truthy(error) ==> ToText(FirstTruthy([error], Str("Login failed"))) == "Login failed"
    ensures Truthy(error) ==> FirstTruthy([error], Str("Login failed")) == error
  {
    if !Truthy(error) {
      assert [error][1..] == [];
    }
  }

  /** `login(username, password)` given the POST's outcome. */
  function Login(outcome: Result<HttpResponse, JsError>, typeErrorText: string): (r: Result<User, JsError>)
    ensures r.Success? <==> outcome.Success? && !Nullish(outcome.value.data)
    ensures r.Success? ==> Some(r.value) == FromJson(outcome.value.data)
  {
    CheckLogin(Send(outcome, UserMapper(typeErrorText)))
  }

  /** A failed request's server message reaches the thrown error. */
  lemma ServerMessageReachesCaller(e: JsError, typeErrorText: string)
    requires Get(Get(e.response, "data"), "message").Str?
    requires Get(Get(e.response, "data"), "message").s != ""
    ensures Login(Failure(e), typeErrorText).error.message == Get(Get(e.response, "data"), "message")
  {
  }
}
