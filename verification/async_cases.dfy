/** The three-phase life of an asynchronous thunk as the slices record it:
    `pending`, then exactly one of `fulfilled` or `rejected`. Two wrappers
    exist: the shared `addAsyncCases` (error reset to null on pending and on
    fulfilled, rejected message from the error-message chain) and the
    project slice's own `handleAsyncThunk` (error reset to undefined on
    pending only, rejected message `payload || error.message || default`). */
module AsyncCases {
  import opened Wrappers
  import opened JsValue

  /** What a reducer sees of a rejected action: `action.payload` and
      `action.error.message`. */
  datatype Rejection = Rejection(payload: Value, errorMessage: Value)

  /** `rejectWithValue(v)`: redux-toolkit puts `v` in the payload and the
      string 'Rejected' in `error.message`. */
  function RejectedWithValue(v: Value): Rejection {
    Rejection(v, Str("Rejected"))
  }

  /** A thunk that threw `e`: no payload, and the serialised error keeps
      `message` only when it is a string. */
  function RejectedByThrow(e: JsError): Rejection {
    Rejection(Undefined, if e.message.Str? then e.message else Undefined)
  }

  /** The value the slices' thunks hand to `rejectWithValue`:
      `error.response?.data?.message || error.message || fallback`. */
  function ThunkRejectValue(e: JsError, fallback: string): (v: Value)
    ensures fallback != "" ==> Truthy(v)
  {
    FirstTruthy([Get(Get(e.response, "data"), "message"), e.message], Str(fallback))
  }

  /** An error thrown with `new Error(m)` for a non-empty `m` is rejected
      with `m` itself. */
  lemma ThunkRejectOfNewError(m: string, fallback: string)
    requires m != ""
    ensures ThunkRejectValue(NewError(m), fallback) == Str(m)
  {
    var vs := [Get(Get(Undefined, "data"), "message"), Str(m)];
    assert Get(Undefined, "data") == Undefined && !Truthy(vs[0]);
    assert vs[1..] == [Str(m)];
    assert FirstTruthy(vs, Str(fallback)) == FirstTruthy([Str(m)], Str(fallback));
  }

  /** The `loading` and `error` fields every slice state carries. */
  datatype Status = Status(loading: bool, error: Value)

  const DefaultMessage: string := "Something went wrong"

  /** The first server message of a backend error payload: `_server_messages`
      is a JSON array of JSON-encoded message objects. None when any step
      throws (a parse failure, or reading `.message` of null) or when the
      array is empty or not an array; the caller then falls through. */
  function ServerMessage(payload: Value, parse: JsonParser): (m: Option<Value>)
    ensures m.Some? ==> Truthy(m.value)
  {
    match parse(ToText(Get(payload, "_server_messages")))
    case Failure(_) => None
    case Success(messages) =>
      if messages.Arr? && |messages.items| > 0 then
        match parse(ToText(messages.items[0]))
        case Failure(_) => None
        case Success(first) =>
          match Member(first, "message")
          case None => None
          case Some(text) =>
            Some(FirstTruthy([text, Get(payload, "exception")], Str("Operation failed")))
      else None
  }

  /** `getErrorMessage(payload, error)`: a string payload verbatim, else the
      payload's message, else the first server message, else the payload's
      exception, else the error's message, else the default. It always
      yields a value: a string payload or a truthy one. */
  function ErrorMessage(payload: Value, errorMessage: Value, parse: JsonParser): (r: Value)
    ensures payload.Str? ==> r == payload
    ensures !payload.Str? ==> Truthy(r)
  {
    if payload.Str? then payload
    else if Truthy(Get(payload, "message")) then Get(payload, "message")
    else
      var fromServer :=
        if Truthy(Get(payload, "_server_messages")) then ServerMessage(payload, parse) else None;
      if fromServer.Some? then fromServer.value
      else FirstTruthy([Get(payload, "exception"), errorMessage], Str(DefaultMessage))
  }

  /** The payload with its `_server_messages` property removed. */
  function WithoutServerMessages(payload: Value): Value {
    if payload.Obj? then Obj(payload.fields - {"_server_messages"}) else payload
  }

  /** A `_server_messages` field that does not parse, is not a non-empty
      array, or whose first entry does not parse, is ignored entirely: the
      message is what it would be without that field. */
  lemma UnusableServerMessagesFallThrough(payload: Value, errorMessage: Value, parse: JsonParser)
    requires ServerMessage(payload, parse).None?
    ensures ErrorMessage(payload, errorMessage, parse)
         == ErrorMessage(WithoutServerMessages(payload), errorMessage, parse)
  {
    var q := WithoutServerMessages(payload);
    assert Get(q, "message") == Get(payload, "message");
    assert Get(q, "exception") == Get(payload, "exception");
    assert Get(q, "_server_messages") == Undefined;
  }

  /** A truthy `message` of a non-string payload is the result, before any
      server message, exception or error message is looked at. */
  lemma PayloadMessageWins(payload: Value, errorMessage: Value, parse: JsonParser)
    requires !payload.Str? && Truthy(Get(payload, "message"))
    ensures ErrorMessage(payload, errorMessage, parse) == Get(payload, "message")
  {
  }

  /** With no payload message and no usable server message, a truthy
      `exception` of the payload is the result; the error's own message is
      not consulted. */
  lemma ExceptionBeforeErrorMessage(payload: Value, errorMessage: Value, parse: JsonParser)
    requires !payload.Str? && !Truthy(Get(payload, "message"))
    requires ServerMessage(payload, parse).None? || !Truthy(Get(payload, "_server_messages"))
    requires Truthy(Get(payload, "exception"))
    ensures ErrorMessage(payload, errorMessage, parse) == Get(payload, "exception")
  {
  }

  /** A parsed first server message with a truthy `message` wins over the
      payload's exception and over the error's message. */
  lemma ServerMessageWins(payload: Value, errorMessage: Value, parse: JsonParser, messages: seq<Value>, first: Value)
    requires !payload.Str? && !Truthy(Get(payload, "message"))
    requires Truthy(Get(payload, "_server_messages"))
    requires parse(ToText(Get(payload, "_server_messages"))) == Success(Arr(messages))
    requires |messages| > 0 && parse(ToText(messages[0])) == Success(first)
    requires Truthy(Get(first, "message"))
    ensures ErrorMessage(payload, errorMessage, parse) == Get(first, "message")
  {
  }

  /** When the first server message has no message text, the result is the
      payload's exception or 'Operation failed'; the error's own message is
      never consulted on that path. */
  lemma ServerMessageWithoutTextSkipsErrorMessage(payload: Value, errorMessage: Value, parse: JsonParser, messages: seq<Value>, first: Value)
    requires !payload.Str? && !Truthy(Get(payload, "message"))
    requires Truthy(Get(payload, "_server_messages"))
    requires parse(ToText(Get(payload, "_server_messages"))) == Success(Arr(messages))
    requires |messages| > 0 && parse(ToText(messages[0])) == Success(first)
    requires !Nullish(first) && !Truthy(Get(first, "message"))
    ensures ErrorMessage(payload, errorMessage, parse)
         == FirstTruthy([Get(payload, "exception")], Str("Operation failed"))
  {
  }

  /** With no usable message anywhere in a non-string payload, the error's
      message is used, and the default only when that is falsy too. */
  lemma ErrorMessageLastResorts(payload: Value, errorMessage: Value, parse: JsonParser)
    requires !payload.Str? && !Truthy(Get(payload, "message"))
    requires ServerMessage(payload, parse).None? || !Truthy(Get(payload, "_server_messages"))
    requires !Truthy(Get(payload, "exception"))
    ensures Truthy(errorMessage) ==> ErrorMessage(payload, errorMessage, parse) == errorMessage
    ensures !Truthy(errorMessage) ==> ErrorMessage(payload, errorMessage, parse) == Str(DefaultMessage)
  {
    var vs := [Get(payload, "exception"), errorMessage];
    assert ErrorMessage(payload, errorMessage, parse) == FirstTruthy(vs, Str(DefaultMessage));
    assert !Truthy(vs[0]) && vs[1..] == [errorMessage];
    assert FirstTruthy(vs, Str(DefaultMessage)) == FirstTruthy([errorMessage], Str(DefaultMessage));
    assert [errorMessage][1..] == [];
  }

  // ---- addAsyncCases ----

  function AddAsyncPending(): Status {
    Status(true, Null)
  }

  function AddAsyncFulfilled(): Status {
    Status(false, Null)
  }

  function AddAsyncRejected(r: Rejection, parse: JsonParser): (s: Status)
    ensures !s.loading && !Nullish(s.error)
  {
    Status(false, ErrorMessage(r.payload, r.errorMessage, parse))
  }

  /** A thunk of the slices that failed with `e` leaves the string it
      computed as the slice's error whenever that value is a string. */
  lemma ThunkFailureMessageRecorded(e: JsError, fallback: string, parse: JsonParser)
    requires ThunkRejectValue(e, fallback).Str?
    ensures AddAsyncRejected(RejectedWithValue(ThunkRejectValue(e, fallback)), parse).error
         == ThunkRejectValue(e, fallback)
  {
  }

  // ---- handleAsyncThunk (project slice) ----

  function HandlePending(): Status {
    Status(true, Undefined)
  }

  /** Fulfilled clears `loading` but keeps whatever `error` holds. */
  function HandleFulfilled(before: Status): (s: Status)
    ensures !s.loading && s.error == before.error
  {
    Status(false, before.error)
  }

  function HandleRejected(r: Rejection): (s: Status)
    ensures !s.loading && Truthy(s.error)
    ensures Truthy(r.payload) ==> s.error == r.payload
  {
    Status(false, FirstTruthy([r.payload, r.errorMessage], Str(DefaultMessage)))
  }
}
