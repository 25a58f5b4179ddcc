/** The shared HTTP client's pure parts: the development-delay switch, the
    normalisation of a backend error body, and the error the response
    interceptor rejects with. */
module AxiosInstance {
  import opened Wrappers
  import opened JsValue
  import opened AsyncCases
  import Text

  /** `DELAY_ENDPOINTS`: empty, meaning every endpoint. */
  const DelayEndpoints: seq<string> := []

  /** `shouldDelay(url = '')` with the development flag and the endpoint
      list as parameters; an undefined url is the empty string. */
  function ShouldDelay(enableDelay: bool, endpoints: seq<string>, url: Option<string>): (r: bool)
    ensures !enableDelay ==> !r
    ensures enableDelay && |endpoints| == 0 ==> r
    ensures enableDelay && |endpoints| > 0 ==>
      (r <==> exists i :: 0 <= i < |endpoints| && Text.Contains(url.GetOr(""), endpoints[i]))
  {
    if !enableDelay then false
    else if |endpoints| == 0 then true
    else exists i :: 0 <= i < |endpoints| && Text.Contains(url.GetOr(""), endpoints[i])
  }

  /** With the configured empty list the delay applies exactly in
      development builds. */
  lemma ConfiguredDelay(dev: bool, url: Option<string>)
    ensures ShouldDelay(dev, DelayEndpoints, url) == dev
  {
  }

  /** The own properties an object spread `...v` contributes. Spreading a
      string or an array would add index keys; that is not modelled. */
  function Spread(v: Value): map<string, Value> {
    if v.Obj? then v.fields else map[]
  }

  /** `extractFrappeError(errorData)`: never throws; a parse failure or an
      unusable first message falls through to the generic shape. */
  function ExtractFrappeError(errorData: Value, parse: JsonParser): (r: Value)
    ensures r.Obj?
    ensures !Truthy(errorData) ==> r == Obj(map["message" := Str("No error data received")])
  {
    if !Truthy(errorData) then Obj(map["message" := Str("No error data received")])
    else
      match FirstServerMessage(errorData, parse)
      case Some(first) =>
        Obj(map["message" := Get(first, "message"), "title" := Get(first, "title"),
                "indicator" := Get(first, "indicator")] + Spread(errorData))
      case None =>
        Obj(map["message" := FirstTruthy([Get(errorData, "message"), Get(errorData, "exception")],
                                         Str("Unknown Frappe error")),
                "exception" := Get(errorData, "exception"),
                "exc_type" := Get(errorData, "exc_type"),
                "exc" := Get(errorData, "exc"),
                "_server_messages" := Get(errorData, "_server_messages")] + Spread(errorData))
  }

  /** The parsed first entry of a truthy `_server_messages`, when both
      parses succeed, the outer value is a non-empty array and the entry is
      not null or undefined (reading `.message` of it would throw). */
  function FirstServerMessage(errorData: Value, parse: JsonParser): (m: Option<Value>)
    ensures m.Some? ==> !Nullish(m.value) && Truthy(Get(errorData, "_server_messages"))
  {
    if !Truthy(Get(errorData, "_server_messages")) then None
    else
      match parse(ToText(Get(errorData, "_server_messages")))
      case Failure(_) => None
      case Success(messages) =>
        if messages.Arr? && |messages.items| > 0 then
          match parse(ToText(messages.items[0]))
          case Failure(_) => None
          case Success(first) => if Nullish(first) then None else Some(first)
        else None
  }

  /** On the server-message path `message`, `title` and `indicator` come
      from the first entry unless the error body has its own property of
      that name, which wins; every property of the body is kept. */
  lemma ServerMessageShape(errorData: Value, parse: JsonParser, key: string)
    requires Truthy(errorData) && errorData.Obj?
    requires FirstServerMessage(errorData, parse).Some?
    requires key in {"message", "title", "indicator"}
    ensures var first := FirstServerMessage(errorData, parse).value;
      Get(ExtractFrappeError(errorData, parse), key)
        == if key in errorData.fields then errorData.fields[key] else Get(first, key)
    ensures forall k :: k in errorData.fields ==> Get(ExtractFrappeError(errorData, parse), k) == errorData.fields[k]
  {
  }

  /** On the generic path the message is the body's own `message` property
      when it has one, even a falsy one, because the spread comes last;
      otherwise `exception`, else 'Unknown Frappe error'. */
  lemma GenericMessage(errorData: Value, parse: JsonParser)
    requires Truthy(errorData) && FirstServerMessage(errorData, parse).None?
    ensures Get(ExtractFrappeError(errorData, parse), "message")
         == if errorData.Obj? && "message" in errorData.fields then errorData.fields["message"]
            else FirstTruthy([Get(errorData, "exception")], Str("Unknown Frappe error"))
  {
    if !(errorData.Obj? && "message" in errorData.fields) {
      var vs := [Get(errorData, "message"), Get(errorData, "exception")];
      assert !Truthy(vs[0]) && vs[1..] == [Get(errorData, "exception")];
    }
  }

  /** A body whose `_server_messages` cannot be used gives the same result
      as one without that field, apart from the copied field itself. */
  lemma UnusableServerMessagesIgnored(errorData: Value, parse: JsonParser)
    requires Truthy(errorData) && FirstServerMessage(errorData, parse).None?
    ensures var r := ExtractFrappeError(errorData, parse);
      Get(r, "_server_messages") == Get(errorData, "_server_messages")
      && Get(r, "exception") == Get(errorData, "exception")
  {
  }

  /** The message of the enhanced error. */
  function EnhancedMessage(frappeError: Value): (m: string)
    ensures |m| > 7 && m[..7] == "Frappe "
  {
    "Frappe " + ToText(FirstTruthy([Get(frappeError, "exc_type")], Str("Error"))) + ": "
      + ToText(FirstTruthy([Get(frappeError, "exception"), Get(frappeError, "message")], Str("Unknown error")))
  }

  /** The message reads 'Frappe <type>: <detail>'. The type is `exc_type`
      when that is truthy, else 'Error'. The detail is `exception` when
      truthy, else a truthy `message`, else 'Unknown error'. */
  lemma EnhancedMessageParts(frappeError: Value)
    ensures var excType := Get(frappeError, "exc_type");
      var exception := Get(frappeError, "exception");
      var message := Get(frappeError, "message");
      var kind := if Truthy(excType) then ToText(excType) else "Error";
      var detail := if Truthy(exception) then ToText(exception)
                    else if Truthy(message) then ToText(message) else "Unknown error";
      EnhancedMessage(frappeError) == "Frappe " + kind + ": " + detail
  {
    var ks := [Get(frappeError, "exc_type")];
    assert ks[1..] == [];
    var ds := [Get(frappeError, "exception"), Get(frappeError, "message")];
    assert ds[1..] == [Get(frappeError, "message")];
    assert ds[1..][1..] == [];
    var k := FirstTruthy(ks, Str("Error"));
    assert k == if Truthy(ks[0]) then ks[0] else Str("Error");
    assert ToText(Str("Error")) == "Error" && ToText(Str("Unknown error")) == "Unknown error";
    var d := FirstTruthy(ds, Str("Unknown error"));
    assert d == if Truthy(ds[0]) then ds[0] else if Truthy(ds[1]) then ds[1] else Str("Unknown error");
  }

  /** The response interceptor's error path, for an error as axios rejects
      it (its message and, for a server answer, the response with its
      `data`): an error with a response is
      replaced by a new error carrying only the composed message (the
      response is not attached); any other error passes through. */
  function InterceptError(e: JsError, parse: JsonParser): (r: JsError)
    ensures Truthy(e.response) ==>
      r == NewError(EnhancedMessage(ExtractFrappeError(Get(e.response, "data"), parse)))
    ensures !Truthy(e.response) ==> r == JsError(e.message, e.response)
  {
    if Truthy(e.response) then NewError(EnhancedMessage(ExtractFrappeError(Get(e.response, "data"), parse)))
    else JsError(e.message, e.response)
  }

  /** Because no error leaving the interceptor has a response with data,
      the slices' `error.response?.data?.message` is always undefined and
      their reject value is `error.message || fallback`. */
  lemma SlicesSeeOnlyTheMessage(e: JsError, parse: JsonParser, fallback: string)
    ensures Get(Get(InterceptError(e, parse).response, "data"), "message") == Undefined
    ensures ThunkRejectValue(InterceptError(e, parse), fallback)
         == FirstTruthy([InterceptError(e, parse).message], Str(fallback))
  {
    var r := InterceptError(e, parse);
    assert !r.response.Obj?;
    var vs := [Get(Get(r.response, "data"), "message"), r.message];
    assert !Truthy(vs[0]) && vs[1..] == [r.message];
  }
}
