/** The dynamically typed values the application reads from responses,
    payloads and errors, with the JavaScript operators it applies to them:
    truthiness, `||`, `??`, optional chaining `?.`, plain member access
    (which throws on `null`/`undefined`) and conversion to a string. */
module JsValue {
  import opened Wrappers
  import Text

  /** A JavaScript value as it arrives from JSON or from a thrown error.
      Numbers are integers here: fractional numbers and NaN are not modelled. */
  datatype Value =
    | Undefined
    | Null
    | Bool(b: bool)
    | Num(n: int)
    | Str(s: string)
    | Arr(items: seq<Value>)
    | Obj(fields: map<string, Value>)

  /** A thrown error object: its `message` and `response` properties.
      Every throw site in the modelled code throws an object. */
  datatype JsError = JsError(message: Value, response: Value)

  /** `JSON.parse`, left abstract: it either yields a value or throws. */
  type JsonParser = string -> Result<Value, JsError>

  /** `new Error(message)`: an error without a response. */
  function NewError(message: string): JsError {
    JsError(Str(message), Undefined)
  }

  /** JavaScript truthiness. */
  predicate Truthy(v: Value) {
    match v
    case Undefined => false
    case Null => false
    case Bool(b) => b
    case Num(n) => n != 0
    case Str(s) => s != ""
    case Arr(_) => true
    case Obj(_) => true
  }

  predicate Nullish(v: Value) {
    v.Undefined? || v.Null?
  }

  /** `a ?? b` */
  function Coalesce(a: Value, b: Value): Value {
    if Nullish(a) then b else a
  }

  /** `vs[0] || vs[1] || ... || fallback`: the first truthy candidate in
      order, or the fallback when every candidate is falsy. */
  function FirstTruthy(vs: seq<Value>, fallback: Value): (r: Value)
    ensures (exists i :: 0 <= i < |vs| && Truthy(vs[i]) && r == vs[i]
               && forall j :: 0 <= j < i ==> !Truthy(vs[j]))
         || ((forall j :: 0 <= j < |vs| ==> !Truthy(vs[j])) && r == fallback)
    decreases |vs|
  {
    if |vs| == 0 then fallback
    else if Truthy(vs[0]) then vs[0]
    else
      var r := FirstTruthy(vs[1..], fallback);
      assert forall j :: 1 <= j < |vs| ==> vs[j] == vs[1..][j - 1];
      r
  }

  /** `v?.key`: the property of an object, `undefined` for anything else.
      Only named own properties are modelled; none of the keys the
      application reads is a property of strings, arrays or prototypes. */
  function Get(v: Value, key: string): Value {
    if v.Obj? && key in v.fields then v.fields[key] else Undefined
  }

  /** `v.key` without optional chaining: throws (None) on null/undefined. */
  function Member(v: Value, key: string): Option<Value> {
    if Nullish(v) then None else Some(Get(v, key))
  }

  /** The decimal digits of a natural number, as `String(n)` writes them. */
  function NatText(n: nat): string
    decreases n
  {
    var d := [(('0' as int) + n % 10) as char];
    if n < 10 then d else NatText(n / 10) + d
  }

  /** `String(v)`, also what a template literal `${v}` and `new Error(v)` produce. */
  function ToText(v: Value): string
    decreases v
  {
    match v
    case Undefined => "undefined"
    case Null => "null"
    case Bool(b) => if b then "true" else "false"
    case Num(n) => if n < 0 then "-" + NatText(-n) else NatText(n)
    case Str(s) => s
    case Arr(items) =>
      Text.Join(seq(|items|, i requires 0 <= i < |items| =>
                     if Nullish(items[i]) then "" else ToText(items[i])), ",")
    case Obj(_) => "[object Object]"
  }
}
