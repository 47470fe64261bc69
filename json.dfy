/**
 * The values `json.loads` produces, as far as the handlers inspect them, and the
 * parser itself as an oracle: the handlers receive `parse: string -> ParseResult`.
 */
module Json {

  /** A decoded JSON document: `None`, `bool`, `int`, `str`, `list` or `dict`. */
  datatype Json =
    | JNull
    | JBool(b: bool)
    | JNumber(n: int)
    | JString(s: string)
    | JArray(items: seq<Json>)
    | JObject(fields: map<string, Json>)

  /** Python truthiness of a decoded value (`if not x:`). */
  predicate Truthy(v: Json) {
    match v
    case JNull => false
    case JBool(b) => b
    case JNumber(n) => n != 0
    case JString(s) => s != ""
    case JArray(items) => items != []
    case JObject(fields) => fields != map[]
  }

  /** `d.get(key)` on a decoded object: the member, or `None` when the key is absent. */
  function Get(fields: map<string, Json>, key: string): (v: Json)
    ensures key !in fields ==> v == JNull
    ensures key in fields ==> v == fields[key]
  {
    if key in fields then fields[key] else JNull
  }

  /** The Python type name of a decoded value, as it appears in an `AttributeError` message. */
  function TypeName(v: Json): string {
    match v
    case JNull => "NoneType"
    case JBool(_) => "bool"
    case JNumber(_) => "int"
    case JString(_) => "str"
    case JArray(_) => "list"
    case JObject(_) => "dict"
  }

  /** `str(e)` of the `AttributeError` raised by calling `.get` on a value that is not a `dict`. */
  function NoGetMessage(v: Json): string {
    "'" + TypeName(v) + "' object has no attribute 'get'"
  }

  /** What `json.loads(text)` does: return a value, or raise `JSONDecodeError` with a message. */
  datatype ParseResult = Parsed(value: Json) | DecodeError(message: string)
}
