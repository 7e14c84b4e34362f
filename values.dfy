/**
 * The Python values the two request handlers of server.py work on: what
 * `json.loads` produces, the two ways a handler's `try` block can end in an
 * exception, and the few built-in operations (`dict.get`, truthiness,
 * `in` on a set or a list) that the normalisation code applies to them.
 */
module Values {

  datatype Option<+T> = None | Some(value: T)

  /** A JSON value as `json.loads` returns it. */
  datatype Json =
    | JNull
    | JBool(b: bool)
    | JInt(i: int)
    | JFloat(r: real)
    | JString(s: string)
    | JArray(items: seq<Json>)
    | JObject(fields: map<string, Json>)

  /** A Python `dict` decoded from a JSON object. */
  type Object = map<string, Json>

  /**
   * How a handler's `try` block can fail: `json.JSONDecodeError`, or any
   * other exception, known by its `str(e)`.
   */
  datatype Fault = Unparsable | Raised(message: string)

  datatype Result<T> = Ok(value: T) | Err(fault: Fault)

  /** `d.get(key)`: `None` when the key is missing. */
  function Get(d: Object, key: string): Option<Json>
  {
    if key in d then Some(d[key]) else None
  }

  /** `d.get(key, default)`. */
  function GetOr(d: Object, key: string, default: Json): Json
  {
    if key in d then d[key] else default
  }

  /** Python truthiness of a decoded JSON value (`if text:`). */
  predicate Truthy(v: Json)
  {
    match v
    case JNull => false
    case JBool(b) => b
    case JInt(i) => i != 0
    case JFloat(r) => r != 0.0
    case JString(s) => s != ""
    case JArray(items) => items != []
    case JObject(fields) => fields != map[]
  }

  /** Lists and dicts cannot be looked up in a Python `set`. */
  predicate Hashable(v: Json)
  {
    !v.JArray? && !v.JObject?
  }

  /** `type(v).__name__`, as it appears in the runtime's error messages. */
  function TypeName(v: Json): string
  {
    match v
    case JNull => "NoneType"
    case JBool(_) => "bool"
    case JInt(_) => "int"
    case JFloat(_) => "float"
    case JString(_) => "str"
    case JArray(_) => "list"
    case JObject(_) => "dict"
  }

  /** `v in allowed` for a hashable `v` and a set of strings. */
  predicate InSet(v: Json, allowed: set<string>)
  {
    v.JString? && v.s in allowed
  }

  /** `v in allowed` for a list of strings (compares with `==`, never hashes). */
  predicate InList(v: Json, allowed: seq<string>)
  {
    v.JString? && v.s in allowed
  }
}
