/**
 * The values `json.loads` produces, with the parts of Python's semantics the
 * pipeline relies on: truthiness, the `in` operator and item access on a
 * parsed value. A Python exception is an `Outcome` that `Raised`.
 */
module PyValues {
  import opened Strings

  /** A parsed JSON document. Objects are dictionaries; key order is not kept. */
  datatype Json =
    | JNull
    | JBool(b: bool)
    | JNum(n: real)
    | JStr(s: string)
    | JArr(items: seq<Json>)
    | JObj(fields: map<string, Json>)

  datatype PyError = TypeError | KeyError

  /** The result of a Python operation that may raise. */
  datatype Outcome<+T> = Ok(value: T) | Raised(error: PyError)

  /** Python's `bool(v)` for a parsed value. */
  predicate Truthy(v: Json)
  {
    match v
    case JNull => false
    case JBool(b) => b
    case JNum(n) => n != 0.0
    case JStr(s) => s != []
    case JArr(items) => items != []
    case JObj(fields) => fields != map[]
  }

  /** Python's `key in v`: key lookup on a dict, element test on a list,
      substring test on a str; a TypeError for anything else. */
  function Contains(key: string, v: Json): (r: Outcome<bool>)
    ensures v.JObj? ==> r == Ok(key in v.fields)
    ensures r.Raised? <==> !(v.JObj? || v.JArr? || v.JStr?)
  {
    match v
    case JObj(fields) => Ok(key in fields)
    case JArr(items) => Ok(JStr(key) in items)
    case JStr(s) => Ok(IsSubstring(key, s))
    case _ => Raised(TypeError)
  }

  /** Python's `v[key]` with a string key. */
  function GetItem(v: Json, key: string): (r: Outcome<Json>)
    ensures r.Ok? <==> v.JObj? && key in v.fields
    ensures r.Ok? ==> r.value == v.fields[key]
  {
    match v
    case JObj(fields) => if key in fields then Ok(fields[key]) else Raised(KeyError)
    case _ => Raised(TypeError)
  }

  /** Python's `v[key] = x` with a string key, returning the updated value. */
  function SetItem(v: Json, key: string, x: Json): (r: Outcome<Json>)
    ensures r.Ok? <==> v.JObj?
    ensures r.Ok? ==> r.value.JObj? && r.value.fields.Keys == v.fields.Keys + {key}
    ensures r.Ok? ==> r.value.fields[key] == x
    ensures r.Ok? ==> forall k :: k in v.fields && k != key ==> r.value.fields[k] == v.fields[k]
  {
    match v
    case JObj(fields) => Ok(JObj(fields[key := x]))
    case _ => Raised(TypeError)
  }
}
