/** JSON values as the server sees them after `json.loads`, with Python's
    truthiness and `dict.get`. */
module JsonValue {

  datatype Json =
    | JNull
    | JBool(b: bool)
    | JNum(n: int)
    | JStr(s: string)
    | JArr(items: seq<Json>)
    | JObj(fields: map<string, Json>)

  /** Python's `bool(v)` on a decoded JSON value. */
  predicate Truthy(j: Json)
  {
    match j
    case JNull => false
    case JBool(b) => b
    case JNum(n) => n != 0
    case JStr(s) => s != ""
    case JArr(xs) => xs != []
    case JObj(m) => m != map[]
  }

  /** Python's `d.get(k)`: the value, or None when the key is missing. */
  function Get(fields: map<string, Json>, k: string): (v: Json)
    ensures k !in fields ==> v == JNull
  {
    if k in fields then fields[k] else JNull
  }
}
