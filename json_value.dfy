/** The value `json.loads` produces: Python's dict, list, str, number, bool and None. */
module JsonValue {

  /** Numbers are kept as reals: the model only asks whether a number is zero. */
  datatype Json =
    | JNull
    | JBool(b: bool)
    | JNumber(n: real)
    | JString(s: string)
    | JArray(items: seq<Json>)
    | JObject(fields: map<string, Json>)

  /** A Python `dict` with string keys. */
  type Dict = map<string, Json>

  /** Python's truth value of a decoded value, as `if x:` tests it:
      None, False, zero, "", [] and {} are false, everything else true. */
  predicate Truthy(j: Json)
    ensures j.JNull? ==> !Truthy(j)
    ensures j.JString? ==> (Truthy(j) <==> |j.s| > 0)
    ensures j.JArray? ==> (Truthy(j) <==> |j.items| > 0)
    ensures j.JObject? ==> (Truthy(j) <==> |j.fields| > 0)
  {
    match j
    case JNull => false
    case JBool(b) => b
    case JNumber(n) => n != 0.0
    case JString(s) => s != ""
    case JArray(items) => items != []
    case JObject(fields) => fields != map[]
  }

  /** `d.get(key)`: the value under `key`, or None when the key is absent. */
  function Get(d: Dict, key: string): (r: Json)
    ensures key in d ==> r == d[key]
    ensures key !in d ==> r == JNull
  {
    if key in d then d[key] else JNull
  }
}
