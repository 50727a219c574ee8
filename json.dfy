/**
 * JSON values as the backend sees them after `json.loads` or `request.get_json()`:
 * Python's `None`, `bool`, `int`, `str`, `list` and `dict`.
 */
module Json {

  datatype JsonValue =
    | JNull
    | JBool(b: bool)
    | JNumber(n: int)
    | JString(s: string)
    | JArray(items: seq<JsonValue>)
    | JObject(fields: map<string, JsonValue>)

  /** `d.get(key, default)` on a dictionary. */
  function Get(fields: map<string, JsonValue>, key: string, default: JsonValue): (r: JsonValue)
    ensures key in fields ==> r == fields[key]
    ensures key !in fields ==> r == default
  {
    if key in fields then fields[key] else default
  }
}
