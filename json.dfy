/**
 * JSON values as org.json hands them over once the text has been parsed (RFC 7946
 * feeds are ordinary JSON). Parsing the text is not modelled: callers receive the
 * parser as a function. The accessors below follow the JSONObject methods the decoder
 * calls: get* yields None where org.json throws JSONException, opt* yields the value
 * when the key holds a value of the requested kind and the fallback otherwise.
 */
module Json {
  import opened Wrappers
  import opened Numbers

  datatype Value =
    | Null
    | Bool(b: bool)
    | Number(n: real)
    | Str(s: string)
    | Array(elements: seq<Value>)
    | Object(members: map<string, Value>)

  /** JSONObject.getJSONObject(key) */
  function GetObject(obj: map<string, Value>, key: string): Option<map<string, Value>>
  {
    if key in obj && obj[key].Object? then Some(obj[key].members) else None
  }

  /** JSONObject.getJSONArray(key) */
  function GetArray(obj: map<string, Value>, key: string): Option<seq<Value>>
  {
    if key in obj && obj[key].Array? then Some(obj[key].elements) else None
  }

  /** JSONObject.optString(key), whose fallback is the empty string */
  function OptString(obj: map<string, Value>, key: string): string
  {
    if key in obj && obj[key].Str? then obj[key].s else ""
  }

  /** JSONObject.optLong(key), whose fallback is 0; a number is cast as Number.longValue does */
  function OptLong(obj: map<string, Value>, key: string): int
  {
    if key in obj && obj[key].Number? then ToLong(obj[key].n) else 0
  }

  /** JSONObject.optDouble(key), whose fallback is NaN */
  function OptDouble(obj: map<string, Value>, key: string): Double
  {
    if key in obj && obj[key].Number? then Finite(obj[key].n) else NaN
  }
}
