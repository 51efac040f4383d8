/**
 * What the serverless functions receive and return: parsed JSON values, with
 * JavaScript's truthiness and property access, and a response status paired
 * with a body.
 */
module Http {
  import opened Wrappers

  /** A value `JSON.parse` can produce. Numbers are kept as integers. */
  datatype Json =
    | JNull
    | JBool(b: bool)
    | JNum(n: int)
    | JString(s: string)
    | JArray(items: seq<Json>)
    | JObject(fields: map<string, Json>)

  /** `typeof v === 'object'` for a non-null value: objects and arrays. */
  predicate IsObject(v: Json)
  {
    v.JArray? || v.JObject?
  }

  /** `v.key` on a parsed value other than `null`: absent (`undefined`) unless an object has it. */
  function Field(v: Json, key: string): (r: Option<Json>)
    ensures r.Some? <==> v.JObject? && key in v.fields
    ensures r.Some? ==> r.value == v.fields[key]
  {
    if v.JObject? && key in v.fields then Some(v.fields[key]) else None
  }

  /** `Boolean(v)` for a property that may be absent. */
  predicate Truthy(v: Option<Json>)
  {
    match v
    case None => false
    case Some(JNull) => false
    case Some(JBool(b)) => b
    case Some(JNum(n)) => n != 0
    case Some(JString(s)) => s != ""
    case Some(JArray(_)) => true
    case Some(JObject(_)) => true
  }

  /** `!v || typeof v !== 'string'` is false: the property is a non-empty string. */
  predicate NonEmptyString(v: Option<Json>)
  {
    v.Some? && v.value.JString? && v.value.s != ""
  }

  /** The text of a property when it is a string. */
  function StringValue(v: Option<Json>): (r: Option<string>)
    ensures r.Some? <==> v.Some? && v.value.JString?
    ensures r.Some? ==> v.value == JString(r.value)
  {
    if v.Some? && v.value.JString? then Some(v.value.s) else None
  }

  /** A function's reply: the status code and its body. */
  datatype Response<+B> = Response(statusCode: nat, body: B)
}
