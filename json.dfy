/** JavaScript values as they reach the controllers and pages in request
    bodies, parsed JSON and stored documents, with JavaScript truthiness and
    property access. Numbers are integers here. */
module JsonValues {
  import opened Wrappers
  import Text

  datatype Json =
    | JNull
    | JBool(b: bool)
    | JNumber(n: int)
    | JString(s: string)
    | JArray(items: seq<Json>)
    | JObject(fields: map<string, Json>)

  /** JavaScript truthiness: `null`, `false`, `0` and `''` are falsy. */
  predicate Truthy(v: Json) {
    match v
    case JNull => false
    case JBool(b) => b
    case JNumber(n) => n != 0
    case JString(s) => s != []
    case JArray(_) => true
    case JObject(_) => true
  }

  /** `v[key]` on a value that is not `null`: an own field of an object, or
      `undefined` (None) for a missing field and for every other kind of value. */
  function Field(v: Json, key: string): (r: Option<Json>)
    ensures r.Some? ==> v.JObject? && key in v.fields && r.value == v.fields[key]
    ensures v.JObject? && key in v.fields ==> r.Some?
  {
    if v.JObject? && key in v.fields then Some(v.fields[key]) else None
  }

  /** `v[key]` is truthy (a missing field reads as the falsy `undefined`). */
  predicate FieldTruthy(v: Json, key: string) {
    Field(v, key).Some? && Truthy(Field(v, key).value)
  }

  /** JavaScript's `String(v)`, as template literals and `join` apply it. */
  function Show(v: Json): string
    decreases v
  {
    match v
    case JNull => "null"
    case JBool(b) => if b then "true" else "false"
    case JNumber(n) => if n < 0 then "-" + Text.DecimalString(-n) else Text.DecimalString(n)
    case JString(s) => s
    case JArray(items) => Text.JoinWith(seq(|items|, i requires 0 <= i < |items| => if items[i].JNull? then "" else Show(items[i])), ",")
    case JObject(_) => "[object Object]"
  }
}
