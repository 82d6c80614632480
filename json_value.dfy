/** The values `json.loads` can produce, as Python sees them. Finite
    numbers are reals; the `NaN`, `Infinity` and `-Infinity` literals that
    `json.loads` accepts by default give the non-finite floats. */
module JsonValue {

  datatype Json =
    | JNull
    | JBool(b: bool)
    | JNumber(n: real)
    | JNaN
    | JInfinity(negative: bool)
    | JString(s: string)
    | JArray(items: seq<Json>)
    | JObject(fields: map<string, Json>)

  /** Python truthiness of a decoded value: `None`, `False`, zero and
      empty containers are false; NaN and the infinities are true. */
  predicate Truthy(j: Json)
  {
    match j
    case JNull => false
    case JBool(b) => b
    case JNumber(n) => n != 0.0
    case JNaN => true
    case JInfinity(_) => true
    case JString(s) => s != ""
    case JArray(items) => |items| > 0
    case JObject(fields) => |fields| > 0
  }
}
