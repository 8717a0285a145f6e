/** JSON values as the admin API receives them and the admin page handles them. */
module JsonValues {
  import opened Wrappers

  /** A JSON value; numbers are integers here. */
  datatype Json =
    | JNull
    | JBool(b: bool)
    | JNum(n: int)
    | JStr(s: string)
    | JArr(items: seq<Json>)
    | JObj(fields: map<string, Json>)

  /** JavaScript truthiness of a parsed JSON value: `null`, `false`, `0` and `""` are falsy, arrays and objects are truthy. */
  predicate Truthy(v: Json) {
    match v
    case JNull => false
    case JBool(b) => b
    case JNum(n) => n != 0
    case JStr(s) => s != []
    case JArr(_) => true
    case JObj(_) => true
  }

  /** `v[key]` on a non-null value: the field of an object, `undefined` (`None`) for a missing field or any other value. */
  function Property(v: Json, key: string): (r: Option<Json>)
    requires !v.JNull?
    ensures r.Some? <==> v.JObj? && key in v.fields
  {
    if v.JObj? && key in v.fields then Some(v.fields[key]) else None
  }

  /** JavaScript truthiness of a property read (`undefined` is falsy). */
  predicate TruthyProperty(p: Option<Json>) {
    p.Some? && Truthy(p.value)
  }
}
