/**
 * JSON values as `JSON.parse` returns them and `JSON.stringify` reads
 * them. The text form is not modelled: parsing and printing are functions
 * the callers receive.
 */
module JsonValue {
  import opened Wrappers

  /** A JavaScript number: a finite value, or one of `NaN`, `Infinity`, `-Infinity`. */
  datatype Num = Finite(value: real) | NonFinite

  datatype Json =
    | JNull
    | JBool(b: bool)
    | JNum(n: Num)
    | JStr(s: string)
    | JArr(items: seq<Json>)
    | JObj(fields: map<string, Json>)

  /** `obj[key]` on a parsed value; `None` is `undefined` (no such own property, or not an object). */
  function Property(j: Json, key: string): (r: Option<Json>)
    ensures r.Some? <==> j.JObj? && key in j.fields
    ensures r.Some? ==> r.value == j.fields[key]
  {
    if j.JObj? && key in j.fields then Some(j.fields[key]) else None
  }
}
