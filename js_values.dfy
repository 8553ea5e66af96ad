/**
 * The JavaScript values a form can hand to a schema. Numbers are split into
 * finite numbers (kept as exact reals), NaN and the two infinities; dates into
 * valid dates (their time value in milliseconds) and the invalid date.
 */
module JsValues {
  import opened Keys

  datatype JsValue =
    | Undefined
    | Null
    | JsBool(b: bool)
    | JsNumber(n: real)
    | JsNaN
    | JsInfinity(negative: bool)
    | JsString(s: string)
    | JsDate(time: int)
    | JsInvalidDate
    | JsArray(items: seq<JsValue>)
    | JsObject(props: map<FieldName, JsValue>)

  /** A candidate record: a plain object, keyed by the schema's property names. */
  type Record = map<FieldName, JsValue>

  /** Property access `rec[f]`: a missing property reads as `undefined`. */
  function Get(rec: Record, f: FieldName): JsValue {
    if f in rec then rec[f] else Undefined
  }

  /** The text of a string-valued property, or "" for any other value. */
  function Text(rec: Record, f: FieldName): string {
    if Get(rec, f).JsString? then Get(rec, f).s else ""
  }
}
