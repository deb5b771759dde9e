/**
 * Decoded JSON bodies as the client sees them after `r.json()`, and the few
 * Python operations the client applies to them. Numbers are integers only.
 */
module Json {
  import opened Wrappers
  import Decimal

  datatype Json =
    | JNull
    | JBool(b: bool)
    | JNumber(n: int)
    | JString(s: string)
    | JArray(items: seq<Json>)
    | JObject(fields: map<string, Json>)

  /**
   * `body[key]`: only an object that holds the key yields a value; on any
   * other value Python raises (`KeyError`, `TypeError`), shown as `None`.
   */
  function Field(body: Json, key: string): Option<Json>
  {
    if body.JObject? && key in body.fields then Some(body.fields[key]) else None
  }

  /** Python's `int(v)` on a decoded value: `None` where Python raises. */
  function ToInt(v: Json): (r: Option<int>)
    ensures v.JNumber? ==> r == Some(v.n)
    ensures v.JBool? ==> r == Some(if v.b then 1 else 0)
    ensures v.JString? ==> r == Decimal.ParseInt(v.s)
    ensures r.Some? ==> v.JNumber? || v.JBool? || v.JString?
  {
    match v
    case JNumber(n) => Some(n)
    case JBool(b) => Some(if b then 1 else 0)
    case JString(s) => Decimal.ParseInt(s)
    case _ => None
  }
}
