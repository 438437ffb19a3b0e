/**
 * The part of `serde_json::Value` that the overlay inspects: the six JSON
 * kinds, string indexing and the two accessors `as_f64` and `as_str`.
 * Numbers are modelled as mathematical reals (no floating-point rounding).
 */
module Json {
  import opened Wrappers

  datatype Value =
    | Null
    | Bool(b: bool)
    | Number(n: real)
    | String(s: string)
    | Array(items: seq<Value>)
    | Object(fields: map<string, Value>)

  /** `value[key]`: the member of an object, and `Null` for a missing key or a non-object. */
  function Index(v: Value, key: string): (r: Value)
    ensures r != Null ==> v.Object? && key in v.fields && v.fields[key] == r
    ensures v.Object? && key in v.fields ==> r == v.fields[key]
  {
    if v.Object? && key in v.fields then v.fields[key] else Null
  }

  /** `as_f64`: every JSON number converts, nothing else does. */
  function AsF64(v: Value): (r: Option<real>)
    ensures r.Some? <==> v.Number?
    ensures r.Some? ==> r.value == v.n
  {
    if v.Number? then Some(v.n) else None
  }

  /** `as_str`: only JSON strings convert. */
  function AsStr(v: Value): (r: Option<string>)
    ensures r.Some? <==> v.String?
    ensures r.Some? ==> r.value == v.s
  {
    if v.String? then Some(v.s) else None
  }
}
