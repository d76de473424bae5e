/** Decoded JSON, as far as the cache receipts look into it. */
module JsonValues {
  import opened Common

  /** Python's decoder also reads the tokens NaN, Infinity and -Infinity: they are NonFinite. */
  datatype Json =
    | Null
    | Bool(b: bool)
    | Int(i: int)
    | Num(r: real)
    | NonFinite
    | Str(s: string)
    | Obj(fields: map<string, Json>)

  function Get(fields: map<string, Json>, key: string): Json {
    if key in fields then fields[key] else Null
  }

  predicate NonNegativeInteger(v: Json) {
    v.Int? && v.i >= 0
  }

  predicate NonNegativeNumber(v: Json) {
    (v.Int? && v.i >= 0) || (v.Num? && v.r >= 0.0)
  }

  function AsReal(v: Json): real
    requires NonNegativeNumber(v)
  {
    if v.Int? then v.i as real else v.r
  }
}
