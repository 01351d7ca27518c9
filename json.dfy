/**
 * The JSON value the deserializers inspect (serde_json's `Value`). A number
 * is an integer within the range of `i64` or `u64` (serde_json keeps every
 * other integer literal as a float), or a float, carried here by the exact
 * value of the `f64` it holds.
 */
module Json {
  import opened Wrappers
  import opened IntText

  type JsonInt = i: int | I64_MIN <= i <= U64_MAX

  datatype Number = IntNum(i: JsonInt) | FloatNum(x: real)

  datatype Value =
    | Null
    | Bool(b: bool)
    | Num(n: Number)
    | Str(s: string)
    | Arr(items: seq<Value>)
    | Obj(fields: map<string, Value>)

  /** `Number::as_i64`. */
  function AsI64(n: Number): (r: Option<int>)
    ensures r.Some? <==> n.IntNum? && InI64(n.i)
    ensures r.Some? ==> r.value == n.i
  {
    match n
    case IntNum(i) => if InI64(i) then Some(i) else None
    case FloatNum(_) => None
  }

  /** `Number::as_u64`. */
  function AsU64(n: Number): (r: Option<int>)
    ensures r.Some? <==> n.IntNum? && InU64(n.i)
    ensures r.Some? ==> r.value == n.i
  {
    match n
    case IntNum(i) => if InU64(i) then Some(i) else None
    case FloatNum(_) => None
  }

  /** `Number::as_f64`, defined for every number. */
  function AsF64(n: Number): (r: Option<real>)
    ensures r.Some?
    ensures n.IntNum? ==> r.value == n.i as real
    ensures n.FloatNum? ==> r.value == n.x
  {
    match n
    case IntNum(i) => Some(i as real)
    case FloatNum(x) => Some(x)
  }

  /** `f64::round`: to the nearest integer, halves away from zero. */
  function Round(x: real): (r: int)
    ensures r as real - 0.5 <= x <= r as real + 0.5
    ensures x >= 0.0 ==> r as real <= x + 0.5 && x + 0.5 < r as real + 1.0
    ensures x < 0.0 ==> r as real - 1.0 < x - 0.5 && x - 0.5 <= r as real
  {
    if x >= 0.0 then (x + 0.5).Floor else -((-x + 0.5).Floor)
  }

  /** `f64 as i64`: saturates at the bounds of `i64`. */
  function SaturateI64(n: int): (r: int)
    ensures InI64(r)
    ensures InI64(n) ==> r == n
    ensures n < I64_MIN ==> r == I64_MIN
    ensures n > I64_MAX ==> r == I64_MAX
  {
    if n < I64_MIN then I64_MIN else if n > I64_MAX then I64_MAX else n
  }
}
