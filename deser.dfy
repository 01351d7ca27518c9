/**
 * The three field normalisers of deser.rs: a required timestamp, an optional
 * timestamp and an optional score, each a case analysis over a JSON value.
 */
module Deser {
  import opened Wrappers
  import opened IntText
  import opened Json

  /** The custom errors the normalisers raise (each a message in the source). */
  datatype DeError =
    | TimestampOutOfRange   // a `u64` that does not fit `i64`
    | InvalidTimestamp      // "invalid timestamp value"
    | UnparsableTime        // `str::parse::<i64>` failed on a timestamp string
    | InvalidScore          // "invalid score value": a number that is not an `i64`
    | UnparsableScore       // "unable to parse score"

  /** Decimal `str::parse::<i64>`. */
  function ParseI64(s: string): (r: Option<int>)
    ensures r.Some? ==> InI64(r.value)
    ensures s != [] && AllDigits(s, 10) && InI64(DigitsValue(s, 10)) ==> r == Some(DigitsValue(s, 10) as int)
    ensures |s| >= 2 && s[0] == '-' && AllDigits(s[1..], 10) && InI64(-(DigitsValue(s[1..], 10) as int)) ==>
      r == Some(-(DigitsValue(s[1..], 10) as int))
  {
    FromStrRadix(s, 10, I64)
  }

  /** The number branch shared by both timestamp normalisers. */
  function NumberTime(n: Number): (r: Result<int, DeError>)
    ensures r.Ok? ==> InI64(r.value)
    ensures AsI64(n).Some? ==> r == Ok(n.i)
    ensures n.IntNum? && !InI64(n.i) ==> r == Err(TimestampOutOfRange)
    ensures n.FloatNum? ==> r == Ok(SaturateI64(Round(n.x)))
  {
    if AsI64(n).Some? then Ok(AsI64(n).value)
    else if AsU64(n).Some? then
      // `u64::try_into::<i64>` fails on every value `as_i64` has refused
      var t := AsU64(n).value;
      if InI64(t) then Ok(t) else Err(TimestampOutOfRange)
    else if AsF64(n).Some? then Ok(SaturateI64(Round(AsF64(n).value)))
    else Err(InvalidTimestamp)
  }

  /** `deserialize_time`. */
  function DeserializeTime(v: Value): (r: Result<int, DeError>)
    ensures r.Ok? ==> InI64(r.value)
    ensures v.Str? ==> (r.Ok? <==> ParseI64(v.s).Some?)
    ensures v.Str? && r.Ok? ==> Some(r.value) == ParseI64(v.s)
    ensures v.Null? || v.Bool? || v.Arr? || v.Obj? ==> r == Err(InvalidTimestamp)
  {
    match v
    case Num(n) => NumberTime(n)
    case Str(s) =>
      (match ParseI64(s)
       case Some(t) => Ok(t)
       case None => Err(UnparsableTime))
    case _ => Err(InvalidTimestamp)
  }

  /** `deserialize_optional_time`: null and booleans mean "no time". */
  function DeserializeOptionalTime(v: Value): (r: Result<Option<int>, DeError>)
    ensures v.Null? || v.Bool? ==> r == Ok(None)
    ensures v.Arr? || v.Obj? ==> r == Err(InvalidTimestamp)
    ensures r.Ok? && r.value.Some? ==> InI64(r.value.value)
  {
    match v
    case Num(n) =>
      (match NumberTime(n)
       case Ok(t) => Ok(Some(t))
       case Err(e) => Err(e))
    case Str(s) =>
      (match ParseI64(s)
       case Some(t) => Ok(Some(t))
       case None => Err(UnparsableTime))
    case Null => Ok(None)
    case Bool(_) => Ok(None)
    case _ => Err(InvalidTimestamp)
  }

  /** `deserialize_score`: only an `i64` number, a decimal string or null. */
  function DeserializeScore(v: Value): (r: Result<Option<int>, DeError>)
    ensures r.Ok? && r.value.Some? ==> InI64(r.value.value)
    ensures r == Ok(None) <==> v.Null?
    ensures v.Num? ==> (r.Ok? <==> v.n.IntNum? && InI64(v.n.i))
    ensures v.Num? && r.Ok? ==> r.value == Some(v.n.i)
    ensures v.Str? ==> (r.Ok? <==> ParseI64(v.s).Some?)
    ensures v.Str? && r.Ok? ==> r.value == ParseI64(v.s)
    ensures v.Bool? || v.Arr? || v.Obj? ==> r.Err?
  {
    match v
    case Num(n) =>
      (match AsI64(n)
       case Some(score) => Ok(Some(score))
       case None => Err(InvalidScore))
    case Str(s) =>
      (match ParseI64(s)
       case Some(score) => Ok(Some(score))
       case None => Err(UnparsableScore))
    case Null => Ok(None)
    // the source reports these with the timestamp message
    case _ => Err(InvalidTimestamp)
  }

  /** Every value other than null or a boolean is read exactly as the required timestamp reads it. */
  lemma OptionalTimeAgreesWithTime(v: Value)
    requires !v.Null? && !v.Bool?
    ensures DeserializeOptionalTime(v) ==
      match DeserializeTime(v)
      case Ok(t) => Ok(Some(t))
      case Err(e) => Err(e)
  {
  }

  /** An `i64` integer is its own timestamp and score. */
  lemma IntegerTimes(i: int)
    requires InI64(i)
    ensures DeserializeTime(Num(IntNum(i))) == Ok(i)
    ensures DeserializeOptionalTime(Num(IntNum(i))) == Ok(Some(i))
    ensures DeserializeScore(Num(IntNum(i))) == Ok(Some(i))
  {
  }

  /** A `u64` beyond `i64` is refused: the `u64` branch is reached only after `as_i64` has failed. */
  lemma LargeUnsignedTimeRefused(i: JsonInt)
    requires I64_MAX < i
    ensures DeserializeTime(Num(IntNum(i))) == Err(TimestampOutOfRange)
    ensures DeserializeOptionalTime(Num(IntNum(i))) == Err(TimestampOutOfRange)
    ensures DeserializeScore(Num(IntNum(i))) == Err(InvalidScore)
  {
  }

  /** A float is never rounded into a score. */
  lemma FloatScoreRefused(x: real)
    ensures DeserializeScore(Num(FloatNum(x))) == Err(InvalidScore)
  {
  }

  /** Rounding of float timestamps: halves go away from zero. */
  lemma FloatTimeExamples()
    ensures DeserializeTime(Num(FloatNum(2.5))) == Ok(3)
    ensures DeserializeTime(Num(FloatNum(-2.5))) == Ok(-3)
    ensures DeserializeTime(Num(FloatNum(1712016498.4))) == Ok(1712016498)
  {
  }
}
