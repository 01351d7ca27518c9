/**
 * Rust's integer text conversions as the importer uses them: `from_str_radix`
 * (and `str::parse`, which is `from_str_radix` in base 10) for `i64` and `u64`,
 * and the rendering of a non-negative integer in a given base.
 */
module IntText {
  import opened Wrappers

  const I64_MIN: int := -0x8000_0000_0000_0000
  const I64_MAX: int := 0x7FFF_FFFF_FFFF_FFFF
  const U64_MAX: int := 0xFFFF_FFFF_FFFF_FFFF

  predicate InI64(n: int) { I64_MIN <= n <= I64_MAX }
  predicate InU64(n: int) { 0 <= n <= U64_MAX }

  type Radix = r: nat | 2 <= r <= 36 witness 10

  /** The two target types of the conversions. */
  datatype IntType = I64 | U64 {
    predicate Holds(n: int) {
      match this
      case I64 => InI64(n)
      case U64 => InU64(n)
    }
    predicate Signed() { this == I64 }
  }

  /** `char::to_digit(radix)`: ASCII digits, then letters of either case. */
  function DigitValue(c: char, radix: Radix): (d: Option<nat>)
    ensures d.Some? ==> d.value < radix
    ensures d.Some? ==> ('0' <= c <= '9' || 'a' <= c <= 'z' || 'A' <= c <= 'Z')
  {
    var v :=
      if '0' <= c <= '9' then c as int - '0' as int
      else if 'a' <= c <= 'z' then c as int - 'a' as int + 10
      else if 'A' <= c <= 'Z' then c as int - 'A' as int + 10
      else 36;
    if v < radix then Some(v) else None
  }

  predicate IsDigit(c: char, radix: Radix) { DigitValue(c, radix).Some? }

  predicate AllDigits(s: string, radix: Radix) {
    forall i :: 0 <= i < |s| ==> IsDigit(s[i], radix)
  }

  /** The value of a digit string, most significant digit first. */
  function DigitsValue(s: string, radix: Radix): nat
    requires AllDigits(s, radix)
  {
    if s == [] then 0
    else DigitsValue(s[..|s| - 1], radix) * radix + DigitValue(s[|s| - 1], radix).value
  }

  /**
   * `<T>::from_str_radix(s, radix)`: an optional sign (`-` only for signed
   * types), then at least one digit; a value outside the target type is an
   * overflow error.
   */
  function FromStrRadix(s: string, radix: Radix, ty: IntType): (r: Option<int>)
    ensures r.Some? ==> ty.Holds(r.value)
    ensures r.Some? ==> s != [] && s != "+" && s != "-"
    ensures r.Some? ==> forall i :: 0 <= i < |s| ==> s[i] != '_' && s[i] != ' '
    // a success is all digits, after at most one sign the type accepts
    ensures r.Some? ==>
      AllDigits(s, radix) || (|s| >= 2 && (s[0] == '+' || (s[0] == '-' && ty.Signed())) && AllDigits(s[1..], radix))
    // and each of those forms is read to its value, or refused when the value does not fit
    ensures s != [] && AllDigits(s, radix) ==>
      r == if ty.Holds(DigitsValue(s, radix)) then Some(DigitsValue(s, radix) as int) else None
    ensures |s| >= 2 && s[0] == '+' && AllDigits(s[1..], radix) ==>
      r == if ty.Holds(DigitsValue(s[1..], radix)) then Some(DigitsValue(s[1..], radix) as int) else None
    ensures |s| >= 2 && s[0] == '-' && ty.Signed() && AllDigits(s[1..], radix) ==>
      r == if ty.Holds(-(DigitsValue(s[1..], radix) as int)) then Some(-(DigitsValue(s[1..], radix) as int)) else None
    ensures s != [] && s[0] == '-' && !ty.Signed() ==> r.None?
  {
    if s == [] then None
    else if (s[0] == '+' || s[0] == '-') && |s| == 1 then None
    else
      var negative := s[0] == '-' && ty.Signed();
      var digits := if s[0] == '+' || negative then s[1..] else s;
      if !AllDigits(digits, radix) then None
      else
        var v: int := if negative then -(DigitsValue(digits, radix) as int) else DigitsValue(digits, radix);
        if ty.Holds(v) then Some(v) else None
  }

  /** The lower-case digit for a value below 36. */
  function DigitChar(d: nat): (c: char)
    requires d < 36
    ensures DigitValue(c, 36) == Some(d)
  {
    if d < 10 then ('0' as int + d) as char else ('a' as int + d - 10) as char
  }

  lemma DigitCharInRadix(d: nat, radix: Radix)
    requires d < radix
    ensures DigitValue(DigitChar(d), radix) == Some(d)
  {
  }

  /** Euclidean division by a base: quotient, remainder and progress. */
  lemma DivModRadix(n: nat, radix: Radix)
    ensures n == (n / radix) * radix + n % radix
    ensures 0 <= n % radix < radix
    ensures n >= radix ==> 0 < n / radix < n
  {
    var q, m := n / radix, n % radix;
    assert n == q * radix + m;
    if n >= radix {
      assert q >= 1;
      assert q * radix >= q * 2;
    }
  }

  /** The rendering of `n` in base `radix`, lower case, no leading zeros. */
  function ToRadix(n: nat, radix: Radix): (s: string)
    ensures |s| >= 1 && AllDigits(s, radix)
    ensures s[0] != '+' && s[0] != '-'
    decreases n
  {
    if n < radix then
      DigitCharInRadix(n, radix);
      [DigitChar(n)]
    else
      DivModRadix(n, radix);
      DigitCharInRadix(n % radix, radix);
      var prefix := ToRadix(n / radix, radix);
      var s := prefix + [DigitChar(n % radix)];
      assert forall i :: 0 <= i < |prefix| ==> s[i] == prefix[i];
      s
  }

  /** Reading a rendering back gives the number rendered. */
  lemma {:induction false} DigitsOfToRadix(n: nat, radix: Radix)
    ensures DigitsValue(ToRadix(n, radix), radix) == n
    decreases n
  {
    var s := ToRadix(n, radix);
    if n < radix {
      DigitCharInRadix(n, radix);
      assert s[..0] == [];
    } else {
      DivModRadix(n, radix);
      DigitCharInRadix(n % radix, radix);
      assert s[..|s| - 1] == ToRadix(n / radix, radix);
      DigitsOfToRadix(n / radix, radix);
      assert DigitsValue(s, radix) == (n / radix) * radix + n % radix;
    }
  }

  /** `from_str_radix` inverts the rendering of every value of the type that is not negative. */
  lemma ToRadixRoundTrip(n: nat, radix: Radix, ty: IntType)
    requires ty.Holds(n)
    ensures FromStrRadix(ToRadix(n, radix), radix, ty) == Some(n)
  {
    DigitsOfToRadix(n, radix);
  }

  /** Negative values written with a leading `-` are read back by the signed type. */
  lemma NegativeRoundTrip(n: nat, radix: Radix)
    requires n > 0 && InI64(-(n as int))
    ensures FromStrRadix("-" + ToRadix(n, radix), radix, I64) == Some(-(n as int))
  {
    var s := "-" + ToRadix(n, radix);
    assert s[1..] == ToRadix(n, radix);
    DigitsOfToRadix(n, radix);
  }
}
