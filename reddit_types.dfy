/**
 * Reddit "fullname" references and the subreddit type names of
 * reddit_types/mod.rs. A fullname such as `t3_1a` pairs a type digit with a
 * base-36 id; older dumps give the bare id as an integer instead.
 */
module RedditTypes {
  import opened Wrappers
  import opened IntText
  import Json

  /** The visibility of a subreddit; its JSON and static names are both snake_case. */
  datatype SubredditType = Public | Restricted | User | Archived | GoldRestricted | GoldOnly | Private

  function SubredditTypeName(t: SubredditType): string
  {
    match t
    case Public => "public"
    case Restricted => "restricted"
    case User => "user"
    case Archived => "archived"
    case GoldRestricted => "gold_restricted"
    case GoldOnly => "gold_only"
    case Private => "private"
  }

  /** Reading a subreddit type from its JSON string. */
  function SubredditTypeFromName(s: string): (r: Option<SubredditType>)
    ensures r.Some? ==> SubredditTypeName(r.value) == s
    ensures forall t :: SubredditTypeName(t) == s ==> r == Some(t)
  {
    match s
    case "public" => Some(Public)
    case "restricted" => Some(Restricted)
    case "user" => Some(User)
    case "archived" => Some(Archived)
    case "gold_restricted" => Some(GoldRestricted)
    case "gold_only" => Some(GoldOnly)
    case "private" => Some(Private)
    case _ => None
  }

  /** A decoded reference: the optional type digit, the base-36 text and its value. */
  datatype ParentId = ParentId(parentType: Option<int>, parentId: string, decodedParentId: int)

  /** The untagged input: a string is tried first, then an `i64`. */
  datatype IdStringOrInt = IdString(s: string) | IdInt(value: int)

  datatype IdError =
    | NoVariantMatched     // neither a string nor an `i64`
    | InvalidParentId      // "a valid parent id": no `_`, short prefix, or no type digit
    | InvalidBase36        // "a valid base 36 number"

  /** serde's untagged deserialization of `IdStringOrInt` from a JSON value. */
  function IdFromJson(v: Json.Value): (r: Result<IdStringOrInt, IdError>)
    ensures r.Ok? && r.value.IdInt? ==> InI64(r.value.value)
    ensures v.Str? ==> r == Ok(IdString(v.s))
    ensures v.Num? && Json.AsI64(v.n).Some? ==> r == Ok(IdInt(Json.AsI64(v.n).value))
    ensures r.Err? <==> !v.Str? && Json.AsI64(if v.Num? then v.n else Json.FloatNum(0.0)).None?
  {
    match v
    case Str(s) => Ok(IdString(s))
    case Num(n) =>
      (match Json.AsI64(n)
       case Some(i) => Ok(IdInt(i))
       case None => Err(NoVariantMatched))
    case _ => Err(NoVariantMatched)
  }

  /** `str::split_once(c)`: the text before the first `c` and the text after it. */
  function SplitOnce(s: string, c: char): (r: Option<(string, string)>)
    ensures r.None? <==> c !in s
    ensures r.Some? ==> s == r.value.0 + [c] + r.value.1 && c !in r.value.0
  {
    if s == [] then None
    else if s[0] == c then Some(([], s[1..]))
    else
      match SplitOnce(s[1..], c)
      case None => None
      case Some((before, after)) =>
        assert s == [s[0]] + s[1..];
        Some(([s[0]] + before, after))
  }

  /** The split point is unique: the first occurrence of `c`. */
  lemma {:induction false} SplitOnceAt(before: string, c: char, after: string)
    requires c !in before
    ensures SplitOnce(before + [c] + after, c) == Some((before, after))
  {
    var s := before + [c] + after;
    if before != [] {
      assert s[1..] == before[1..] + [c] + after;
      SplitOnceAt(before[1..], c, after);
      assert [before[0]] + before[1..] == before;
    } else {
      assert s[1..] == after;
    }
  }

  /** `ParentId::deserialize` once the untagged input is known. */
  function ParseParentId(input: IdStringOrInt): (r: Result<ParentId, IdError>)
    requires input.IdInt? ==> InI64(input.value)
    ensures input.IdInt? ==> r.Ok? && r.value.parentType.None? && r.value.decodedParentId == input.value
    ensures input.IdInt? && input.value >= 0 ==>
      FromStrRadix(r.value.parentId, 36, I64) == Some(input.value)
    ensures input.IdString? && '_' !in input.s ==> r == Err(InvalidParentId)
    ensures input.IdString? && r.Ok? ==>
      && r.value.parentType.Some? && 0 <= r.value.parentType.value <= 9
      && FromStrRadix(r.value.parentId, 36, I64) == Some(r.value.decodedParentId)
      && (exists prefix :: input.s == prefix + "_" + r.value.parentId && '_' !in prefix && |prefix| >= 2
                           && DigitValue(prefix[1], 10) == r.value.parentType)
  {
    match input
    case IdInt(value) =>
      Base36TextRoundTrip(value);
      Ok(ParentId(None, Base36Text(value), value))
    case IdString(parent) =>
      match SplitOnce(parent, '_')
      case None => Err(InvalidParentId)
      case Some((ty, parentId)) =>
        if |ty| < 2 then Err(InvalidParentId)
        else
          match DigitValue(ty[1], 10)
          case None => Err(InvalidParentId)
          case Some(parentType) =>
            (match FromStrRadix(parentId, 36, I64)
             case None => Err(InvalidBase36)
             case Some(decoded) => Ok(ParentId(Some(parentType), parentId, decoded)))
  }

  /**
   * `radix_fmt::radix_36(value).to_string()`. Non-negative values are written
   * with lower-case digits and no leading zeros; a negative value is written
   * here as `-` followed by its magnitude.
   */
  function Base36Text(value: int): (s: string)
    ensures value >= 0 ==> |s| >= 1 && AllDigits(s, 36) && DigitsValue(s, 36) == value
    ensures value < 0 ==> |s| >= 2 && s[0] == '-' && AllDigits(s[1..], 36) && DigitsValue(s[1..], 36) == -value
  {
    if value >= 0 then DigitsOfToRadix(value, 36); ToRadix(value, 36)
    else
      DigitsOfToRadix(-value, 36);
      var text := "-" + ToRadix(-value, 36);
      assert text[1..] == ToRadix(-value, 36);
      text
  }

  /** For a value that is not negative, reading the rendering back in base 36 gives the value. */
  lemma Base36TextRoundTrip(value: int)
    requires InI64(value)
    ensures value >= 0 ==> FromStrRadix(Base36Text(value), 36, I64) == Some(value)
  {
    if value >= 0 {
      ToRadixRoundTrip(value, 36, I64);
    }
  }

  /** `ParentId::deserialize` from a JSON value. */
  function DeserializeParentId(v: Json.Value): (r: Result<ParentId, IdError>)
    ensures v.Str? ==> r == ParseParentId(IdString(v.s))
    ensures v.Num? && Json.AsI64(v.n).Some? ==> r == ParseParentId(IdInt(Json.AsI64(v.n).value))
    ensures !v.Str? && !(v.Num? && Json.AsI64(v.n).Some?) ==> r == Err(NoVariantMatched)
    ensures r.Ok? && r.value.parentType.None? ==> v.Num?
  {
    match IdFromJson(v)
    case Ok(input) => ParseParentId(input)
    case Err(e) => Err(e)
  }

  /** The string form, exactly: split at the first `_`; the type is the prefix's second character. */
  lemma StringFullname(prefix: string, payload: string)
    requires '_' !in prefix
    ensures ParseParentId(IdString(prefix + "_" + payload)) ==
      if |prefix| < 2 || DigitValue(prefix[1], 10).None? then Err(InvalidParentId)
      else if FromStrRadix(payload, 36, I64).None? then Err(InvalidBase36)
      else Ok(ParentId(DigitValue(prefix[1], 10), payload, FromStrRadix(payload, 36, I64).value))
  {
    SplitOnceAt(prefix, '_', payload);
  }

  /** Every non-negative `i64` written as a fullname with any prefix character and type digit decodes back to itself. */
  lemma FullnameRoundTrip(tag: char, digit: nat, value: nat)
    requires tag != '_' && digit <= 9 && InI64(value)
    ensures ParseParentId(IdString([tag, DigitChar(digit)] + "_" + ToRadix(value, 36))) ==
      Ok(ParentId(Some(digit), ToRadix(value, 36), value))
  {
    DigitCharInRadix(digit, 10);
    StringFullname([tag, DigitChar(digit)], ToRadix(value, 36));
    ToRadixRoundTrip(value, 36, I64);
  }

  /** A second `_` in the payload is not a base-36 digit. */
  lemma SecondUnderscoreRejected(prefix: string, a: string, b: string)
    requires '_' !in prefix && |prefix| >= 2 && DigitValue(prefix[1], 10).Some?
    ensures ParseParentId(IdString(prefix + "_" + a + "_" + b)) == Err(InvalidBase36)
  {
    assert prefix + "_" + a + "_" + b == prefix + "_" + (a + "_" + b);
    StringFullname(prefix, a + "_" + b);
    assert (a + "_" + b)[|a|] == '_';
  }

  /** The worked example `t3_1a`: type 3, text `1a`, value 46. */
  lemma ExampleT3()
    ensures ParseParentId(IdString("t3_1a")) == Ok(ParentId(Some(3), "1a", 46))
  {
    assert ToRadix(46, 36) == "1a" by { assert DigitChar(1) == '1'; assert DigitChar(10) == 'a'; }
    ToRadixRoundTrip(46, 36, I64);
    assert DigitValue('3', 10) == Some(3);
    assert "t3_1a" == "t3" + "_" + "1a";
    StringFullname("t3", "1a");
  }

  /** The first character of the prefix is never looked at. */
  lemma ExampleFirstCharUnchecked()
    ensures ParseParentId(IdString("x3_1a")) == Ok(ParentId(Some(3), "1a", 46))
  {
    assert ToRadix(46, 36) == "1a" by { assert DigitChar(1) == '1'; assert DigitChar(10) == 'a'; }
    ToRadixRoundTrip(46, 36, I64);
    assert DigitValue('3', 10) == Some(3);
    assert "x3_1a" == "x3" + "_" + "1a";
    StringFullname("x3", "1a");
  }

  /** A prefix of one character has no type digit and is refused. */
  lemma ShortKindRefused()
    ensures ParseParentId(IdString("t_1a")) == Err(InvalidParentId)
  {
    StringFullname("t", "1a");
    assert "t" + "_" + "1a" == "t_1a";
  }

  /** A kind whose second character is not a digit is refused. */
  lemma LetterKindRefused()
    ensures ParseParentId(IdString("tx_1a")) == Err(InvalidParentId)
  {
    StringFullname("tx", "1a");
    assert "tx" + "_" + "1a" == "tx_1a";
  }

  /** An empty base-36 part is refused by the number parse. */
  lemma EmptyIdRefused()
    ensures ParseParentId(IdString("t3_")) == Err(InvalidBase36)
  {
    StringFullname("t3", "");
    assert "t3" + "_" + "" == "t3_";
  }

  /** Text with no underscore is refused. */
  lemma MissingUnderscoreRefused()
    ensures ParseParentId(IdString("1a")) == Err(InvalidParentId)
  {
    assert '_' !in "1a";
  }

  /** The rendering of 2891490404 in base 36 is `1btio9w`, and reading it back gives 2891490404. */
  lemma LinkIdRendering()
    ensures ToRadix(2891490404, 36) == "1btio9w"
    ensures FromStrRadix("1btio9w", 36, I64) == Some(2891490404)
  {
    assert ToRadix(1, 36) == "1" by { assert DigitChar(1) == '1'; }
    assert ToRadix(47, 36) == "1b" by { assert DigitChar(11) == 'b'; assert ToRadix(47, 36) == ToRadix(1, 36) + [DigitChar(11)]; }
    assert ToRadix(1721, 36) == "1bt" by { assert DigitChar(29) == 't'; assert ToRadix(1721, 36) == ToRadix(47, 36) + [DigitChar(29)]; }
    assert ToRadix(61974, 36) == "1bti" by { assert DigitChar(18) == 'i'; assert ToRadix(61974, 36) == ToRadix(1721, 36) + [DigitChar(18)]; }
    assert ToRadix(2231088, 36) == "1btio" by { assert DigitChar(24) == 'o'; assert ToRadix(2231088, 36) == ToRadix(61974, 36) + [DigitChar(24)]; }
    assert ToRadix(80319177, 36) == "1btio9" by { assert DigitChar(9) == '9'; assert ToRadix(80319177, 36) == ToRadix(2231088, 36) + [DigitChar(9)]; }
    assert ToRadix(2891490404, 36) == "1btio9w" by { assert DigitChar(32) == 'w'; assert ToRadix(2891490404, 36) == ToRadix(80319177, 36) + [DigitChar(32)]; }
    ToRadixRoundTrip(2891490404, 36, I64);
  }

  /** The rendering of 650475792 in base 36 is `ar9yc0`, and reading it back gives 650475792. */
  lemma SubredditIdRendering()
    ensures ToRadix(650475792, 36) == "ar9yc0"
    ensures FromStrRadix("ar9yc0", 36, I64) == Some(650475792)
  {
    assert ToRadix(10, 36) == "a" by { assert DigitChar(10) == 'a'; }
    assert ToRadix(387, 36) == "ar" by { assert DigitChar(27) == 'r'; assert ToRadix(387, 36) == ToRadix(10, 36) + [DigitChar(27)]; }
    assert ToRadix(13941, 36) == "ar9" by { assert DigitChar(9) == '9'; assert ToRadix(13941, 36) == ToRadix(387, 36) + [DigitChar(9)]; }
    assert ToRadix(501910, 36) == "ar9y" by { assert DigitChar(34) == 'y'; assert ToRadix(501910, 36) == ToRadix(13941, 36) + [DigitChar(34)]; }
    assert ToRadix(18068772, 36) == "ar9yc" by { assert DigitChar(12) == 'c'; assert ToRadix(18068772, 36) == ToRadix(501910, 36) + [DigitChar(12)]; }
    assert ToRadix(650475792, 36) == "ar9yc0" by { assert DigitChar(0) == '0'; assert ToRadix(650475792, 36) == ToRadix(18068772, 36) + [DigitChar(0)]; }
    ToRadixRoundTrip(650475792, 36, I64);
  }

  /** The rendering of 45568804275 in base 36 is `kxmhmer`, and reading it back gives 45568804275. */
  lemma ParentIdRendering()
    ensures ToRadix(45568804275, 36) == "kxmhmer"
    ensures FromStrRadix("kxmhmer", 36, I64) == Some(45568804275)
  {
    assert ToRadix(20, 36) == "k" by { assert DigitChar(20) == 'k'; }
    assert ToRadix(753, 36) == "kx" by { assert DigitChar(33) == 'x'; assert ToRadix(753, 36) == ToRadix(20, 36) + [DigitChar(33)]; }
    assert ToRadix(27130, 36) == "kxm" by { assert DigitChar(22) == 'm'; assert ToRadix(27130, 36) == ToRadix(753, 36) + [DigitChar(22)]; }
    assert ToRadix(976697, 36) == "kxmh" by { assert DigitChar(17) == 'h'; assert ToRadix(976697, 36) == ToRadix(27130, 36) + [DigitChar(17)]; }
    assert ToRadix(35161114, 36) == "kxmhm" by { assert DigitChar(22) == 'm'; assert ToRadix(35161114, 36) == ToRadix(976697, 36) + [DigitChar(22)]; }
    assert ToRadix(1265800118, 36) == "kxmhme" by { assert DigitChar(14) == 'e'; assert ToRadix(1265800118, 36) == ToRadix(35161114, 36) + [DigitChar(14)]; }
    assert ToRadix(45568804275, 36) == "kxmhmer" by { assert DigitChar(27) == 'r'; assert ToRadix(45568804275, 36) == ToRadix(1265800118, 36) + [DigitChar(27)]; }
    ToRadixRoundTrip(45568804275, 36, I64);
  }

  /** The link id `t3_1btio9w` of the comment test in reddit_types/comment.rs is accepted. */
  lemma LinkIdSample()
    ensures ParseParentId(IdString("t3_1btio9w")) == Ok(ParentId(Some(3), "1btio9w", 2891490404))
  {
    LinkIdRendering();
    assert DigitValue('3', 10) == Some(3);
    assert "t3_1btio9w" == "t3" + "_" + "1btio9w";
    StringFullname("t3", "1btio9w");
  }

  /** So is its subreddit id `t5_ar9yc0`. */
  lemma SubredditIdSample()
    ensures ParseParentId(IdString("t5_ar9yc0")) == Ok(ParentId(Some(5), "ar9yc0", 650475792))
  {
    SubredditIdRendering();
    assert DigitValue('5', 10) == Some(5);
    assert "t5_ar9yc0" == "t5" + "_" + "ar9yc0";
    StringFullname("t5", "ar9yc0");
  }

  /** So is its integer parent id, which is rendered back in base 36. */
  lemma IntegerParentSample()
    ensures ParseParentId(IdInt(45568804275)) == Ok(ParentId(None, "kxmhmer", 45568804275))
  {
    ParentIdRendering();
  }
}
