/**
 * The older submission record of submission.rs: its fields, its `Filterable`
 * projection and the reading of its creation time.
 */
module LegacySubmission {
  import opened Wrappers
  import opened IntText
  import opened Json
  import Deser
  import RecordFilter

  /** A submission of the older schema; every accessor only reads it. */
  datatype Submission = Submission(
    author: Option<string>,
    url: Option<string>,
    permalink: string,
    score: Option<int>,
    title: string,
    selftext: string,
    domain: Option<string>,
    authorFlairText: Option<string>,
    subreddit: Option<string>,
    subredditId: Option<string>,
    id: string,
    numComments: int,
    over18: bool,
    isSelf: bool,
    linkFlairText: Option<string>,
    spoiler: Option<bool>,
    pinned: Option<bool>,
    stickied: bool,
    numCrossposts: Option<nat>,
    ups: Option<int>,
    downs: Option<int>,
    createdUtc: int,
    retrievedOn: Option<int>)

  /** `impl Filterable for Submission`: the score, author and subreddit as stored, absent when absent, and the creation time. */
  function Filterable(s: Submission): (f: RecordFilter.Facts)
    ensures f.score == s.score && f.created == s.createdUtc
    ensures f.author == s.author && f.subreddit == s.subreddit
  {
    RecordFilter.Facts(s.score, s.author, s.subreddit, s.createdUtc)
  }

  /** The text `i64::to_string` gives: an optional minus sign and the decimal digits. */
  function DecimalText(n: int): (s: string)
    ensures n >= 0 ==> |s| >= 1 && AllDigits(s, 10) && DigitsValue(s, 10) == n
    ensures n < 0 ==> |s| >= 2 && s[0] == '-' && AllDigits(s[1..], 10) && DigitsValue(s[1..], 10) == -n
  {
    if n < 0 then
      DigitsOfToRadix(-n, 10);
      var text := "-" + ToRadix(-n, 10);
      assert text[1..] == ToRadix(-n, 10);
      text
    else
      DigitsOfToRadix(n, 10);
      ToRadix(n, 10)
  }

  /**
   * `created_utc` is read with `deserialize_time`, so a timestamp written as
   * decimal text is read to the same value as the number itself.
   */
  lemma CreatedTextRoundTrip(n: int)
    requires InI64(n)
    ensures Deser.DeserializeTime(Str(DecimalText(n))) == Ok(n)
    ensures Deser.DeserializeTime(Num(IntNum(n))) == Ok(n)
  {
    if n < 0 {
      NegativeRoundTrip(-n, 10);
    } else {
      ToRadixRoundTrip(n, 10, I64);
    }
  }

  /** Empty or sign-only text, or text holding an underscore or a space, is refused rather than read as zero. */
  lemma CreatedTextRefused(s: string)
    requires s == [] || s == "+" || s == "-" || '_' in s || ' ' in s
    ensures Deser.DeserializeTime(Str(s)).Err?
  {
  }
}
