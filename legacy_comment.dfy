/**
 * The older comment record of comment.rs and `Comment::from_json_str`, which
 * rewrites two JSON fields before deserializing and then rewrites the parent
 * id of the record it built. Every failure panics.
 */
module LegacyComment {
  import opened Wrappers
  import opened IntText
  import opened Json

  /** A comment of the older schema; the score is a required 32-bit integer. */
  datatype Comment = Comment(
    author: string,
    body: string,
    subreddit: string,
    authorFlairText: Option<string>,
    authorFlairCssClass: Option<string>,
    score: int,
    ups: Option<int>,
    downs: Option<int>,
    createdUtc: int,
    retrievedOn: Option<int>,
    linkId: string,
    id: string,
    parentId: string,
    parentIsPost: bool,
    stickied: bool,
    distinguished: Option<string>,
    archived: bool,
    controversiality: Option<int>)

  /** The `unwrap`s of `from_json_str`, one per step that can fail. */
  datatype Panic =
    | UnreadableJson         // the line is not JSON
    | CreatedNotU64          // a string `created_utc` that `parse::<u64>` refuses
    | NotAComment            // the normalised value does not deserialize
    | ParentIdNotSplittable  // `split_off(2)` beyond the end or inside a character

  // The UTF-8 view of a string, which `String::split_off` indexes by byte.

  /** The number of bytes UTF-8 spends on a character. */
  function Utf8Width(c: char): (w: nat)
    ensures 1 <= w <= 4
    ensures w == 1 <==> c as int < 0x80
  {
    if c as int < 0x80 then 1
    else if c as int < 0x800 then 2
    else if c as int < 0x1_0000 then 3
    else 4
  }

  /** The number of bytes of a string in UTF-8. */
  function Utf8Length(s: string): nat
  {
    if s == [] then 0 else Utf8Length(s[..|s| - 1]) + Utf8Width(s[|s| - 1])
  }

  lemma {:induction false} Utf8LengthAppend(a: string, b: string)
    ensures Utf8Length(a + b) == Utf8Length(a) + Utf8Length(b)
    decreases |b|
  {
    if b != [] {
      var b' := b[..|b| - 1];
      assert (a + b)[..|a + b| - 1] == a + b';
      assert (a + b)[|a + b| - 1] == b[|b| - 1];
      Utf8LengthAppend(a, b');
    } else {
      assert a + b == a;
    }
  }

  /** A prefix of `k` characters is at least `k` bytes long. */
  lemma {:induction false} Utf8LengthAtLeastLength(s: string)
    ensures Utf8Length(s) >= |s|
    decreases |s|
  {
    if s != [] {
      Utf8LengthAtLeastLength(s[..|s| - 1]);
    }
  }

  /** Splitting a prefix after its first `k` characters, in bytes. */
  lemma Utf8LengthPrefix(s: string, j: nat, k: nat)
    requires j <= k <= |s|
    ensures Utf8Length(s[..k]) == Utf8Length(s[..j]) + Utf8Length(s[j..k])
    ensures Utf8Length(s[j..k]) >= k - j
  {
    assert s[..k] == s[..j] + s[j..k];
    Utf8LengthAppend(s[..j], s[j..k]);
    Utf8LengthAtLeastLength(s[j..k]);
  }

  /**
   * `String::split_off(2)` as the assignment keeps it: the text after byte
   * offset 2, which exists when some prefix of the string is exactly two bytes
   * long; otherwise the call panics.
   */
  function SplitOffTwo(s: string): (r: Option<string>)
    ensures r.Some? ==> exists k :: 0 <= k <= |s| && Utf8Length(s[..k]) == 2 && r.value == s[k..]
    ensures r.None? ==> forall k :: 0 <= k <= |s| ==> Utf8Length(s[..k]) != 2
  {
    assert s[..0] == [];
    if s == [] then None
    else
      assert Utf8Length(s[..1]) == Utf8Width(s[0]) by { assert s[..1][..0] == []; }
      if Utf8Width(s[0]) == 2 then Some(s[1..])
      else if Utf8Width(s[0]) > 2 then
        assert forall k :: 1 <= k <= |s| ==> Utf8Length(s[..k]) >= Utf8Width(s[0]) by {
          forall k | 1 <= k <= |s| ensures Utf8Length(s[..k]) >= Utf8Width(s[0]) { Utf8LengthPrefix(s, 1, k); }
        }
        None
      else if |s| == 1 then None
      else
        assert Utf8Length(s[..2]) == 1 + Utf8Width(s[1]) by {
          assert s[..2][..1] == s[..1];
        }
        if Utf8Width(s[1]) == 1 then Some(s[2..])
        else
          assert forall k :: 2 <= k <= |s| ==> Utf8Length(s[..k]) >= 1 + Utf8Width(s[1]) by {
            forall k | 2 <= k <= |s| ensures Utf8Length(s[..k]) >= 1 + Utf8Width(s[1]) { Utf8LengthPrefix(s, 2, k); }
          }
          None
  }

  /** On text whose first two characters are ASCII, the split drops exactly those two. */
  lemma SplitOffTwoAscii(s: string)
    requires |s| >= 2 && s[0] as int < 0x80 && s[1] as int < 0x80
    ensures SplitOffTwo(s) == Some(s[2..])
  {
  }

  predicate StartsWith(s: string, prefix: string) {
    |prefix| <= |s| && s[..|prefix|] == prefix
  }

  /**
   * The two rewrites made on the parsed JSON before deserializing: a string
   * `created_utc` becomes its `u64` value, which panics when it is not one,
   * and a null `score` becomes 0. Nothing else changes, and a value that is
   * not an object is left as it is.
   */
  function NormaliseJson(v: Value): (r: Result<Value, Panic>)
    ensures r.Err? <==>
      v.Obj? && "created_utc" in v.fields && v.fields["created_utc"].Str? &&
      FromStrRadix(v.fields["created_utc"].s, 10, U64).None?
    ensures r.Err? ==> r.error == CreatedNotU64
    ensures r.Ok? && !v.Obj? ==> r.value == v
    ensures r.Ok? && v.Obj? ==> r.value.Obj? && r.value.fields.Keys == v.fields.Keys
    ensures r.Ok? && v.Obj? ==>
      forall k :: k in v.fields && k != "created_utc" && k != "score" ==> r.value.fields[k] == v.fields[k]
    ensures r.Ok? && v.Obj? && "created_utc" in v.fields ==>
      r.value.fields["created_utc"] ==
        if v.fields["created_utc"].Str?
        then Num(IntNum(FromStrRadix(v.fields["created_utc"].s, 10, U64).value))
        else v.fields["created_utc"]
    ensures r.Ok? && v.Obj? && "score" in v.fields ==>
      r.value.fields["score"] == if v.fields["score"].Null? then Num(IntNum(0)) else v.fields["score"]
  {
    if !v.Obj? then Ok(v)
    else
      var created :=
        if "created_utc" in v.fields && v.fields["created_utc"].Str?
        then (match FromStrRadix(v.fields["created_utc"].s, 10, U64)
              case Some(utc) => Some(Ok(Num(IntNum(utc))))
              case None => Some(Err(CreatedNotU64)))
        else None;
      if created.Some? && created.value.Err? then Err(CreatedNotU64)
      else
        var fields := if created.Some? then v.fields["created_utc" := created.value.value] else v.fields;
        if "score" in fields && fields["score"].Null? then Ok(Obj(fields["score" := Num(IntNum(0))]))
        else Ok(Obj(fields))
  }

  /**
   * The rewrite of the deserialized comment: a parent id starting with "t3_"
   * marks the parent as a post, otherwise the deserialized flag stays; the
   * parent id loses its first two bytes.
   */
  function FixParent(c: Comment): (r: Result<Comment, Panic>)
    ensures r.Err? <==> SplitOffTwo(c.parentId).None?
    ensures r.Err? ==> r.error == ParentIdNotSplittable
    ensures r.Ok? ==> r.value.parentIsPost == (c.parentIsPost || StartsWith(c.parentId, "t3_"))
    ensures r.Ok? ==> Some(r.value.parentId) == SplitOffTwo(c.parentId)
    ensures r.Ok? ==> r.value.(parentIsPost := c.parentIsPost, parentId := c.parentId) == c
  {
    var flagged := if StartsWith(c.parentId, "t3_") then c.(parentIsPost := true) else c;
    match SplitOffTwo(c.parentId)
    case Some(tail) => Ok(flagged.(parentId := tail))
    case None => Err(ParentIdNotSplittable)
  }

  /** A post parent: the flag is set and the id keeps its underscore, so "t3_abc" becomes "_abc". */
  lemma PostParent(c: Comment)
    requires StartsWith(c.parentId, "t3_")
    ensures FixParent(c) == Ok(c.(parentIsPost := true, parentId := c.parentId[2..]))
  {
    SplitOffTwoAscii(c.parentId);
  }

  /** Any other parent with two ASCII characters in front keeps the deserialized flag. */
  lemma OtherParent(c: Comment)
    requires |c.parentId| >= 2 && c.parentId[0] as int < 0x80 && c.parentId[1] as int < 0x80
    requires !StartsWith(c.parentId, "t3_")
    ensures FixParent(c) == Ok(c.(parentId := c.parentId[2..]))
  {
    SplitOffTwoAscii(c.parentId);
  }

  /** A parent id shorter than two bytes panics. */
  lemma ShortParentPanics(c: Comment)
    requires |c.parentId| == 0 || (|c.parentId| == 1 && c.parentId[0] as int < 0x80)
    ensures FixParent(c) == Err(ParentIdNotSplittable)
  {
  }

  /**
   * `Comment::from_json_str`. Line parsing and struct deserialization, both
   * done by serde, are the given partial functions `parseJson` and
   * `deserialize`.
   */
  method FromJsonStr(line: string, parseJson: string -> Option<Value>, deserialize: Value -> Option<Comment>)
    returns (r: Result<Comment, Panic>)
    ensures parseJson(line).None? ==> r == Err(UnreadableJson)
    ensures parseJson(line).Some? && NormaliseJson(parseJson(line).value).Err? ==> r == Err(CreatedNotU64)
    ensures parseJson(line).Some? && NormaliseJson(parseJson(line).value).Ok? ==>
      var normalised := NormaliseJson(parseJson(line).value).value;
      r == match deserialize(normalised)
        case None => Err(NotAComment)
        case Some(c) => FixParent(c)
  {
    var parsed := parseJson(line);
    if parsed.None? {
      return Err(UnreadableJson);
    }
    var json := parsed.value;
    if json.Obj? && "created_utc" in json.fields {
      var created := json.fields["created_utc"];
      if created.Str? {
        var utc := FromStrRadix(created.s, 10, U64);
        if utc.None? {
          return Err(CreatedNotU64);
        }
        json := json.(fields := json.fields["created_utc" := Num(IntNum(utc.value))]);
      }
    }
    if json.Obj? && "score" in json.fields && json.fields["score"].Null? {
      json := json.(fields := json.fields["score" := Num(IntNum(0))]);
    }
    assert NormaliseJson(parsed.value) == Ok(json);
    var deserialized := deserialize(json);
    if deserialized.None? {
      return Err(NotAComment);
    }
    var comment := deserialized.value;
    if StartsWith(comment.parentId, "t3_") {
      comment := comment.(parentIsPost := true);
    }
    var tail := SplitOffTwo(comment.parentId);
    if tail.None? {
      return Err(ParentIdNotSplittable);
    }
    comment := comment.(parentId := tail.value);
    return Ok(comment);
  }
}
