/**
 * The comment record of reddit_types/comment.rs: the fields the pipeline
 * reads or stores, its `Filterable` projection and the `Distinguished` names.
 */
module RedditComment {
  import opened Wrappers
  import opened RedditTypes
  import RecordFilter

  /** Who distinguished a comment; JSON and static names are both snake_case. */
  datatype Distinguished = Admin | Moderator | Special

  function DistinguishedName(d: Distinguished): string
  {
    match d
    case Admin => "admin"
    case Moderator => "moderator"
    case Special => "special"
  }

  /** Reading `distinguished` from its JSON string: exactly the three names. */
  function DistinguishedFromName(s: string): (r: Option<Distinguished>)
    ensures r.Some? <==> s == "admin" || s == "moderator" || s == "special"
    ensures r.Some? ==> DistinguishedName(r.value) == s
  {
    match s
    case "admin" => Some(Admin)
    case "moderator" => Some(Moderator)
    case "special" => Some(Special)
    case _ => None
  }

  /** Names read back to the variant they name. */
  lemma DistinguishedRoundTrip(d: Distinguished)
    ensures DistinguishedFromName(DistinguishedName(d)) == Some(d)
  {
  }

  /** A comment. Author and subreddit are required fields; the score may be null. */
  datatype Comment = Comment(
    author: string,
    body: string,
    subreddit: string,
    subredditId: ParentId,
    subredditType: Option<SubredditType>,
    authorPremium: Option<bool>,
    score: Option<int>,
    ups: Option<int>,
    downs: Option<int>,
    createdUtc: int,
    retrievedOn: Option<int>,
    linkId: ParentId,
    id: string,
    permalink: Option<string>,
    parentId: Option<ParentId>,
    parentIsPost: bool,
    stickied: bool,
    isSubmitter: bool,
    distinguished: Option<Distinguished>,
    edited: Option<int>,
    archived: bool,
    locked: bool,
    collapsed: bool)

  /** `impl Filterable for Comment`: every projection is the field itself, and author and subreddit are always present. */
  function Filterable(c: Comment): (f: RecordFilter.Facts)
    ensures f.score == c.score && f.created == c.createdUtc
    ensures f.author == Some(c.author) && f.subreddit == Some(c.subreddit)
  {
    RecordFilter.Facts(c.score, Some(c.author), Some(c.subreddit), c.createdUtc)
  }

  /** For a comment the "absent author or subreddit" case never arises: membership is by its two names. */
  lemma AdmitComment(f: RecordFilter.Filter, c: Comment)
    ensures RecordFilter.Admit(f, Filterable(c)) <==>
      RecordFilter.BoundsPass(f, Filterable(c)) &&
      (RecordFilter.NoMembershipCriteria(f) || c.author in f.users || c.subreddit in f.subreddits)
  {
  }
}
