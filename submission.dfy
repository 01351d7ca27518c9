/**
 * The submission record of reddit_types/submission.rs: the fields the
 * pipeline reads or stores, its `Filterable` projection and the name tables
 * of its three enumerations.
 */
module RedditSubmission {
  import opened Wrappers
  import opened RedditTypes
  import RecordFilter

  /** The suggested comment sort; JSON and static names are both snake_case. */
  datatype SuggestedSort = Confidence | Controversial | Live | New | Old | Qa | Random | Top

  function SuggestedSortName(s: SuggestedSort): string
  {
    match s
    case Confidence => "confidence"
    case Controversial => "controversial"
    case Live => "live"
    case New => "new"
    case Old => "old"
    case Qa => "qa"
    case Random => "random"
    case Top => "top"
  }

  function SuggestedSortFromName(s: string): (r: Option<SuggestedSort>)
    ensures r.Some? ==> SuggestedSortName(r.value) == s
    ensures forall t :: SuggestedSortName(t) == s ==> r == Some(t)
  {
    match s
    case "confidence" => Some(Confidence)
    case "controversial" => Some(Controversial)
    case "live" => Some(Live)
    case "new" => Some(New)
    case "old" => Some(Old)
    case "qa" => Some(Qa)
    case "random" => Some(Random)
    case "top" => Some(Top)
    case _ => None
  }

  /**
   * The kind of content a post links to. Its JSON names are lower case with
   * three renamings; its static names are snake_case of the variant names.
   */
  datatype PostHint = Gallery | HostedVideo | Image | Link | RichVideo | Slf | Video

  /** The name serde reads. */
  function PostHintReadName(p: PostHint): string
  {
    match p
    case Gallery => "gallery"
    case HostedVideo => "hosted:video"
    case Image => "image"
    case Link => "link"
    case RichVideo => "rich:video"
    case Slf => "self"
    case Video => "video"
  }

  /** The static string strum gives. */
  function PostHintStaticName(p: PostHint): string
  {
    match p
    case Gallery => "gallery"
    case HostedVideo => "hosted_video"
    case Image => "image"
    case Link => "link"
    case RichVideo => "rich_video"
    case Slf => "slf"
    case Video => "video"
  }

  function PostHintFromName(s: string): (r: Option<PostHint>)
    ensures r.Some? ==> PostHintReadName(r.value) == s
    ensures forall p :: PostHintReadName(p) == s ==> r == Some(p)
  {
    match s
    case "gallery" => Some(Gallery)
    case "hosted:video" => Some(HostedVideo)
    case "image" => Some(Image)
    case "link" => Some(Link)
    case "rich:video" => Some(RichVideo)
    case "self" => Some(Slf)
    case "video" => Some(Video)
    case _ => None
  }

  /** The two names of a post hint differ for exactly three variants, and a static name of those is not read back. */
  lemma PostHintNamesDiffer(p: PostHint)
    ensures PostHintReadName(p) != PostHintStaticName(p) <==> p in {HostedVideo, RichVideo, Slf}
    ensures p in {HostedVideo, RichVideo, Slf} ==> PostHintFromName(PostHintStaticName(p)).None?
  {
  }

  /** Why a post was removed; JSON and static names are both snake_case. */
  datatype RemovedByCategory =
    Author | AutomodFiltered | ContentTakedown | Deleted | Moderator | Reddit | AntiEvilOps | CommunityOps | CopyrightTakedown

  function RemovedByCategoryName(c: RemovedByCategory): string
  {
    match c
    case Author => "author"
    case AutomodFiltered => "automod_filtered"
    case ContentTakedown => "content_takedown"
    case Deleted => "deleted"
    case Moderator => "moderator"
    case Reddit => "reddit"
    case AntiEvilOps => "anti_evil_ops"
    case CommunityOps => "community_ops"
    case CopyrightTakedown => "copyright_takedown"
  }

  function RemovedByCategoryFromName(s: string): (r: Option<RemovedByCategory>)
    ensures r.Some? ==> RemovedByCategoryName(r.value) == s
    ensures forall c :: RemovedByCategoryName(c) == s ==> r == Some(c)
  {
    match s
    case "author" => Some(Author)
    case "automod_filtered" => Some(AutomodFiltered)
    case "content_takedown" => Some(ContentTakedown)
    case "deleted" => Some(Deleted)
    case "moderator" => Some(Moderator)
    case "reddit" => Some(Reddit)
    case "anti_evil_ops" => Some(AntiEvilOps)
    case "community_ops" => Some(CommunityOps)
    case "copyright_takedown" => Some(CopyrightTakedown)
    case _ => None
  }

  /** A submission. Unlike a comment, its author and subreddit may be absent. */
  datatype Submission = Submission(
    author: Option<string>,
    authorPremium: Option<bool>,
    url: Option<string>,
    permalink: string,
    score: Option<int>,
    title: string,
    selftext: string,
    domain: Option<string>,
    subreddit: Option<string>,
    subredditId: Option<ParentId>,
    id: string,
    numComments: int,
    over18: bool,
    isSelf: bool,
    stickied: bool,
    createdUtc: int,
    editedUtc: Option<int>,
    retrievedOn: Option<int>,
    suggestedSort: Option<SuggestedSort>,
    crosspostParent: Option<ParentId>,
    postHint: Option<PostHint>,
    removedByCategory: Option<RemovedByCategory>,
    subredditType: Option<SubredditType>)

  /** `impl Filterable for Submission`: every projection is the field itself, absent when the field is. */
  function Filterable(s: Submission): (f: RecordFilter.Facts)
    ensures f.score == s.score && f.created == s.createdUtc
    ensures f.author == s.author && f.subreddit == s.subreddit
  {
    RecordFilter.Facts(s.score, s.author, s.subreddit, s.createdUtc)
  }

  /** A submission with neither author nor subreddit is refused as soon as any user or subreddit is listed. */
  lemma AnonymousSubmissionNeverListed(f: RecordFilter.Filter, s: Submission)
    requires s.author.None? && s.subreddit.None?
    ensures RecordFilter.Admit(f, Filterable(s)) <==>
      RecordFilter.NoMembershipCriteria(f) && RecordFilter.BoundsPass(f, Filterable(s))
  {
  }
}
