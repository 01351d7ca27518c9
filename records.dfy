/**
 * The two record kinds the pipeline is instantiated with, and the
 * `Storable` impls of every record type: each forwards to one insert of the
 * store and returns its answer.
 */
module Records {
  import opened Wrappers
  import RecordFilter
  import RedditComment
  import RedditSubmission
  import LegacySubmission
  import opened StorageTrait

  datatype Record =
    | CommentRecord(comment: RedditComment.Comment)
    | SubmissionRecord(submission: RedditSubmission.Submission)

  /** What the filter sees of a record: its kind's `Filterable` projection. */
  function View(r: Record): (f: RecordFilter.Facts)
    ensures r.CommentRecord? ==> f.author == Some(r.comment.author) && f.subreddit == Some(r.comment.subreddit)
    ensures r.CommentRecord? ==> f.score == r.comment.score && f.created == r.comment.createdUtc
    ensures r.SubmissionRecord? ==> f.author == r.submission.author && f.subreddit == r.submission.subreddit
    ensures r.SubmissionRecord? ==> f.score == r.submission.score && f.created == r.submission.createdUtc
  {
    match r
    case CommentRecord(c) => RedditComment.Filterable(c)
    case SubmissionRecord(s) => RedditSubmission.Filterable(s)
  }

  /** The insert that storing a record makes. */
  function CallFor(r: Record): (call: StoreCall)
    ensures r.CommentRecord? <==> call.CommentInsert?
    ensures r.CommentRecord? ==> call == CommentInsert(r.comment)
    ensures r.SubmissionRecord? ==> call == SubmissionInsert(Current(r.submission))
  {
    match r
    case CommentRecord(c) => CommentInsert(c)
    case SubmissionRecord(s) => SubmissionInsert(Current(s))
  }

  /** The inserts that storing several records in order makes. */
  function CallsFor(rs: seq<Record>): (calls: seq<StoreCall>)
    ensures |calls| == |rs|
    ensures forall i :: 0 <= i < |rs| ==> calls[i] == CallFor(rs[i])
  {
    seq(|rs|, i requires 0 <= i < |rs| => CallFor(rs[i]))
  }

  /** `impl Storable for Comment` of reddit_types/comment.rs. */
  method StoreComment(db: Storage, c: RedditComment.Comment) returns (r: Result<nat, StoreError>)
    modifies db
    ensures db.calls == old(db.calls) + [CommentInsert(c)]
    ensures r == db.respond(db.calls)
  {
    r := db.InsertComment(c);
  }

  /** `impl Storable for Submission` of reddit_types/submission.rs. */
  method StoreSubmission(db: Storage, s: RedditSubmission.Submission) returns (r: Result<nat, StoreError>)
    modifies db
    ensures db.calls == old(db.calls) + [SubmissionInsert(Current(s))]
    ensures r == db.respond(db.calls)
  {
    r := db.InsertSubmission(Current(s));
  }

  /** `impl Storable for Submission` of submission.rs. */
  method StoreLegacySubmission(db: Storage, s: LegacySubmission.Submission) returns (r: Result<nat, StoreError>)
    modifies db
    ensures db.calls == old(db.calls) + [SubmissionInsert(Legacy(s))]
    ensures r == db.respond(db.calls)
  {
    r := db.InsertSubmission(Legacy(s));
  }

  /** `content.store(db)` for a record of either kind. */
  method Store(db: Storage, r: Record) returns (res: Result<nat, StoreError>)
    modifies db
    ensures db.calls == old(db.calls) + [CallFor(r)]
    ensures res == db.respond(db.calls)
  {
    match r
    case CommentRecord(c) =>
      res := StoreComment(db, c);
    case SubmissionRecord(s) =>
      res := StoreSubmission(db, s);
  }
}
