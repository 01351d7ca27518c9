/**
 * The `Storage` trait of storage.rs, the one interface through which records
 * reach the database. The database itself is foreign: a store keeps the log
 * of calls made on it, and its answer to each call is a given function of
 * that log.
 */
module StorageTrait {
  import opened Wrappers
  import RedditComment
  import RedditSubmission
  import LegacySubmission

  /** What `insert_submission` is handed: the current record, or the older one that forwards to it too. */
  datatype SubmissionPayload =
    | Current(submission: RedditSubmission.Submission)
    | Legacy(legacy: LegacySubmission.Submission)

  datatype StoreCall =
    | CommentInsert(comment: RedditComment.Comment)
    | SubmissionInsert(payload: SubmissionPayload)

  /** The `anyhow::Error` of a failed insert. */
  datatype StoreError = StoreError(message: string)

  class Storage {
    /** Every insert made so far, oldest first. */
    var calls: seq<StoreCall>
    /** The database's answer (rows changed, or an error) to the latest call of a log. */
    const respond: seq<StoreCall> -> Result<nat, StoreError>

    constructor(respond: seq<StoreCall> -> Result<nat, StoreError>)
      ensures calls == [] && this.respond == respond
    {
      calls := [];
      this.respond := respond;
    }

    /** `insert_comment`. */
    method InsertComment(comment: RedditComment.Comment) returns (r: Result<nat, StoreError>)
      modifies this
      ensures calls == old(calls) + [CommentInsert(comment)]
      ensures r == respond(calls)
    {
      calls := calls + [CommentInsert(comment)];
      r := respond(calls);
    }

    /** `insert_submission`. */
    method InsertSubmission(submission: SubmissionPayload) returns (r: Result<nat, StoreError>)
      modifies this
      ensures calls == old(calls) + [SubmissionInsert(submission)]
      ensures r == respond(calls)
    {
      calls := calls + [SubmissionInsert(submission)];
      r := respond(calls);
    }
  }
}
