# Pushshift importer: the per-record decision path

This project models the core of Pushshift-Importer. The importer reads Reddit
dump files (one JSON record per line) and stores the comments and
submissions that a filter admits in a database. The model covers how a
record travels from a line of text to the store:

- the worker loop that pops files from a shared queue, trims and parses each
  line, and sends admitted records on a channel;
- the consumer that stores every received record and counts them;
- the admission filter and how its configuration is built from the command
  line;
- the three JSON scalar normalisers (required time, optional time, score);
- the fullname (`t3_1a`) parser with its base-36 conversion;
- the `Filterable` and `Storable` adapters of the record types, including the
  enumeration name tables;
- the older comment record's `from_json_str` rewrites and the older
  submission record.

One module per source file:

| module | file | form |
|---|---|---|
| `RecordFilter` | `src/filter.rs` | functions and lemmas |
| `RedditTypes` | `src/reddit_types/mod.rs` | functions and lemmas |
| `Deser` | `src/deser.rs` | functions and lemmas |
| `RedditComment`, `RedditSubmission` | `src/reddit_types/comment.rs`, `src/reddit_types/submission.rs` | datatypes, functions, lemmas |
| `LegacyComment` | `src/comment.rs` | a method that rewrites its JSON value step by step, specified by functions |
| `LegacySubmission` | `src/submission.rs` | functions and lemmas |
| `StorageTrait` | `src/storage.rs` | a class whose methods append to a call log |
| `Records` | the `Storable` impls | the two record kinds and their store calls |
| `Pipeline` | `src/main.rs` | classes for the queue, counter and channel; methods with loops, specified by functions |

Three shared modules support these: `Wrappers` (Option and Result), `IntText`
(Rust's `from_str_radix`, `str::parse` and base rendering for `i64`/`u64`) and
`Json` (serde_json's `Value`).

Choices the model makes:

- **Threads.** The workers run one after the other, and the consumer runs
  after them. The consumer therefore never sleeps, and it stops at the first
  empty receive, since every worker has finished by then. The threads allow
  this schedule only while at most 10000 records are admitted: beyond that a
  worker's `send` blocks on the full channel until the consumer receives.
  The model ignores the channel's capacity.
- **The channel** is an unbounded sequence.
- **Outside inputs are given functions:** opening a file into its line
  stream, parsing a trimmed line into a record (serde), and the database's
  answer to each insert.
- **Generic workers.** As in `process<T, U>` and `ThreadContext<T>`, the
  worker half of the pipeline is generic in the record type, and takes the
  record type's `Filterable` projection as a parameter. `Run`, `Process`
  and `ProcessAsWritten` fix it to `Records.View`, the projection of the
  record impls.
- **Records.** The consumer is instantiated with `Records.Record`, the sum
  of the comment and submission kinds. Each kind stores through its own
  `Storable` impl.
- **Storage** is modelled as the source has it: one insert call per record,
  answered by the database. No batching or transactions are visible in the
  code, so none are modelled.
- **Legacy submission store.** The older `submission.rs` record forwards to
  `insert_submission` with itself, while the `Storage` trait takes the
  `reddit_types` record. The model gives `insert_submission` a payload that
  is either kind, so both forwardings can be stated.
- **JSON floats** are carried as the exact real value of the `f64`. Rounding
  is half away from zero, and `as i64` saturates.

## Model

| member | source | states |
|---|---|---|
| RecordFilter.Admit | src/filter.rs:26-67 | a record is admitted exactly when its known score and its creation time pass every configured bound, and either no user or subreddit is listed, or its author is a listed user, or its subreddit is a listed subreddit |
| RecordFilter.ScoreBounds | src/filter.rs:27-39 | a known score below the minimum or above the maximum rejects; an unknown score is never rejected by either score bound |
| RecordFilter.ScoreBoundsInclusive | src/filter.rs:27-39 | a known score equal to a bound, or between the bounds, passes both score checks |
| RecordFilter.DateBounds | src/filter.rs:41-47 | a creation time before the minimum or after the maximum rejects; equality with either bound passes it |
| RecordFilter.NoSetsMeansBoundsOnly | src/filter.rs:49-51 | with no users and no subreddits, admission is exactly passing the bounds |
| RecordFilter.MembershipIsOr | src/filter.rs:52-66 | with users or subreddits listed, admission is bounds AND (author listed OR subreddit listed); an absent author or subreddit is not a member |
| RecordFilter.FailedBoundOverridesMembership | src/filter.rs:27-47 | failing any bound rejects, whatever the memberships |
| RecordFilter.UnitTests | src/filter.rs:165-282 | every assertion of the five unit tests of filter.rs |
| RecordFilter.NameSet | src/filter.rs:70-79 | the collected set holds exactly the listed names, and is empty when no list is given |
| RecordFilter.FromCli | src/filter.rs:69-118 | panics exactly when the minimum score is not a decimal i64; otherwise the filter holds the given sets and bounds, and a warning is logged exactly when the score or the date bounds are inverted |
| RecordFilter.InvertedScoreBoundsRejectKnownScores | src/filter.rs:85-90 | inverted score bounds only warn, and the filter built then rejects every record with a known score |
| RecordFilter.InvertedDateBoundsRejectAll | src/filter.rs:104-109 | inverted date bounds only warn, and the filter built then rejects every record |
| IntText.DigitValue | src/reddit_types/mod.rs:51-53 | a character's digit value is below the radix and comes only from an ASCII digit or letter |
| IntText.FromStrRadix | src/reddit_types/mod.rs:56 | a success is all digits of the radix after at most one sign (`-` only for signed types); all-digit text, with or without `+` or an accepted `-`, is read to its signed value when that fits the type and refused otherwise; `-` before an unsigned type is refused |
| IntText.DigitChar | src/reddit_types/mod.rs:43 | the digit written for a value is read back as that value |
| IntText.ToRadix | src/reddit_types/mod.rs:43 | the rendering is non-empty, consists of digits of the base and has no sign |
| IntText.DigitsOfToRadix | src/reddit_types/mod.rs:43 | the digits of a rendering have the rendered value |
| IntText.ToRadixRoundTrip | src/reddit_types/mod.rs:41-45 | parsing the rendering of any non-negative value of the type gives the value back |
| IntText.NegativeRoundTrip | src/deser.rs:24 | a minus sign followed by the rendering of a magnitude is parsed as the negative i64 |
| Json.AsI64 | src/deser.rs:11 | a number is an i64 exactly when it is an integer within i64, and the value is that integer |
| Json.AsU64 | src/deser.rs:13 | a number is a u64 exactly when it is an integer within u64, and the value is that integer |
| Json.AsF64 | src/deser.rs:15 | every number has a float reading: an integer's exact value, or the float itself |
| Json.Round | src/deser.rs:16 | rounding lands within one half of the value, with halves going away from zero |
| Json.SaturateI64 | src/deser.rs:16 | the cast lies within i64, keeps values within i64 and clamps the others to the nearer bound |
| Deser.ParseI64 | src/deser.rs:24 | results are i64; a decimal digit string, with or without a leading `-`, is read to its value when that fits i64 |
| Deser.NumberTime | src/deser.rs:10-22 | an i64 integer is itself; any other integer is out of range (the u64 branch never succeeds); a float is rounded and saturated |
| Deser.DeserializeTime | src/deser.rs:4-29 | results are i64; a string is accepted exactly when it parses as a decimal i64, and gives that value; null, booleans, arrays and objects are refused |
| Deser.DeserializeOptionalTime | src/deser.rs:31-58 | null and booleans give no time; arrays and objects are refused; values given are i64 |
| Deser.DeserializeScore | src/deser.rs:60-81 | null, and only null, gives no score; a number is accepted exactly when it is an i64 integer; a string exactly when it parses as a decimal i64; booleans, arrays and objects are refused |
| Deser.OptionalTimeAgreesWithTime | src/deser.rs:31-58 | for every value other than null or a boolean, the optional reading is the required reading wrapped in Some, with the same errors |
| Deser.IntegerTimes | src/deser.rs:10-12 | an i64 integer is read as itself by all three normalisers |
| Deser.LargeUnsignedTimeRefused | src/deser.rs:13-14 | an integer above i64's maximum is refused as a time and as a score |
| Deser.FloatScoreRefused | src/deser.rs:66-70 | a float is never rounded into a score |
| Deser.FloatTimeExamples | src/deser.rs:15-16 | float times round half away from zero |
| RedditTypes.SubredditTypeFromName | src/reddit_types/mod.rs:7-18 | a subreddit type is read from exactly its snake_case name |
| RedditTypes.IdFromJson | src/reddit_types/mod.rs:27-32 | a string is taken as the string variant; a number that is an i64 gives the integer variant with that value; anything else matches no variant |
| RedditTypes.DeserializeParentId | src/reddit_types/mod.rs:34-70 | a string is parsed as a fullname, an i64 number as a bare integer id, and anything else matches no variant; a result without a type digit comes only from a number |
| RedditTypes.SplitOnce | src/reddit_types/mod.rs:49 | there is no split exactly when the character is absent; a split puts the parts back together around the character, and the first part does not contain it |
| RedditTypes.SplitOnceAt | src/reddit_types/mod.rs:49 | the split is at the first occurrence of the character |
| RedditTypes.ParseParentId | src/reddit_types/mod.rs:40-68 | an integer gives no type and itself as the value, with a rendering that parses back in base 36 when it is not negative; a string without an underscore is refused; a string success has a type digit from 0 to 9, a payload whose base-36 value is the decoded id, and a prefix before the first underscore whose second character is that digit |
| RedditTypes.Base36Text | src/reddit_types/mod.rs:43 | a non-negative id is written as base-36 digits whose value is the id (a negative one as `-` and the digits of its magnitude) |
| RedditTypes.Base36TextRoundTrip | src/reddit_types/mod.rs:41-45 | the base-36 rendering of a non-negative i64 parses back to it |
| RedditTypes.StringFullname | src/reddit_types/mod.rs:46-67 | the string form exactly: a short or non-digit prefix is an invalid id, a bad payload is an invalid base-36 number, and otherwise the type digit, the payload and its value are returned |
| RedditTypes.FullnameRoundTrip | src/reddit_types/mod.rs:46-67 | any tag, type digit and non-negative i64 written as a fullname decode back to that digit, text and value |
| RedditTypes.SecondUnderscoreRejected | src/reddit_types/mod.rs:56-61 | a second underscore makes the payload an invalid base-36 number |
| RedditTypes.ExampleT3 | src/reddit_types/mod.rs:46-67 | `t3_1a` decodes to type 3, text `1a` and value 46 |
| RedditTypes.ExampleFirstCharUnchecked | src/reddit_types/mod.rs:50 | the first character of the prefix is never checked: `x3_1a` decodes like `t3_1a` |
| RedditTypes.ShortKindRefused | src/reddit_types/mod.rs:50 | a one-character prefix is refused |
| RedditTypes.LetterKindRefused | src/reddit_types/mod.rs:51-55 | a prefix whose second character is not a decimal digit is refused |
| RedditTypes.EmptyIdRefused | src/reddit_types/mod.rs:56-61 | an empty payload is an invalid base-36 number |
| RedditTypes.MissingUnderscoreRefused | src/reddit_types/mod.rs:49 | text without an underscore is refused |
| RedditTypes.LinkIdRendering | src/reddit_types/comment.rs:110 | the sample link id's payload `1btio9w` and the value 2891490404 are each other's base-36 rendering and parse |
| RedditTypes.SubredditIdRendering | src/reddit_types/comment.rs:110 | the sample subreddit id's payload `ar9yc0` and the value 650475792 correspond likewise |
| RedditTypes.ParentIdRendering | src/reddit_types/comment.rs:110 | the sample integer parent id 45568804275 renders as `kxmhmer` and parses back |
| RedditTypes.LinkIdSample | src/reddit_types/comment.rs:108-112 | the sample `t3_1btio9w` is accepted with type 3 |
| RedditTypes.SubredditIdSample | src/reddit_types/comment.rs:108-112 | the sample `t5_ar9yc0` is accepted with type 5 |
| RedditTypes.IntegerParentSample | src/reddit_types/comment.rs:108-112 | the sample integer 45568804275 is accepted with no type |
| RedditComment.DistinguishedFromName | src/reddit_types/comment.rs:67-74 | exactly `admin`, `moderator` and `special` are read, each as the variant it names |
| RedditComment.DistinguishedRoundTrip | src/reddit_types/comment.rs:67-74 | every variant's name is read back as that variant |
| RedditComment.Filterable | src/reddit_types/comment.rs:76-89 | score and creation time are the fields unchanged; author and subreddit are always present |
| RedditComment.AdmitComment | src/reddit_types/comment.rs:80-85 | a comment is admitted exactly when it passes the bounds and no names are listed, or its author or its subreddit is listed |
| RedditSubmission.SuggestedSortFromName | src/reddit_types/submission.rs:82-94 | a sort is read from exactly its snake_case name |
| RedditSubmission.PostHintFromName | src/reddit_types/submission.rs:96-110 | a post hint is read from exactly its serde name (`hosted:video`, `rich:video`, `self` and the lower-case others) |
| RedditSubmission.PostHintNamesDiffer | src/reddit_types/submission.rs:96-110 | the serde and static names differ for exactly the hosted video, rich video and self variants, and those static names are not read back |
| RedditSubmission.RemovedByCategoryFromName | src/reddit_types/submission.rs:112-125 | a removal category is read from exactly its snake_case name |
| RedditSubmission.Filterable | src/reddit_types/submission.rs:127-140 | every projection is the field itself; author and subreddit are absent exactly when the fields are |
| RedditSubmission.AnonymousSubmissionNeverListed | src/reddit_types/submission.rs:131-136 | a submission without author and subreddit is admitted only when no names are listed and the bounds pass |
| LegacyComment.Utf8Width | src/comment.rs:57 | a character takes one to four bytes, and one exactly when it is ASCII |
| LegacyComment.SplitOffTwo | src/comment.rs:57 | the split succeeds exactly when some prefix is two bytes long, and keeps the text after that prefix; otherwise it panics |
| LegacyComment.SplitOffTwoAscii | src/comment.rs:57 | with two ASCII characters in front, the split drops exactly those two |
| LegacyComment.NormaliseJson | src/comment.rs:39-49 | panics exactly when an object's `created_utc` is a string that is not a u64; a string `created_utc` becomes its u64 value and a null `score` becomes 0; every other field and every non-object is unchanged |
| LegacyComment.FixParent | src/comment.rs:54-57 | panics exactly when the parent id cannot be split at byte 2; the parent is marked a post when the id starts with `t3_` and keeps its flag otherwise; the id becomes its text after byte 2; nothing else changes |
| LegacyComment.PostParent | src/comment.rs:54-57 | a `t3_` parent is marked a post and keeps its underscore: `t3_abc` becomes `_abc` |
| LegacyComment.OtherParent | src/comment.rs:54-57 | any other parent with two ASCII characters in front keeps the deserialized flag and loses those two |
| LegacyComment.ShortParentPanics | src/comment.rs:57 | a parent id shorter than two bytes panics |
| LegacyComment.FromJsonStr | src/comment.rs:35-59 | unreadable JSON panics; otherwise the normalised value is deserialized (a failure panics) and the parent rewrite is applied to the comment |
| LegacySubmission.Filterable | src/submission.rs:39-52 | every projection is the field itself; author and subreddit are absent exactly when the fields are |
| LegacySubmission.DecimalText | src/submission.rs:34-35 | the decimal text of an integer: its digits have the integer's value, with a leading `-` exactly for negatives |
| LegacySubmission.CreatedTextRoundTrip | src/submission.rs:34-35 | any i64 creation time is read back as itself, written either as a number or as its decimal text |
| LegacySubmission.CreatedTextRefused | src/submission.rs:34-35 | empty or sign-only text, or text holding an underscore or a space, is refused and not read as zero |
| StorageTrait.Storage.InsertComment | src/storage.rs:5 | the insert is appended to the store's log, and its answer is the database's answer to that log |
| StorageTrait.Storage.InsertSubmission | src/storage.rs:6 | the same for a submission |
| Records.View | src/reddit_types/comment.rs:76-89 | a record is filtered by its own kind's projection: a comment by its fields with author and subreddit always present, a submission by its fields as they are |
| Records.CallFor | src/main.rs:147 | a comment record makes a comment insert of that comment, a submission record a submission insert of that submission |
| Records.CallsFor | src/main.rs:143-149 | storing records in order makes one insert per record, in the same order |
| Records.StoreComment | src/reddit_types/comment.rs:91-95 | a comment is stored by exactly one `insert_comment` call, and its answer is returned |
| Records.StoreSubmission | src/reddit_types/submission.rs:142-146 | a submission is stored by exactly one `insert_submission` call, and its answer is returned |
| Records.StoreLegacySubmission | src/submission.rs:54-58 | an older submission is stored by exactly one `insert_submission` call, and its answer is returned |
| Records.Store | src/main.rs:147 | a record of either kind makes exactly its own insert |
| Pipeline.FirstBrace | src/main.rs:229 | the index found is the first brace at or after the start, or the end |
| Pipeline.LastBraceEnd | src/main.rs:229 | the index found is just after the last brace in the range, or the range's start |
| Pipeline.TrimToBraces | src/main.rs:229 | the trimmed line is a contiguous part of the line, with no brace before or after it, and starts and ends with a brace when it is not empty |
| Pipeline.TrimCharacterisation | src/main.rs:229 | brace-free text on either side of a brace-delimited middle is removed, and the middle is kept exactly |
| Pipeline.TrimIdempotent | src/main.rs:229 | trimming twice is trimming once |
| Pipeline.TrimEmptyIffNoBrace | src/main.rs:229 | the trim is empty exactly when the line holds no brace |
| Pipeline.LineOutput | src/main.rs:218-241 | a line sends a record exactly when it was read, its trim parses, and the filter admits the parse; the record sent is that parse, and at most one is sent |
| Pipeline.LinesOutput | src/main.rs:218-242 | a line stream sends at most one record per line |
| Pipeline.LinesOutputAdmitted | src/main.rs:237-241 | every record sent is admitted by the filter |
| Pipeline.LinesOutputAppend | src/main.rs:218-242 | records are sent in line order: the output of two streams in a row is the first's followed by the second's |
| Pipeline.SkippedLine | src/main.rs:220-236 | a line that fails to read, fails to parse or is refused is skipped, and the lines after it are still processed |
| Pipeline.SentLine | src/main.rs:237-241 | an admitted line's record is sent between the records of the lines before it and those after it |
| Pipeline.OutputFromLines | src/main.rs:229-241 | every record sent is the parse of the trim of some line of the stream |
| Pipeline.FileOutput | src/main.rs:210-242 | a file that fails to open contributes nothing; an opened file contributes at most one record per line |
| Pipeline.FilesOutput | src/main.rs:209-243 | no files contribute nothing, and one file contributes its own output |
| Pipeline.NoFileOpens | src/main.rs:210-216 | when no file opens, nothing is sent |
| Pipeline.FilesOutputAdmitted | src/main.rs:237-241 | whatever the files, every record sent is admitted |
| Pipeline.FilesOutputAppend | src/main.rs:209-243 | files are processed one after the other, and their outputs follow in the same order |
| Pipeline.SkippedFile | src/main.rs:210-216 | a file that fails to open is skipped, and the files after it are still processed |
| Pipeline.QueueOutput | src/main.rs:203-209 | an empty queue sends nothing, and a queue of one file sends that file's records |
| Pipeline.QueueOutputPop | src/main.rs:209 | the last file of the queue is processed first, then the rest of the queue |
| Pipeline.FileQueue.Pop | src/main.rs:205 | removes and returns the last file, keeping the others in order; returns nothing exactly when the queue is empty |
| Pipeline.Counter.FetchAdd | src/main.rs:244 | returns the previous value and adds to it |
| Pipeline.Channel.Send | src/main.rs:238 | the record joins the back of the channel |
| Pipeline.Channel.TryRecv | src/main.rs:144 | takes the oldest record; nothing exactly when the channel is empty |
| Pipeline.ThreadContext.GetNextFile | src/main.rs:203-206 | pops the shared queue: the last file, or nothing exactly when the queue is empty |
| Pipeline.ThreadContext.ProcessLines | src/main.rs:218-242 | the channel gains exactly the records the line stream sends, in line order |
| Pipeline.ThreadContext.ProcessFile | src/main.rs:210-242 | the channel gains what the file's lines send, or nothing when it fails to open |
| Pipeline.ThreadContext.ProcessQueue | src/main.rs:208-245 | the worker stops only when the queue is empty; it takes each file once, last first; the channel gains every file's records in that order; it counts itself finished exactly once |
| Pipeline.SpawnedWorkers | src/main.rs:127-128 | as written, fewer workers than cores, and none exactly on a single core |
| Pipeline.WorkerCount | src/main.rs:127-128 | at least one worker, and as many as spawned whenever there are two cores or more |
| Pipeline.Consume | src/main.rs:141-164 | when the channel drains, every received record has been stored in order, each insert answered with a row count, and the count is their number; when an insert fails, the records before it were stored and the store panics at the failing one |
| Pipeline.Run | src/main.rs:118-169 | with the records' own projection, and at least one worker, a finished run stores exactly the records of every file that the filter admits by that projection, in queue order, and counts them; a panicking run stored a prefix of them and ends at a failed insert; with no worker nothing is stored |
| Pipeline.ProcessAsWritten | src/main.rs:127-128 | as written, a single core spawns no worker, so nothing is stored and the count is 0 |
| Pipeline.Process | src/main.rs:118-169 | with the corrected worker count, a finished run stores every record of every file that the filter admits by the records' own projection, in queue order, and counts them |
| Pipeline.SingleCoreLosesRecords | src/main.rs:154-158 | a file holding one line that parses sends that record, so the single-core run loses it |

## Left out

- Threads. The workers run one after another, and then the consumer. Other interleavings, the sleep-and-poll wait, the lock and the channel's capacity of 10000 (its backpressure) are not modelled.
- Pipeline.Run: its promise that a finished run stores exactly the admitted records holds for the sequential schedule only. Under real threads the consumer can lose the last record. It sees `Empty` (src/main.rs:144); then the last worker sends and counts itself finished (src/main.rs:238, 244); then the consumer reads the finished count, which now equals the number of workers, and stops (src/main.rs:154-158).
- Pipeline.Run: with more than 10000 admitted records, the sequential schedule is not one the threads allow, since `sync_channel(10000)` (src/main.rs:126) blocks a worker's `send` until the consumer receives.
- The `Disconnected` branch of the consumer (src/main.rs:150-153) is not modelled: in the modelled schedule every sender is still owned when the consumer runs.
- The send failure (src/main.rs:238-240) is not modelled: the receiver lives for the whole run.
- Joining the threads (src/main.rs:166-168) and the logging throughout are not modelled.
- Decompression and `stream_lines` (src/decompress.rs) are I/O. A file's line stream is given, as an open error or a sequence of lines and read errors.
- The SQLite store (src/sqlite/mod.rs) is a foreign database. Its answers are a given function of the call log.
- Whole-record deserialization is serde. `parse` and `deserialize` are given partial functions, and the struct schemas appear only as the fields the model reads.
- The chrono date parsing in `Filter::from_cli` and `date_format_validator` is a foreign library. Dates arrive as timestamps.
- Clap argument parsing, logger setup, `get_file_list` and the `main` that calls `process` once per record kind are I/O and setup.
- Json.AsF64: the `f64` branches read floats as exact reals. Binary rounding, NaN and infinities are not modelled, because no float is ever produced from text here.
- RedditTypes.Base36Text: for negative integers, the rendering follows a sign-and-magnitude form. radix_fmt's own output for negatives is not visible, so no property is claimed for them.
- LegacyComment.NormaliseJson: a `u64` that does not fit the `i64` field is refused by the given `deserialize`. No constraint ties `deserialize` to the field types.
- The record types `main` instantiates with. `main` (src/main.rs:24-31, 109-114) names the older `comment.rs` and `submission.rs` types. The older comment implements neither `Filterable` nor `Storable`, while `Storage` takes the `reddit_types` records. The pipeline is therefore instantiated with the `reddit_types` records, and the older submission's store is stated on its own (`Records.StoreLegacySubmission`).
- The older comment's score is declared `i32`. The model holds it as an unbounded integer, and the field's range check is left to the given `deserialize`.
- StorageTrait.Storage: `insert_submission` also accepts the older `submission.rs` record. The shown code mixes both record generations, and the trait names only the newer one.

## Findings

| source | as written | input that shows it | evidently intended | confidence | as-written member | corrected member |
|---|---|---|---|---|---|---|
| src/main.rs:127-128, 154-158 | `process` spawns one worker fewer than the physical cores, and the consumer stops at the first empty receive once the finished count reaches that number | a machine with one physical core and one file holding one admitted line: no worker runs, the consumer stops at once, and the record is never read or stored | at least one worker on every machine, so every admitted record is stored | not executed; the arithmetic case is certain | Pipeline.ProcessAsWritten, Pipeline.SingleCoreLosesRecords | Pipeline.Process, Pipeline.WorkerCount |
