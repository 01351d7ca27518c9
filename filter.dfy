/**
 * The admission predicate of filter.rs and the construction of its
 * configuration from the command line.
 */
module RecordFilter {
  import opened Wrappers
  import IntText

  /** What the filter reads of a record: the `Filterable` projections. */
  datatype Facts = Facts(score: Option<int>, author: Option<string>, subreddit: Option<string>, created: int)

  /** The immutable filter configuration. All four bounds are inclusive. */
  datatype Filter = Filter(
    users: set<string>,
    subreddits: set<string>,
    minScore: Option<int>,
    maxScore: Option<int>,
    minDate: Option<int>,
    maxDate: Option<int>)

  /** No filter at all: `Filter::default()`. */
  const Default := Filter({}, {}, None, None, None, None)

  // Reference definitions of admission, stated as conditions rather than as the source's chain of early returns.

  /** A known score lies within every configured score bound; an unknown score always does. */
  predicate ScoreWithin(f: Filter, c: Facts) {
    c.score.Some? ==>
      (f.minScore.Some? ==> f.minScore.value <= c.score.value) &&
      (f.maxScore.Some? ==> c.score.value <= f.maxScore.value)
  }

  /** The creation time lies within every configured date bound. */
  predicate CreatedWithin(f: Filter, c: Facts) {
    (f.minDate.Some? ==> f.minDate.value <= c.created) &&
    (f.maxDate.Some? ==> c.created <= f.maxDate.value)
  }

  predicate BoundsPass(f: Filter, c: Facts) { ScoreWithin(f, c) && CreatedWithin(f, c) }

  predicate NoMembershipCriteria(f: Filter) { f.users == {} && f.subreddits == {} }

  /** The author is a listed user, or the subreddit a listed subreddit; an absent one is never listed. */
  predicate Listed(f: Filter, c: Facts) {
    (c.author.Some? && c.author.value in f.users) ||
    (c.subreddit.Some? && c.subreddit.value in f.subreddits)
  }

  /** `Filter::filter`. */
  function Admit(f: Filter, c: Facts): (admitted: bool)
    ensures admitted <==> BoundsPass(f, c) && (NoMembershipCriteria(f) || Listed(f, c))
  {
    var belowMin := match (f.minScore, c.score)
      case (Some(min), Some(score)) => score < min
      case _ => false;
    var aboveMax := match (f.maxScore, c.score)
      case (Some(max), Some(score)) => max < score
      case _ => false;
    if belowMin then false
    else if aboveMax then false
    else if f.minDate.Some? && c.created < f.minDate.value then false
    else if f.maxDate.Some? && f.maxDate.value < c.created then false
    else if |f.users| == 0 && |f.subreddits| == 0 then true
    else if (match c.author case Some(a) => a in f.users case None => false) then true
    else if (match c.subreddit case Some(s) => s in f.subreddits case None => false) then true
    else false
  }

  /** A known score below the minimum, or above the maximum, rejects; an unknown score is never rejected by a score bound. */
  lemma ScoreBounds(f: Filter, c: Facts)
    ensures c.score.Some? && f.minScore.Some? && c.score.value < f.minScore.value ==> !Admit(f, c)
    ensures c.score.Some? && f.maxScore.Some? && f.maxScore.value < c.score.value ==> !Admit(f, c)
    ensures c.score.None? ==> Admit(f, c) == Admit(f.(minScore := None, maxScore := None), c)
  {
  }

  /** The score bounds are inclusive: a known score between them, or equal to either, passes both. */
  lemma ScoreBoundsInclusive(f: Filter, c: Facts)
    requires c.score.Some?
    requires f.minScore.None? || f.minScore.value <= c.score.value
    requires f.maxScore.None? || c.score.value <= f.maxScore.value
    ensures Admit(f, c) == Admit(f.(minScore := None, maxScore := None), c)
  {
  }

  /** Creation times outside the window reject; equality with either end passes it. */
  lemma DateBounds(f: Filter, c: Facts)
    ensures f.minDate.Some? && c.created < f.minDate.value ==> !Admit(f, c)
    ensures f.maxDate.Some? && f.maxDate.value < c.created ==> !Admit(f, c)
    ensures f.minDate == Some(c.created) ==> Admit(f, c) == Admit(f.(minDate := None), c)
    ensures f.maxDate == Some(c.created) ==> Admit(f, c) == Admit(f.(maxDate := None), c)
  {
  }

  /** Without users or subreddits, a record is admitted exactly when it passes the bounds. */
  lemma NoSetsMeansBoundsOnly(f: Filter, c: Facts)
    requires NoMembershipCriteria(f)
    ensures Admit(f, c) <==> BoundsPass(f, c)
  {
  }

  /** With users or subreddits, the two memberships are alternatives. */
  lemma MembershipIsOr(f: Filter, c: Facts)
    requires !NoMembershipCriteria(f)
    ensures Admit(f, c) <==> BoundsPass(f, c) && (Listed(f, c))
    ensures BoundsPass(f, c) && c.author.Some? && c.author.value in f.users ==> Admit(f, c)
    ensures BoundsPass(f, c) && c.subreddit.Some? && c.subreddit.value in f.subreddits ==> Admit(f, c)
    ensures c.author.None? && c.subreddit.None? ==> !Admit(f, c)
  {
  }

  /** A failed bound overrides any membership. */
  lemma FailedBoundOverridesMembership(f: Filter, c: Facts)
    requires !BoundsPass(f, c)
    ensures !Admit(f, c)
  {
  }

  /** The unit tests of filter.rs, case by case. */
  lemma UnitTests()
    // test_subreddit and test_authors
    ensures Admit(Default, Facts(None, None, Some("test"), 0))
    ensures Admit(Default.(subreddits := {"test"}), Facts(None, None, Some("test"), 0))
    ensures Admit(Default.(subreddits := {"test", "test2"}), Facts(None, None, Some("test"), 0))
    ensures !Admit(Default.(subreddits := {"test2"}), Facts(None, None, Some("test"), 0))
    ensures Admit(Default, Facts(None, Some("test"), None, 0))
    ensures Admit(Default.(users := {"test"}), Facts(None, Some("test"), None, 0))
    ensures Admit(Default.(users := {"test", "test2"}), Facts(None, Some("test"), None, 0))
    ensures !Admit(Default.(users := {"test2"}), Facts(None, Some("test"), None, 0))
    // test_score
    ensures Admit(Default, Facts(None, None, None, 0))
    ensures Admit(Default.(minScore := Some(5)), Facts(None, None, None, 0))
    ensures Admit(Default.(minScore := Some(5)), Facts(Some(10), None, None, 0))
    ensures !Admit(Default.(minScore := Some(5)), Facts(Some(1), None, None, 0))
    ensures Admit(Default.(maxScore := Some(10)), Facts(Some(1), None, None, 0))
    ensures Admit(Default.(maxScore := Some(10)), Facts(Some(10), None, None, 0))
    // test_date
    ensures Admit(Default, Facts(None, None, None, 100))
    ensures Admit(Default.(minDate := Some(5)), Facts(None, None, None, 100))
    ensures Admit(Default.(minDate := Some(5)), Facts(None, None, None, 10))
    ensures !Admit(Default.(minDate := Some(5)), Facts(None, None, None, 1))
    ensures Admit(Default.(maxDate := Some(10)), Facts(None, None, None, 1))
    ensures Admit(Default.(maxDate := Some(10)), Facts(None, None, None, 10))
    // test_composite
    ensures Admit(Default.(minScore := Some(5)), Facts(Some(10), None, Some("test"), 0))
    ensures Admit(Default.(minScore := Some(5), subreddits := {"test"}), Facts(Some(10), None, Some("test"), 0))
    ensures Admit(Default.(minScore := Some(5), subreddits := {"test", "test2"}), Facts(Some(10), None, Some("test"), 0))
    ensures !Admit(Default.(minScore := Some(5), subreddits := {"test2"}), Facts(Some(10), None, Some("test"), 0))
    ensures !Admit(Default.(minScore := Some(11), subreddits := {"test", "test2"}), Facts(Some(10), None, Some("test"), 0))
  {
  }

  /** The command-line options `Filter::from_cli` reads; the two dates are already converted to timestamps. */
  datatype Cli = Cli(
    username: Option<seq<string>>,
    subreddit: Option<seq<string>>,
    minScore: Option<string>,
    maxScore: Option<int>,
    minDatetime: Option<int>,
    maxDatetime: Option<int>)

  /** The two warnings `from_cli` logs for inverted bounds. */
  datatype Warning = ScoreBoundsInverted | DateBoundsInverted

  /** The panic of `expect("expected integer for min-score")`. */
  datatype CliPanic = MinScoreNotInteger

  /** The set an optional list of names collects into. */
  function NameSet(names: Option<seq<string>>): (s: set<string>)
    ensures forall n :: n in s <==> names.Some? && n in names.value
  {
    match names
    case Some(list) => set n | n in list
    case None => {}
  }

  /** `Filter::from_cli`: the filter, with the warnings logged while building it. */
  function FromCli(cli: Cli): (r: Result<(Filter, seq<Warning>), CliPanic>)
    ensures r.Err? <==> cli.minScore.Some? && IntText.FromStrRadix(cli.minScore.value, 10, IntText.I64).None?
    ensures r.Ok? ==>
      var (f, warnings) := r.value;
      && (forall u :: u in f.users <==> cli.username.Some? && u in cli.username.value)
      && (forall s :: s in f.subreddits <==> cli.subreddit.Some? && s in cli.subreddit.value)
      && (f.minScore.Some? <==> cli.minScore.Some?)
      && (f.minScore.Some? ==> IntText.FromStrRadix(cli.minScore.value, 10, IntText.I64) == f.minScore)
      && f.maxScore == cli.maxScore && f.minDate == cli.minDatetime && f.maxDate == cli.maxDatetime
      && (ScoreBoundsInverted in warnings <==> f.minScore.Some? && f.maxScore.Some? && f.maxScore.value < f.minScore.value)
      && (DateBoundsInverted in warnings <==> f.minDate.Some? && f.maxDate.Some? && f.maxDate.value < f.minDate.value)
  {
    var minScore := match cli.minScore
      case Some(text) => Some(IntText.FromStrRadix(text, 10, IntText.I64))
      case None => None;
    if minScore.Some? && minScore.value.None? then Err(MinScoreNotInteger)
    else
      var min := if minScore.Some? then Some(minScore.value.value) else None;
      var scoreWarning := match (min, cli.maxScore)
        case (Some(lo), Some(hi)) => if hi < lo then [ScoreBoundsInverted] else []
        case _ => [];
      var dateWarning := match (cli.minDatetime, cli.maxDatetime)
        case (Some(lo), Some(hi)) => if hi < lo then [DateBoundsInverted] else []
        case _ => [];
      Ok((Filter(NameSet(cli.username), NameSet(cli.subreddit), min, cli.maxScore,
                 cli.minDatetime, cli.maxDatetime),
          scoreWarning + dateWarning))
  }

  /** Inverted score bounds only warn; the filter they build then rejects every record with a known score. */
  lemma InvertedScoreBoundsRejectKnownScores(cli: Cli, c: Facts)
    requires FromCli(cli).Ok?
    requires ScoreBoundsInverted in FromCli(cli).value.1
    ensures c.score.Some? ==> !Admit(FromCli(cli).value.0, c)
    ensures c.score.None? ==> Admit(FromCli(cli).value.0, c) == Admit(FromCli(cli).value.0.(minScore := None, maxScore := None), c)
  {
  }

  /** Inverted date bounds only warn; since every record has a creation time, the filter rejects all of them. */
  lemma InvertedDateBoundsRejectAll(cli: Cli, c: Facts)
    requires FromCli(cli).Ok?
    requires DateBoundsInverted in FromCli(cli).value.1
    ensures !Admit(FromCli(cli).value.0, c)
  {
  }
}
