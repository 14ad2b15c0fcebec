/**
 * The results page that always reads the attempt from the database: its
 * loading guards, the verdict texts, and what a disqualification hides.
 */
module ResultsCard {
  import opened Quiz

  const FairPlayLine := "Fair play is key to the spirit of cricket."
  const PerfectLine := "Flawless century! You're a true champion."
  const GoodLine := "Good effort! Keep practicing."
  const ToughLine := "Tough match, but every game is a learning experience!"

  /** `getMotivationalLine` (its text); this page promises no reward. */
  function MotivationalLine(a: QuizAttempt): (line: string)
    ensures line == FairPlayLine <==> IsDisqualified(a)
    ensures line == PerfectLine <==> !IsDisqualified(a) && IsPerfect(a)
    ensures line == GoodLine <==> !IsDisqualified(a) && !IsPerfect(a) && a.score >= 3
    ensures line == ToughLine <==> !IsDisqualified(a) && !IsPerfect(a) && a.score < 3
  {
    match Classify(a)
    case Disqualified => FairPlayLine
    case Perfect => PerfectLine
    case GoodEffort => GoodLine
    case ToughMatch => ToughLine
  }

  /** The blocks of the scorecard that may be hidden. */
  datatype Blocks = Blocks(score: bool, viewAnswers: bool, analysisOffer: bool)

  /** A disqualification hides the score, "View Answers" and the analysis offer; otherwise all show. */
  function Shown(a: QuizAttempt): (b: Blocks)
    ensures IsDisqualified(a) <==> b == Blocks(false, false, false)
    ensures !IsDisqualified(a) <==> b == Blocks(true, true, true)
  {
    var shown := !IsDisqualified(a);
    Blocks(shown, shown, shown)
  }

  datatype Load = Loaded(attempt: QuizAttempt) | LoadError(message: string) | RedirectToLogin(route: string)

  const NoAttemptId := "No quiz attempt ID found in the link."
  const NoDatabase := "Database connection is not available."
  const NotFound := "We couldn't find the quiz data for this link. It might be expired or invalid."
  const ServerError := "A server error occurred while fetching your results."

  /**
   * The loading effect. `attemptId` is the `attemptId` parameter (`""` when
   * absent) and `read` what the database read answers.
   */
  function LoadResult(attemptId: string, signedIn: bool, dbAvailable: bool, read: AttemptRead): (r: Load)
    ensures attemptId == "" ==> r == LoadError(NoAttemptId)
    ensures attemptId != "" && !signedIn ==>
              r == RedirectToLogin("/auth/login?from=/quiz/results?attemptId=" + attemptId)
    ensures attemptId != "" && signedIn && !dbAvailable ==> r == LoadError(NoDatabase)
    ensures attemptId != "" && signedIn && dbAvailable ==>
              r == match read
                   case Found(a) => Loaded(a)
                   case NoDocument => LoadError(NotFound)
                   case ReadFailed => LoadError(ServerError)
  {
    if attemptId == "" then LoadError(NoAttemptId)
    else if !signedIn then RedirectToLogin("/auth/login?from=/quiz/results?attemptId=" + attemptId)
    else if !dbAvailable then LoadError(NoDatabase)
    else match read
      case Found(a) => Loaded(a)
      case NoDocument => LoadError(NotFound)
      case ReadFailed => LoadError(ServerError)
  }

  /** Without an attempt id nothing is read: the outcome is the same whatever the database holds. */
  lemma NoIdNoRead(signedIn: bool, db1: bool, db2: bool, r1: AttemptRead, r2: AttemptRead)
    ensures LoadResult("", signedIn, db1, r1) == LoadResult("", signedIn, db2, r2)
  {
  }

  /** Only a found document loads, and it loads as it was read. */
  lemma LoadedOnlyFromTheRead(attemptId: string, signedIn: bool, dbAvailable: bool, read: AttemptRead)
    requires LoadResult(attemptId, signedIn, dbAvailable, read).Loaded?
    ensures read.Found? && LoadResult(attemptId, signedIn, dbAvailable, read).attempt == read.attempt
  {
  }
}
