/**
 * The results page reached after a quiz: loading the attempt (from the link
 * or from the database), the one-shot payment request for a perfect score,
 * the verdict texts, what a disqualification hides, and the stored analysis.
 */
module ResultsPage {
  import opened Wrappers
  import opened Text
  import opened Quiz
  import opened PaymentService

  const FairPlayLine := "Fair play is key to the spirit of cricket."
  const PerfectLine := "Flawless century! You're a true champion. You've earned \U{20B9}100!"
  const GoodLine := "Good effort! Keep practicing."
  const ToughLine := "Tough match, but every game is a learning experience!"

  /** `getMotivationalLine` (its text). */
  function MotivationalLine(a: QuizAttempt): (line: string)
    ensures line == FairPlayLine <==> IsDisqualified(a)
    ensures line == PerfectLine <==> !IsDisqualified(a) && IsPerfect(a)
    ensures line == GoodLine <==> !IsDisqualified(a) && !IsPerfect(a) && a.score >= 3
    ensures line == ToughLine <==> !IsDisqualified(a) && !IsPerfect(a) && a.score < 3
  {
    match Classify(a)
    case Disqualified => FairPlayLine
    case Perfect => PerfectLine
    case GoodEffort => GoodLine
    case ToughMatch => ToughLine
  }

  /** The blocks of the scorecard that may be hidden. */
  datatype Blocks = Blocks(score: bool, rewardCard: bool, viewAnswers: bool, analysisCard: bool, analysisOffer: bool)

  /**
   * What the page shows. `hasAiAnalysis` is whether a stored analysis with a
   * non-empty `overallFeedback` was loaded.
   */
  function Shown(a: QuizAttempt, hasAiAnalysis: bool): (b: Blocks)
    ensures IsDisqualified(a) ==> b == Blocks(false, false, false, false, false)
    ensures !IsDisqualified(a) ==>
              b.score && b.viewAnswers && (b.rewardCard <==> IsPerfect(a)) &&
              (b.analysisCard <==> hasAiAnalysis) && (b.analysisOffer <==> !hasAiAnalysis)
  {
    var shown := !IsDisqualified(a);
    Blocks(shown, shown && IsPerfect(a), shown, shown && hasAiAnalysis, shown && !hasAiAnalysis)
  }

  /** An attempt that is not disqualified gets exactly one of the two analysis cards. */
  lemma OneAnalysisCard(a: QuizAttempt, hasAiAnalysis: bool)
    requires !IsDisqualified(a)
    ensures Shown(a, hasAiAnalysis).analysisCard != Shown(a, hasAiAnalysis).analysisOffer
  {
  }

  datatype ViewAction = NoAction | OpenReview | GoToHistory

  /** `handleViewAnswers`: a reviewed attempt opens the review, otherwise the history page. */
  function HandleViewAnswers(attempt: Option<QuizAttempt>): (act: ViewAction)
    ensures attempt.None? <==> act == NoAction
    ensures attempt.Some? ==> (act == OpenReview <==> attempt.value.reviewed)
  {
    if attempt.None? then NoAction
    else if attempt.value.reviewed then OpenReview
    else GoToHistory
  }

  /** The analysis stored under `quiz-analysis-${slotId}`. */
  datatype Analysis = Analysis(overallFeedback: string, strengths: seq<string>,
                               areasForImprovement: seq<string>, recommendations: seq<string>)

  const AnalysisPrefix := "quiz-analysis-"

  function AnalysisKey(slotId: string): string {
    AnalysisPrefix + slotId
  }

  /** Different slots read different keys. */
  lemma AnalysisKeyInjective(s: string, t: string)
    requires AnalysisKey(s) == AnalysisKey(t)
    ensures s == t
  {
    assert s == AnalysisKey(s)[|AnalysisPrefix|..];
    assert t == AnalysisKey(t)[|AnalysisPrefix|..];
  }

  /**
   * The analysis the page loads: nothing without an attempt, nothing for a
   * missing or empty entry, nothing when `JSON.parse` (`parse`) fails.
   */
  function LoadAnalysis(attempt: Option<QuizAttempt>, storage: map<string, string>,
                        parse: string -> Option<Analysis>): (r: Option<Analysis>)
    ensures r.Some? <==>
              attempt.Some? && AnalysisKey(attempt.value.slotId) in storage &&
              storage[AnalysisKey(attempt.value.slotId)] != "" &&
              parse(storage[AnalysisKey(attempt.value.slotId)]).Some?
    ensures r.Some? ==> r == parse(storage[AnalysisKey(attempt.value.slotId)])
  {
    if attempt.None? then None
    else
      var key := AnalysisKey(attempt.value.slotId);
      if key !in storage || storage[key] == "" then None
      else parse(storage[key])
  }

  // ---------------------------------------------------------------------------
  // Loading
  // ---------------------------------------------------------------------------

  datatype Load = Loaded(attempt: QuizAttempt) | LoadError(message: string) | Waiting

  const NoData := "No quiz data found in the URL."
  const NoDatabase := "Database connection unavailable."
  const NotFound := "Could not find the specified quiz result."
  const ServerError := "Failed to fetch quiz results from the server."

  /**
   * The loading effect. `decoded` is the attempt decoded from the `attempt`
   * query parameter, `attemptId` the `attemptId` parameter (`""` when
   * absent), `read` what the database read answers. Without a user the page
   * waits.
   */
  function LoadResult(decoded: Option<QuizAttempt>, attemptId: string, signedIn: bool,
                      dbAvailable: bool, read: AttemptRead): (r: Load)
    ensures decoded.Some? ==> r == Loaded(decoded.value)
    ensures decoded.None? && attemptId == "" ==> r == LoadError(NoData)
    ensures decoded.None? && attemptId != "" && !signedIn ==> r == Waiting
    ensures decoded.None? && attemptId != "" && signedIn ==>
              (!dbAvailable ==> r == LoadError(NoDatabase)) &&
              (dbAvailable ==> r == match read
                                    case Found(a) => Loaded(a)
                                    case NoDocument => LoadError(NotFound)
                                    case ReadFailed => LoadError(ServerError))
  {
    if decoded.Some? then Loaded(decoded.value)
    else if attemptId == "" then LoadError(NoData)
    else if !signedIn then Waiting
    else if !dbAvailable then LoadError(NoDatabase)
    else match read
      case Found(a) => Loaded(a)
      case NoDocument => LoadError(NotFound)
      case ReadFailed => LoadError(ServerError)
  }

  /** An attempt carried in the link never touches the database. */
  lemma DecodedSkipsDatabase(a: QuizAttempt, attemptId: string, signedIn: bool,
                             db1: bool, db2: bool, r1: AttemptRead, r2: AttemptRead)
    ensures LoadResult(Some(a), attemptId, signedIn, db1, r1) == LoadResult(Some(a), attemptId, signedIn, db2, r2)
  {
  }

  // ---------------------------------------------------------------------------
  // The payment effect
  // ---------------------------------------------------------------------------

  /** Whether the effect asks for a payment. */
  predicate RequestsPayment(attempt: Option<QuizAttempt>, uid: Option<string>, paymentCreated: bool) {
    attempt.Some? && uid.Some? && !paymentCreated &&
    IsPerfect(attempt.value) && !IsDisqualified(attempt.value)
  }

  /** `searchParams.get('attemptId') || \`quiz_${Date.now()}\``. */
  function QuizId(attemptId: string, now: int): (id: string)
    ensures attemptId != "" ==> id == attemptId
    ensures attemptId == "" ==> StartsWith(id, "quiz_") && id == "quiz_" + IntToString(now)
  {
    if attemptId != "" then attemptId else "quiz_" + IntToString(now)
  }

  class PaymentEffect {
    /** The page's `paymentCreated` flag. */
    var paymentCreated: bool

    constructor()
      ensures !paymentCreated
    {
      paymentCreated := false;
    }

    /**
     * One run of the effect. `user` is the user document `createPaymentRequest`
     * reads, `newId` the id Firestore assigns and `failure` the error its
     * write throws. The flag is set only when an id comes back; then every
     * later run does nothing.
     */
    method Run(store: PaymentStore, attempt: Option<QuizAttempt>, uid: Option<string>, attemptId: string,
               user: Option<UserData>, newId: string, now: int, failure: Option<string>)
      modifies this, store
      ensures !RequestsPayment(attempt, uid, old(paymentCreated)) ==>
                paymentCreated == old(paymentCreated) && store.docs == old(store.docs)
      ensures RequestsPayment(attempt, uid, old(paymentCreated)) ==>
                (paymentCreated <==> user.Some? && failure.None?) &&
                store.docs == old(store.docs) +
                  (if user.Some? && failure.None? then
                     [NewRequest(newId, uid.value, QuizId(attemptId, now), attempt.value.score,
                                 attempt.value.totalQuestions, user.value, now)]
                   else [])
    {
      if attempt.None? || uid.None? || paymentCreated {
        return;
      }
      if !(IsPerfect(attempt.value) && !IsDisqualified(attempt.value)) {
        return;
      }
      var r := store.CreatePaymentRequest(uid.value, QuizId(attemptId, now), attempt.value.score,
                                          attempt.value.totalQuestions, user, newId, now, failure);
      if r.Ok? && r.value.Some? {
        paymentCreated := true;
      }
    }
  }
}
