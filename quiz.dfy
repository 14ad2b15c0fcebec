/** The quiz attempt record shared by the rewards, results and home screens. */
module Quiz {

  /**
   * An attempt's `timestamp` as the screens see it: absent (falsy), present but
   * not convertible to a date by `normalizeTimestamp`, or a date in
   * milliseconds since the epoch.
   */
  datatype Stamp = NoStamp | Unparseable | At(ms: int)

  /**
   * A stored attempt. `reason` is the disqualification reason, `""` when there
   * is none; `brand` and `format` are `""` when missing.
   */
  datatype QuizAttempt = QuizAttempt(
    slotId: string,
    brand: string,
    format: string,
    timestamp: Stamp,
    score: int,
    totalQuestions: int,
    reason: string,
    reviewed: bool)

  /** The sort key `normalizeTimestamp(t)?.getTime() || 0`: a missing or unreadable time ranks as 0. */
  function Rank(a: QuizAttempt): int {
    match a.timestamp
    case At(ms) => ms
    case _ => 0
  }

  /** How a finished attempt reads on a results page, first match wins. */
  datatype Verdict = Disqualified | Perfect | GoodEffort | ToughMatch

  /** A disqualification reason is any non-empty one. */
  predicate IsDisqualified(a: QuizAttempt) { a.reason != "" }
  predicate IsPerfect(a: QuizAttempt) { a.score == a.totalQuestions }

  /** The order of `getMotivationalLine`: disqualified, perfect, at least 3, the rest. */
  function Classify(a: QuizAttempt): (v: Verdict)
    ensures v == Disqualified <==> IsDisqualified(a)
    ensures v == Perfect <==> !IsDisqualified(a) && IsPerfect(a)
    ensures v == GoodEffort <==> !IsDisqualified(a) && !IsPerfect(a) && a.score >= 3
    ensures v == ToughMatch <==> !IsDisqualified(a) && !IsPerfect(a) && a.score < 3
  {
    if IsDisqualified(a) then Disqualified
    else if IsPerfect(a) then Perfect
    else if a.score >= 3 then GoodEffort
    else ToughMatch
  }

  /** The heading: a disqualification outranks a perfect score. */
  function PageTitle(a: QuizAttempt): (title: string)
    ensures title == "Disqualified" <==> IsDisqualified(a)
    ensures title == "Perfect Score!" <==> !IsDisqualified(a) && IsPerfect(a)
    ensures title == "Quiz Complete!" <==> !IsDisqualified(a) && !IsPerfect(a)
  {
    if IsDisqualified(a) then "Disqualified"
    else if IsPerfect(a) then "Perfect Score!"
    else "Quiz Complete!"
  }

  /** The title and the motivational line agree on the attempt. */
  lemma TitleFollowsVerdict(a: QuizAttempt)
    ensures PageTitle(a) == (match Classify(a)
                             case Disqualified => "Disqualified"
                             case Perfect => "Perfect Score!"
                             case _ => "Quiz Complete!")
  {
  }

  /** What a read of `users/{uid}/quizAttempts/{id}` answers. */
  datatype AttemptRead = ReadFailed | NoDocument | Found(attempt: QuizAttempt)
}
