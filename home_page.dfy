/**
 * The home page: the fair-play (no-ball) warning, the initial brand choice,
 * and the chain of checks in front of starting a quiz.
 */
module HomePage {
  import opened Wrappers
  import opened Text
  import opened Uri

  /** The profile fields the warning reads; the timestamp in milliseconds. */
  datatype HomeProfile = HomeProfile(noBallCount: Option<int>, lastNoBallTimestamp: Option<int>)

  /**
   * `MalpracticeWarning`: the number of warnings left, when the warning is
   * shown. `dayStart` stands for `setHours(0, 0, 0, 0)` in local time and
   * `today` for today's midnight. A missing count is 0.
   */
  function MalpracticeWarning(profile: Option<HomeProfile>, today: int, dayStart: int -> int): (warningsLeft: Option<int>)
    ensures warningsLeft.Some? <==>
              profile.Some? &&
              1 <= profile.value.noBallCount.GetOr(0) <= 2 &&
              profile.value.lastNoBallTimestamp.Some? &&
              dayStart(profile.value.lastNoBallTimestamp.value) == today
    ensures warningsLeft.Some? ==>
              warningsLeft.value == 3 - profile.value.noBallCount.GetOr(0) && 1 <= warningsLeft.value <= 2
  {
    if profile.None? then None
    else
      var count := profile.value.noBallCount.GetOr(0);
      if count <= 0 || count >= 3 then None
      else if profile.value.lastNoBallTimestamp.None? then None
      else if dayStart(profile.value.lastNoBallTimestamp.value) != today then None
      else Some(3 - count)
  }

  /** The third no-ball of the day hides the warning (the player is out for the day). */
  lemma ThirdNoBallHidesWarning(p: HomeProfile, today: int, dayStart: int -> int)
    requires p.noBallCount == Some(3)
    ensures MalpracticeWarning(Some(p), today, dayStart).None?
  {
  }

  /** A brand card: the sponsor and the quiz format it starts. */
  datatype CubeBrand = CubeBrand(brand: string, format: string)

  /** The signed-in user, as far as the start-quiz guards read it. */
  datatype User = User(emailVerified: bool)

  /** The attempt already made in the current slot. */
  datatype SlotAttempt = SlotAttempt(slotId: string, format: string)

  /** The effect that sets the first brand when none is selected yet. */
  function InitialSelection(selected: Option<CubeBrand>, brands: seq<CubeBrand>): (r: Option<CubeBrand>)
    ensures selected.Some? ==> r == selected
    ensures selected.None? && brands != [] ==> r == Some(brands[0])
    ensures selected.None? && brands == [] ==> r.None?
  {
    if selected.None? && |brands| > 0 then Some(brands[0]) else selected
  }

  /** Once set, the selection is what the effect keeps. */
  lemma InitialSelectionSettles(selected: Option<CubeBrand>, brands: seq<CubeBrand>)
    ensures InitialSelection(InitialSelection(selected, brands), brands) == InitialSelection(selected, brands)
  {
  }

  const LoginRoute := "/auth/login?from=/"
  const ProfileRoute := "/profile"

  /** The query the quiz page reads, both parts URI-encoded. */
  function QuizRoute(b: CubeBrand): string {
    "/quiz?brand=" + Encode(b.brand) + "&format=" + Encode(b.format)
  }

  /** What `handleStartQuiz` does: a toast, a navigation, or both. */
  datatype StartAction =
    | NoFormatSelected
    | GoToLogin(route: string)
    | ShowResults(route: string)
    | EmailNotVerified
    | CompleteProfile(route: string)
    | StartQuiz(route: string)

  /**
   * `handleStartQuiz`: the first check that applies decides. The explicit
   * brand wins over the selected one.
   */
  function HandleStartQuiz(brandToPlay: Option<CubeBrand>, selected: Option<CubeBrand>, user: Option<User>,
                           lastAttemptInSlot: Option<SlotAttempt>, isProfileComplete: bool): (a: StartAction)
    ensures a == NoFormatSelected <==> brandToPlay.None? && selected.None?
    ensures a.GoToLogin? <==> (brandToPlay.Some? || selected.Some?) && user.None?
    ensures a.ShowResults? <==> (brandToPlay.Some? || selected.Some?) && user.Some? && lastAttemptInSlot.Some?
    ensures a.ShowResults? ==> a.route == "/quiz/results?attemptId=" + lastAttemptInSlot.value.slotId
    ensures a == EmailNotVerified <==>
              (brandToPlay.Some? || selected.Some?) && user.Some? && lastAttemptInSlot.None? &&
              !user.value.emailVerified
    ensures a.CompleteProfile? <==>
              (brandToPlay.Some? || selected.Some?) && user.Some? && lastAttemptInSlot.None? &&
              user.value.emailVerified && !isProfileComplete
    ensures a.StartQuiz? <==>
              (brandToPlay.Some? || selected.Some?) && user.Some? && lastAttemptInSlot.None? &&
              user.value.emailVerified && isProfileComplete
    ensures a.StartQuiz? ==> a.route == QuizRoute(if brandToPlay.Some? then brandToPlay.value else selected.value)
  {
    var brand := if brandToPlay.Some? then brandToPlay else selected;
    if brand.None? then NoFormatSelected
    else if user.None? then GoToLogin(LoginRoute)
    else if lastAttemptInSlot.Some? then ShowResults("/quiz/results?attemptId=" + lastAttemptInSlot.value.slotId)
    else if !user.value.emailVerified then EmailNotVerified
    else if !isProfileComplete then CompleteProfile(ProfileRoute)
    else StartQuiz(QuizRoute(brand.value))
  }

  /** The explicit brand makes the selection irrelevant. */
  lemma ExplicitBrandWins(b: CubeBrand, s1: Option<CubeBrand>, s2: Option<CubeBrand>, user: Option<User>,
                          last: Option<SlotAttempt>, complete: bool)
    ensures HandleStartQuiz(Some(b), s1, user, last, complete) == HandleStartQuiz(Some(b), s2, user, last, complete)
  {
  }

  /**
   * The quiz route splits into the two parameters at the one `&`, and each
   * value decodes back to the brand's field.
   */
  lemma QuizRouteReadsBack(b: CubeBrand)
    ensures var query := "brand=" + Encode(b.brand) + "&format=" + Encode(b.format);
            QuizRoute(b) == "/quiz?" + query &&
            Split(query, '&') == ["brand=" + Encode(b.brand), "format=" + Encode(b.format)] &&
            Decode(Encode(b.brand)) == Some(b.brand) && Decode(Encode(b.format)) == Some(b.format)
  {
    EncodeHasNoDelimiters(b.brand);
    EncodeHasNoDelimiters(b.format);
    TwoParameters(Encode(b.brand), Encode(b.format));
    DecodeEncode(b.brand);
    DecodeEncode(b.format);
  }

  lemma TwoParameters(e1: string, e2: string)
    requires '&' !in e1 && '&' !in e2
    ensures Split("brand=" + e1 + "&format=" + e2, '&') == ["brand=" + e1, "format=" + e2]
  {
    var p1, p2 := "brand=" + e1, "format=" + e2;
    assert '&' !in p1 && '&' !in p2;
    assert "brand=" + e1 + "&format=" + e2 == p1 + ['&'] + p2;
    assert [p1, p2][1..] == [p2];
    assert Join([p1, p2], '&') == p1 + ['&'] + p2;
    SplitJoin([p1, p2], '&');
  }

  /** The start button is disabled while the quiz status loads or with nothing selected. */
  function StartDisabled(isQuizStatusLoading: bool, selected: Option<CubeBrand>): (disabled: bool)
    ensures !disabled <==> !isQuizStatusLoading && selected.Some?
  {
    isQuizStatusLoading || selected.None?
  }

  /** The format on the button: the played attempt's, else the selection's, else empty. */
  function ButtonFormat(lastAttemptInSlot: Option<SlotAttempt>, selected: Option<CubeBrand>): (f: string)
    ensures lastAttemptInSlot.Some? ==> f == lastAttemptInSlot.value.format
    ensures lastAttemptInSlot.None? && selected.Some? ==> f == selected.value.format
    ensures lastAttemptInSlot.None? && selected.None? ==> f == ""
  {
    if lastAttemptInSlot.Some? then lastAttemptInSlot.value.format
    else if selected.Some? then selected.value.format
    else ""
  }
}
