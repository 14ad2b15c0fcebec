/**
 * The format rewards of the rewards screen: the three most recently played
 * distinct quiz formats, one sponsored ad per format, and the scratched and
 * deleted cards kept per user in local storage.
 */
module FormatRewards {
  import opened Wrappers
  import opened Sorting
  import opened Quiz
  import AdService
  import opened Lists

  // ---------------------------------------------------------------------------
  // Latest distinct formats
  // ---------------------------------------------------------------------------

  /** Position `j` holds a format that is set and not seen earlier in `s`. */
  ghost predicate NewFormat(s: seq<QuizAttempt>, j: int) {
    0 <= j < |s| && s[j].format != "" &&
    forall i :: 0 <= i < j ==> s[i].format != s[j].format
  }

  /** The distinct formats among the first `n` attempts, in order of first appearance. */
  ghost function FormatsUpTo(s: seq<QuizAttempt>, n: nat): seq<string>
    requires n <= |s|
  {
    if n == 0 then [] else FormatsUpTo(s, n - 1) + (if NewFormat(s, n - 1) then [s[n - 1].format] else [])
  }

  ghost function Take<T>(s: seq<T>, n: nat): seq<T> {
    if |s| <= n then s else s[..n]
  }

  /** The formats the rewards screen shows for a history sorted newest first. */
  ghost function LatestFormatsOf(sorted: seq<QuizAttempt>): seq<string> {
    Take(FormatsUpTo(sorted, |sorted|), 3)
  }

  lemma {:induction false} FormatsUpToPrefix(s: seq<QuizAttempt>, n: nat, m: nat)
    requires n <= m <= |s|
    ensures FormatsUpTo(s, n) <= FormatsUpTo(s, m)
  {
    if n < m {
      FormatsUpToPrefix(s, n, m - 1);
    }
  }

  /** The loop of `latestQuizFormats` over the sorted history, stopping at three formats. */
  method SelectFormats(sorted: seq<QuizAttempt>) returns (formats: seq<string>)
    ensures formats == LatestFormatsOf(sorted)
  {
    var seen: set<string> := {};
    formats := [];
    var i := 0;
    while i < |sorted|
      invariant 0 <= i <= |sorted|
      invariant formats == FormatsUpTo(sorted, i) && |formats| < 3
      invariant forall f :: f in seen <==> exists j :: 0 <= j < i && sorted[j].format != "" && sorted[j].format == f
    {
      var attempt := sorted[i];
      if attempt.format != "" && attempt.format !in seen {
        seen := seen + {attempt.format};
        formats := formats + [attempt.format];
      }
      i := i + 1;
      if |formats| == 3 {
        FormatsUpToPrefix(sorted, i, |sorted|);
        return;
      }
    }
  }

  /** `latestQuizFormats`: nothing without a user or a history; otherwise the selection over the newest-first sort. */
  method LatestQuizFormats(signedIn: bool, history: seq<QuizAttempt>) returns (formats: seq<string>)
    ensures !signedIn || history == [] ==> formats == []
    ensures signedIn && history != [] ==> formats == LatestFormatsOf(SortDesc(history, Rank))
  {
    if !signedIn || |history| == 0 {
      return [];
    }
    var sorted := SortDesc(history, Rank);
    formats := SelectFormats(sorted);
  }

  lemma {:induction false} FormatsUpToDistinct(s: seq<QuizAttempt>, n: nat)
    requires n <= |s|
    ensures forall k :: 0 <= k < |FormatsUpTo(s, n)| ==> FormatsUpTo(s, n)[k] != ""
    ensures forall a, b :: 0 <= a < b < |FormatsUpTo(s, n)| ==> FormatsUpTo(s, n)[a] != FormatsUpTo(s, n)[b]
    ensures forall k :: 0 <= k < |FormatsUpTo(s, n)| ==> exists j :: 0 <= j < n && s[j].format == FormatsUpTo(s, n)[k]
  {
    if n > 0 {
      FormatsUpToDistinct(s, n - 1);
      var p := FormatsUpTo(s, n - 1);
      if NewFormat(s, n - 1) {
        forall k | 0 <= k < |p|
          ensures p[k] != s[n - 1].format
        {
          var j :| 0 <= j < n - 1 && s[j].format == p[k];
        }
        assert FormatsUpTo(s, n)[|p|] == s[n - 1].format;
      }
      var r := FormatsUpTo(s, n);
      forall k | 0 <= k < |r|
        ensures exists j :: 0 <= j < n && s[j].format == r[k]
      {
        if k < |p| {
          assert r[k] == p[k];
          var j :| 0 <= j < n - 1 && s[j].format == p[k];
        } else {
          assert r[k] == s[n - 1].format;
        }
      }
    } else {
      assert FormatsUpTo(s, n) == [];
    }
  }

  /** At most three formats, all set, none twice, each played in the history. */
  lemma LatestFormatsShape(sorted: seq<QuizAttempt>)
    ensures |LatestFormatsOf(sorted)| <= 3
    ensures forall k :: 0 <= k < |LatestFormatsOf(sorted)| ==> LatestFormatsOf(sorted)[k] != ""
    ensures forall a, b :: 0 <= a < b < |LatestFormatsOf(sorted)| ==> LatestFormatsOf(sorted)[a] != LatestFormatsOf(sorted)[b]
    ensures forall k :: 0 <= k < |LatestFormatsOf(sorted)| ==>
              exists j :: 0 <= j < |sorted| && sorted[j].format == LatestFormatsOf(sorted)[k]
  {
    FormatsUpToDistinct(sorted, |sorted|);
  }

  lemma {:induction false} FormatsUpToComplete(s: seq<QuizAttempt>, n: nat, j: int)
    requires n <= |s| && 0 <= j < n && s[j].format != ""
    ensures s[j].format in FormatsUpTo(s, n)
  {
    if j < n - 1 {
      FormatsUpToComplete(s, n - 1, j);
    } else if !NewFormat(s, j) {
      var i :| 0 <= i < j && s[i].format == s[j].format;
      FormatsUpToComplete(s, n - 1, i);
    }
  }

  /** With fewer than three distinct formats played, every played format is listed. */
  lemma FewFormatsAllListed(sorted: seq<QuizAttempt>, j: int)
    requires 0 <= j < |sorted| && sorted[j].format != ""
    requires |FormatsUpTo(sorted, |sorted|)| <= 3
    ensures sorted[j].format in LatestFormatsOf(sorted)
  {
    FormatsUpToComplete(sorted, |sorted|, j);
  }

  // ---------------------------------------------------------------------------
  // Ads for the formats
  // ---------------------------------------------------------------------------

  /** `FORMAT_TO_AD_SLOT[format]`: the six quiz formats map to the slot of the same name. */
  function FormatToAdSlot(format: string): (slot: Option<string>)
    ensures slot.Some? <==> format in {"IPL", "T20", "Test", "ODI", "WPL", "Mixed"}
    ensures slot.Some? ==> slot.value == format && AdService.IsAdSlot(slot.value)
  {
    if format == "IPL" || format == "T20" || format == "Test" || format == "ODI" ||
       format == "WPL" || format == "Mixed"
    then Some(format)
    else None
  }

  /** The fields of an ad the rewards screen reads. */
  datatype AdData = AdData(id: string, companyName: string, mediaUrl: string, redirectUrl: string, adSlot: string)

  /**
   * What the ad fetch loop gathers for `formats`, given the answer of the
   * query `adSlot == slot && isActive, limit 1` for each slot: `Failed` when a
   * query throws, otherwise the first document of each non-empty answer.
   */
  ghost function Gather(formats: seq<string>, answer: string -> Fetch<AdData>): Fetch<AdData>
    decreases |formats|
  {
    if formats == [] then Fetched([])
    else
      var init := Gather(formats[..|formats| - 1], answer);
      var slot := FormatToAdSlot(formats[|formats| - 1]);
      if init.Failed? || slot.None? then init
      else match answer(slot.value)
        case Failed => Failed
        case Fetched(docs) => if docs == [] then init else Fetched(init.docs + [docs[0]])
  }

  /** The fetch effect: any failed query leaves the list empty. */
  method FetchRewardAds(signedIn: bool, formats: seq<string>, answer: string -> Fetch<AdData>)
    returns (rewardAds: seq<AdData>)
    ensures !signedIn || formats == [] ==> rewardAds == []
    ensures signedIn && formats != [] ==>
              rewardAds == (if Gather(formats, answer).Failed? then [] else Gather(formats, answer).docs)
  {
    if !signedIn || |formats| == 0 {
      return [];
    }
    var fetched: seq<AdData> := [];
    for i := 0 to |formats|
      invariant Gather(formats[..i], answer) == Fetched(fetched)
    {
      assert formats[..i + 1][..i] == formats[..i];
      var slot := FormatToAdSlot(formats[i]);
      if slot.None? {
        continue;
      }
      var result := answer(slot.value);
      if result.Failed? {
        assert Gather(formats[..i + 1], answer) == Failed;
        GatherFailedStays(formats, i + 1, answer);
        assert formats[..|formats|] == formats;
        return [];
      }
      if result.docs != [] {
        fetched := fetched + [result.docs[0]];
      }
    }
    assert formats[..|formats|] == formats;
    rewardAds := fetched;
  }

  lemma {:induction false} GatherFailedStays(formats: seq<string>, n: nat, answer: string -> Fetch<AdData>)
    requires n <= |formats| && Gather(formats[..n], answer).Failed?
    ensures Gather(formats[..|formats|], answer).Failed?
    decreases |formats| - n
  {
    if n < |formats| {
      assert formats[..n + 1][..n] == formats[..n];
      GatherFailedStays(formats, n + 1, answer);
    }
  }

  /** `d` is the first document answered for the ad slot of `format`. */
  ghost predicate FirstAnswerFor(format: string, answer: string -> Fetch<AdData>, d: AdData) {
    FormatToAdSlot(format).Some? &&
    answer(FormatToAdSlot(format).value).Fetched? &&
    answer(FormatToAdSlot(format).value).docs != [] &&
    d == answer(FormatToAdSlot(format).value).docs[0]
  }

  /** At most one ad per format, each the first answer for the slot of one of the formats. */
  lemma {:induction false} GatherShape(formats: seq<string>, answer: string -> Fetch<AdData>)
    requires Gather(formats, answer).Fetched?
    ensures |Gather(formats, answer).docs| <= |formats|
    ensures forall d :: d in Gather(formats, answer).docs ==>
              exists f :: f in formats && FirstAnswerFor(f, answer, d)
    decreases |formats|
  {
    if formats != [] {
      var init := formats[..|formats| - 1];
      var last := formats[|formats| - 1];
      GatherShape(init, answer);
      forall d | d in Gather(formats, answer).docs
        ensures exists f :: f in formats && FirstAnswerFor(f, answer, d)
      {
        if d in Gather(init, answer).docs {
          var f :| f in init && FirstAnswerFor(f, answer, d);
          assert f in formats;
        } else {
          assert FirstAnswerFor(last, answer, d);
          assert last in formats;
        }
      }
    } else {
      assert Gather(formats, answer).docs == [];
    }
  }

  // ---------------------------------------------------------------------------
  // Scratching and deleting cards
  // ---------------------------------------------------------------------------

  /** `indcric-scratch-${uid}-${adId}`. */
  function CardKey(uid: string, adId: string): string {
    "indcric-scratch-" + uid + "-" + adId
  }

  /** For one user, distinct ads have distinct storage keys. */
  lemma CardKeyInjective(uid: string, a: string, b: string)
    requires CardKey(uid, a) == CardKey(uid, b)
    ensures a == b
  {
    var n := |"indcric-scratch-" + uid + "-"|;
    assert a == CardKey(uid, a)[n..];
  }

  /**
   * The screen state: the ad cards, the scratched flags, and local storage.
   * The signed-in user is not part of it; the operations take the uid as a
   * parameter, `None` when signed out.
   */
  datatype CardsState = CardsState(rewardAds: seq<AdData>, scratched: map<string, bool>, storage: map<string, string>)

  /** The test of `rewardAds.filter(ad => ad.id !== adId)`. */
  function NotCard(adId: string): AdData -> bool { (a: AdData) => a.id != adId }

  /** The cards other than `adId`'s, in their order and with their repeats. */
  function WithoutId(ads: seq<AdData>, adId: string): (r: seq<AdData>)
    ensures r == Filter(ads, NotCard(adId))
    ensures IsSubsequence(r, ads)
    ensures forall a :: a in r <==> a in ads && a.id != adId
  {
    FilterIsSubsequence(ads, NotCard(adId));
    if ads == [] then []
    else
      FilterCons(ads[0], ads[1..], NotCard(adId));
      assert [ads[0]] + ads[1..] == ads;
      (if ads[0].id == adId then [] else [ads[0]]) + WithoutId(ads[1..], adId)
  }

  /** `handleScratch`: flags the card; with a user, also stores the flag. */
  function HandleScratch(st: CardsState, user: Option<string>, adId: string): (r: CardsState)
    ensures r.rewardAds == st.rewardAds
    ensures adId in r.scratched && r.scratched[adId]
    ensures forall k :: k != adId ==> (k in r.scratched <==> k in st.scratched) &&
                                      (k in st.scratched ==> r.scratched[k] == st.scratched[k])
    ensures user.None? ==> r.storage == st.storage
    ensures user.Some? ==> r.storage == st.storage[CardKey(user.value, adId) := "true"]
  {
    var storage := if user.Some? then st.storage[CardKey(user.value, adId) := "true"] else st.storage;
    CardsState(st.rewardAds, st.scratched[adId := true], storage)
  }

  /** `handleDelete`: drops every card of the ad, its flag and, with a user, its stored flag. */
  function HandleDelete(st: CardsState, user: Option<string>, adId: string): (r: CardsState)
    ensures r.rewardAds == WithoutId(st.rewardAds, adId)
    ensures r.scratched == st.scratched - {adId}
    ensures user.None? ==> r.storage == st.storage
    ensures user.Some? ==> r.storage == st.storage - {CardKey(user.value, adId)}
  {
    var storage := if user.Some? then st.storage - {CardKey(user.value, adId)} else st.storage;
    CardsState(WithoutId(st.rewardAds, adId), st.scratched - {adId}, storage)
  }

  /** Deleting a card leaves no trace of it; the other cards and flags are untouched. */
  lemma DeleteForgetsScratch(st: CardsState, uid: string, adId: string, other: string)
    requires other != adId
    ensures var r := HandleDelete(HandleScratch(st, Some(uid), adId), Some(uid), adId);
            adId !in r.scratched && CardKey(uid, adId) !in r.storage &&
            (forall a :: a in r.rewardAds ==> a.id != adId) &&
            (other in r.scratched <==> other in st.scratched) &&
            (CardKey(uid, other) in r.storage <==> CardKey(uid, other) in st.storage)
  {
    if CardKey(uid, other) == CardKey(uid, adId) {
      CardKeyInjective(uid, other, adId);
    }
  }

  /** A scratched card of the current list is flagged again after a reload. */
  ghost predicate RestoredFlags(cards: map<string, bool>, ads: seq<AdData>, uid: string, storage: map<string, string>) {
    (forall k :: k in cards ==> cards[k]) &&
    (forall k :: k in cards <==> (exists i :: 0 <= i < |ads| && ads[i].id == k) &&
                                 CardKey(uid, k) in storage && storage[CardKey(uid, k)] == "true")
  }

  /** The effect that restores the flags for the fetched ads; it runs only with a user and some ads. */
  method RestoreScratched(user: Option<string>, ads: seq<AdData>, storage: map<string, string>,
                          current: map<string, bool>)
    returns (cards: map<string, bool>)
    ensures user.None? || ads == [] ==> cards == current
    ensures user.Some? && ads != [] ==> RestoredFlags(cards, ads, user.value, storage)
  {
    if user.None? || |ads| == 0 {
      return current;
    }
    var uid := user.value;
    cards := map[];
    for i := 0 to |ads|
      invariant forall k :: k in cards ==> cards[k]
      invariant forall k :: k in cards <==> (exists j :: 0 <= j < i && ads[j].id == k) &&
                                            CardKey(uid, k) in storage && storage[CardKey(uid, k)] == "true"
    {
      var key := CardKey(uid, ads[i].id);
      if key in storage && storage[key] == "true" {
        cards := cards[ads[i].id := true];
      }
    }
  }
}
