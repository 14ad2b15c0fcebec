/**
 * The weekly brand rewards of the rewards screen: one scratch card per brand and
 * per week (weeks start on Monday at midnight), for the newest attempt of that
 * brand in that week; and the scratched flags kept in local storage.
 *
 * Dates are milliseconds since the epoch read in UTC.
 */
module WeeklyRewards {
  import opened Text
  import opened Sorting
  import opened Quiz
  import opened Lists

  const DayMs: int := 24 * 60 * 60 * 1000

  /** Day of the week of the day `d` days after 1 January 1970, a Thursday: 0 is Sunday, 1 Monday. */
  function Weekday(d: int): int {
    (d + 4) % 7
  }

  predicate IsMondayMidnight(t: int) {
    t % DayMs == 0 && Weekday(t / DayMs) == 1
  }

  /** The values `getStartOfWeek` can return. */
  predicate IsWeekValue(w: int) {
    w == 0 || IsMondayMidnight(w)
  }

  lemma MondayOfDay(ms: int, day: int, back: int)
    requires day == ms / DayMs
    requires back == if Weekday(day) == 0 then 6 else Weekday(day) - 1
    ensures IsMondayMidnight((day - back) * DayMs)
    ensures (day - back) * DayMs <= ms < (day - back) * DayMs + 7 * DayMs
  {
    var q := day - back;
    assert (q * DayMs) / DayMs == q;
    assert (q * DayMs) % DayMs == 0;
  }

  /**
   * `getStartOfWeek`: midnight of the Monday on or before the attempt's date;
   * 0 when the attempt has no readable date.
   */
  function StartOfWeek(t: Stamp): (w: int)
    ensures t.At? ==> IsMondayMidnight(w) && w <= t.ms < w + 7 * DayMs
    ensures !t.At? ==> w == 0
    ensures IsWeekValue(w)
  {
    match t
    case At(ms) =>
      var day := ms / DayMs;
      var back := if Weekday(day) == 0 then 6 else Weekday(day) - 1;
      MondayOfDay(ms, day, back);
      (day - back) * DayMs
    case _ => 0
  }

  /** There is one Monday midnight in the seven days up to any instant: the week start is unique. */
  lemma WeekStartUnique(w1: int, w2: int, t: int)
    requires IsMondayMidnight(w1) && w1 <= t < w1 + 7 * DayMs
    requires IsMondayMidnight(w2) && w2 <= t < w2 + 7 * DayMs
    ensures w1 == w2
  {
    var q1 := w1 / DayMs;
    var q2 := w2 / DayMs;
    assert w1 == q1 * DayMs && w2 == q2 * DayMs;
    assert -7 < q1 - q2 < 7;
  }

  /** `${brand}-${weekStartTimestamp}`. */
  function WeekKey(brand: string, week: int): string {
    brand + "-" + IntToString(week)
  }

  function Key(a: QuizAttempt): string {
    WeekKey(a.brand, StartOfWeek(a.timestamp))
  }

  /** The loop skips attempts without a brand or a timestamp. */
  predicate Eligible(a: QuizAttempt) {
    a.brand != "" && !a.timestamp.NoStamp?
  }

  /** The negation of a Monday midnight is never one: the two weekdays would differ by 6 mod 7, not 0. */
  lemma NegatedMondayIsNot(w: int)
    requires IsMondayMidnight(w)
    ensures !IsMondayMidnight(-w)
  {
    var q := w / DayMs;
    assert w == q * DayMs;
    assert (-w) / DayMs == -q;
  }

  /**
   * On the values `getStartOfWeek` returns, the string key determines the
   * brand and the week, although a brand may contain `-` and a week before
   * 1970 prints with a leading `-`.
   */
  lemma WeekKeyInjective(b1: string, w1: int, b2: string, w2: int)
    requires IsWeekValue(w1) && IsWeekValue(w2)
    requires WeekKey(b1, w1) == WeekKey(b2, w2)
    ensures b1 == b2 && w1 == w2
  {
    ghost var d1 := NatToString(if w1 < 0 then -w1 else w1);
    ghost var d2 := NatToString(if w2 < 0 then -w2 else w2);
    if w1 >= 0 && w2 >= 0 {
      DashKeySplitsAtLast(b1, d1, b2, d2);
      NatToStringInjective(w1, w2);
    } else if w1 < 0 && w2 < 0 {
      assert WeekKey(b1, w1) == (b1 + "-") + "-" + d1;
      assert WeekKey(b2, w2) == (b2 + "-") + "-" + d2;
      DashKeySplitsAtLast(b1 + "-", d1, b2 + "-", d2);
      assert b1 == (b1 + "-")[..|b1|];
      NatToStringInjective(-w1, -w2);
    } else if w1 < 0 {
      assert WeekKey(b1, w1) == (b1 + "-") + "-" + d1;
      DashKeySplitsAtLast(b1 + "-", d1, b2, d2);
      NatToStringInjective(-w1, w2);
      NegatedMondayIsNot(w1);
    } else {
      assert WeekKey(b2, w2) == (b2 + "-") + "-" + d2;
      DashKeySplitsAtLast(b1, d1, b2 + "-", d2);
      NatToStringInjective(w1, -w2);
      NegatedMondayIsNot(w2);
    }
  }

  // ---------------------------------------------------------------------------
  // The selection
  // ---------------------------------------------------------------------------

  /** `s[j]` is eligible and no eligible attempt before it has the same key. */
  ghost predicate FirstOfItsKey(s: seq<QuizAttempt>, j: int) {
    0 <= j < |s| && Eligible(s[j]) &&
    forall i :: 0 <= i < j ==> !(Eligible(s[i]) && Key(s[i]) == Key(s[j]))
  }

  /** The attempts among the first `n` of `s` that come first for their key, in order. */
  ghost function FirstsUpTo(s: seq<QuizAttempt>, n: nat): seq<QuizAttempt>
    requires n <= |s|
  {
    if n == 0 then [] else FirstsUpTo(s, n - 1) + (if FirstOfItsKey(s, n - 1) then [s[n - 1]] else [])
  }

  ghost function Firsts(s: seq<QuizAttempt>): seq<QuizAttempt> {
    FirstsUpTo(s, |s|)
  }

  /** The loop of `rewardableAttempts` over the already sorted history. */
  method SelectWeekly(sorted: seq<QuizAttempt>) returns (out: seq<QuizAttempt>)
    ensures out == Firsts(sorted)
  {
    var seen: set<string> := {};
    out := [];
    for i := 0 to |sorted|
      invariant out == FirstsUpTo(sorted, i)
      invariant forall k :: k in seen <==> exists j :: 0 <= j < i && Eligible(sorted[j]) && Key(sorted[j]) == k
    {
      var a := sorted[i];
      if !Eligible(a) {
        continue;
      }
      var key := Key(a);
      if key !in seen {
        out := out + [a];
        seen := seen + {key};
      }
    }
  }

  /** `rewardableAttempts`: nothing without a user; otherwise the selection over the newest-first history. */
  method RewardableAttempts(signedIn: bool, history: seq<QuizAttempt>) returns (out: seq<QuizAttempt>)
    ensures !signedIn ==> out == []
    ensures signedIn ==> out == Firsts(SortDesc(history, Rank))
  {
    if !signedIn {
      return [];
    }
    var sorted := SortDesc(history, Rank);
    out := SelectWeekly(sorted);
  }

  // ---------------------------------------------------------------------------
  // Properties of the selection
  // ---------------------------------------------------------------------------

  lemma {:induction false} FirstsUpToMembers(s: seq<QuizAttempt>, n: nat, k: int)
    requires n <= |s| && 0 <= k < |FirstsUpTo(s, n)|
    ensures exists j :: 0 <= j < n && FirstOfItsKey(s, j) && s[j] == FirstsUpTo(s, n)[k]
  {
    if k < |FirstsUpTo(s, n - 1)| {
      FirstsUpToMembers(s, n - 1, k);
    }
  }

  /** Every selected attempt has a brand and a timestamp. */
  lemma FirstsEligible(s: seq<QuizAttempt>)
    ensures forall k :: 0 <= k < |Firsts(s)| ==> Eligible(Firsts(s)[k])
  {
    forall k | 0 <= k < |Firsts(s)|
      ensures Eligible(Firsts(s)[k])
    {
      FirstsUpToMembers(s, |s|, k);
    }
  }

  lemma {:induction false} FirstsUpToDistinct(s: seq<QuizAttempt>, n: nat)
    requires n <= |s|
    ensures forall a, b :: 0 <= a < b < |FirstsUpTo(s, n)| ==> Key(FirstsUpTo(s, n)[a]) != Key(FirstsUpTo(s, n)[b])
  {
    if n > 0 {
      FirstsUpToDistinct(s, n - 1);
      var p := FirstsUpTo(s, n - 1);
      if FirstOfItsKey(s, n - 1) {
        var x := s[n - 1];
        forall a | 0 <= a < |p|
          ensures Key(p[a]) != Key(x)
        {
          FirstsUpToMembers(s, n - 1, a);
          var j :| 0 <= j < n - 1 && FirstOfItsKey(s, j) && s[j] == p[a];
          assert !(Eligible(s[j]) && Key(s[j]) == Key(x));
        }
        var r := p + [x];
        assert FirstsUpTo(s, n) == r;
        forall a, b | 0 <= a < b < |r|
          ensures Key(r[a]) != Key(r[b])
        {
          if b < |p| {
            assert r[a] == p[a] && r[b] == p[b];
          } else {
            assert r[a] == p[a] && r[b] == x;
          }
        }
      } else {
        assert FirstsUpTo(s, n) == p;
      }
    }
  }

  /** No two selected attempts share a key, and so no two share a brand and a week. */
  lemma FirstsOnePerBrandWeek(s: seq<QuizAttempt>)
    ensures forall a, b :: 0 <= a < b < |Firsts(s)| ==> Key(Firsts(s)[a]) != Key(Firsts(s)[b])
    ensures forall a, b :: 0 <= a < b < |Firsts(s)| ==>
              Firsts(s)[a].brand != Firsts(s)[b].brand ||
              StartOfWeek(Firsts(s)[a].timestamp) != StartOfWeek(Firsts(s)[b].timestamp)
  {
    FirstsUpToDistinct(s, |s|);
  }

  /** The earliest eligible attempt with the key of `s[j]`. */
  lemma {:induction false} EarliestOfKey(s: seq<QuizAttempt>, j: int) returns (i: int)
    requires 0 <= j < |s| && Eligible(s[j])
    ensures 0 <= i <= j && FirstOfItsKey(s, i) && Key(s[i]) == Key(s[j])
    decreases j
  {
    if FirstOfItsKey(s, j) {
      i := j;
    } else {
      var earlier :| 0 <= earlier < j && Eligible(s[earlier]) && Key(s[earlier]) == Key(s[j]);
      i := EarliestOfKey(s, earlier);
    }
  }

  /** An attempt that comes first for its key is selected. */
  lemma {:induction false} FirstsUpToHas(s: seq<QuizAttempt>, n: nat, i: int)
    requires n <= |s| && 0 <= i < n && FirstOfItsKey(s, i)
    ensures s[i] in FirstsUpTo(s, n)
  {
    if i < n - 1 {
      FirstsUpToHas(s, n - 1, i);
    } else {
      assert FirstsUpTo(s, n) == FirstsUpTo(s, n - 1) + [s[i]];
    }
  }

  /** Every brand played in a week with a timestamp earns that week's card. */
  lemma FirstsCoverEveryBrandWeek(s: seq<QuizAttempt>, j: int)
    requires 0 <= j < |s| && Eligible(s[j])
    ensures exists k :: 0 <= k < |Firsts(s)| &&
              Firsts(s)[k].brand == s[j].brand &&
              StartOfWeek(Firsts(s)[k].timestamp) == StartOfWeek(s[j].timestamp)
  {
    var i := EarliestOfKey(s, j);
    FirstsUpToHas(s, |s|, i);
    var k :| 0 <= k < |Firsts(s)| && Firsts(s)[k] == s[i];
    var x := Firsts(s)[k];
    WeekKeyInjective(x.brand, StartOfWeek(x.timestamp), s[j].brand, StartOfWeek(s[j].timestamp));
  }

  lemma {:induction false} FirstsUpToSubsequence(s: seq<QuizAttempt>, n: nat)
    requires n <= |s|
    ensures IsSubsequence(FirstsUpTo(s, n), s[..n])
  {
    if n > 0 {
      FirstsUpToSubsequence(s, n - 1);
      var p := FirstsUpTo(s, n - 1);
      assert s[..n][..n - 1] == s[..n - 1];
      if FirstOfItsKey(s, n - 1) {
        assert (p + [s[n - 1]])[..|p|] == p;
      } else if p != [] {
        assert FirstsUpTo(s, n) == p;
      }
    }
  }

  /** The selection keeps the newest-first order of the sorted history. */
  lemma FirstsSubsequence(s: seq<QuizAttempt>)
    ensures IsSubsequence(Firsts(s), s)
  {
    FirstsUpToSubsequence(s, |s|);
    assert s[..|s|] == s;
  }

  lemma FirstIsNewestInSorted(s: seq<QuizAttempt>, j: int, i: int)
    requires SortedDesc(s, Rank) && FirstOfItsKey(s, j)
    requires 0 <= i < |s| && Eligible(s[i]) && Key(s[i]) == Key(s[j])
    ensures Rank(s[i]) <= Rank(s[j])
  {
    assert j <= i;
  }

  /** The card of each brand and week goes to its newest attempt. */
  lemma RewardIsNewest(history: seq<QuizAttempt>, k: int, y: QuizAttempt)
    requires 0 <= k < |Firsts(SortDesc(history, Rank))|
    requires y in history && Eligible(y) && Key(y) == Key(Firsts(SortDesc(history, Rank))[k])
    ensures Rank(y) <= Rank(Firsts(SortDesc(history, Rank))[k])
  {
    var sorted := SortDesc(history, Rank);
    FirstsUpToMembers(sorted, |sorted|, k);
    var j :| 0 <= j < |sorted| && FirstOfItsKey(sorted, j) && sorted[j] == Firsts(sorted)[k];
    SortDescPermutes(history, Rank);
    SortDescSorted(history, Rank);
    assert y in multiset(sorted);
    var i :| 0 <= i < |sorted| && sorted[i] == y;
    FirstIsNewestInSorted(sorted, j, i);
  }

  // ---------------------------------------------------------------------------
  // Scratched cards
  // ---------------------------------------------------------------------------

  /** `indcric-scratch-card-${slotId}`. */
  function ScratchKey(slotId: string): string {
    "indcric-scratch-card-" + slotId
  }

  lemma ScratchKeyInjective(a: string, b: string)
    requires ScratchKey(a) == ScratchKey(b)
    ensures a == b
  {
    assert a == ScratchKey(a)[21..];
  }

  /** The scratched flags of the screen and the browser's local storage. */
  datatype ScratchState = ScratchState(cards: map<string, bool>, storage: map<string, string>)

  /** `handleScratch`: marks one card scratched, in the screen state and in storage. */
  function HandleScratch(st: ScratchState, slotId: string): (r: ScratchState)
    ensures slotId in r.cards && r.cards[slotId]
    ensures forall k :: k != slotId ==> (k in r.cards <==> k in st.cards) && (k in st.cards ==> r.cards[k] == st.cards[k])
    ensures ScratchKey(slotId) in r.storage && r.storage[ScratchKey(slotId)] == "true"
    ensures forall k :: k != ScratchKey(slotId) ==>
              (k in r.storage <==> k in st.storage) && (k in st.storage ==> r.storage[k] == st.storage[k])
  {
    ScratchState(st.cards[slotId := true], st.storage[ScratchKey(slotId) := "true"])
  }

  predicate SavedAsScratched(storage: map<string, string>, slotId: string) {
    ScratchKey(slotId) in storage && storage[ScratchKey(slotId)] == "true"
  }

  /** The flags rebuilt from storage: the slots of the history whose key holds `'true'`. */
  ghost predicate RebuiltFlags(cards: map<string, bool>, history: seq<QuizAttempt>, storage: map<string, string>) {
    (forall k :: k in cards ==> cards[k]) &&
    (forall k :: k in cards <==> (exists i :: 0 <= i < |history| && history[i].slotId == k) && SavedAsScratched(storage, k))
  }

  /**
   * The effect that restores the flags after a reload. It runs only for a
   * signed-in user with a non-empty history; otherwise the flags stay `current`.
   */
  method RestoreScratched(signedIn: bool, history: seq<QuizAttempt>, storage: map<string, string>,
                          current: map<string, bool>)
    returns (cards: map<string, bool>)
    ensures !signedIn || history == [] ==> cards == current
    ensures signedIn && history != [] ==> RebuiltFlags(cards, history, storage)
  {
    if !signedIn || history == [] {
      return current;
    }
    cards := map[];
    for i := 0 to |history|
      invariant forall k :: k in cards ==> cards[k]
      invariant forall k :: k in cards <==> (exists j :: 0 <= j < i && history[j].slotId == k) && SavedAsScratched(storage, k)
    {
      var id := history[i].slotId;
      if SavedAsScratched(storage, id) {
        cards := cards[id := true];
      }
    }
  }

  /** A scratched card of the history is still scratched after a reload. */
  lemma ScratchSurvivesReload(st: ScratchState, history: seq<QuizAttempt>, i: int, cards: map<string, bool>)
    requires 0 <= i < |history|
    requires RebuiltFlags(cards, history, HandleScratch(st, history[i].slotId).storage)
    ensures history[i].slotId in cards && cards[history[i].slotId]
  {
  }
}
