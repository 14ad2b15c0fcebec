/**
 * The admin user service: the active-user buckets (today, last 7 days, last
 * 30 days) over all quiz attempts, the per-user table rows with the latest
 * attempt, and the lookup of users by id.
 */
module UserManagement {
  import opened Wrappers
  import opened Lists

  /**
   * A stored time field, by the shape the decoders test: a Firestore
   * `Timestamp` (it has `toDate`), an object with `seconds`, a `Date` (whose
   * time is `None` when invalid), a number, a string, or anything else.
   * Times are milliseconds.
   */
  datatype TimeField =
    | Missing
    | FirestoreTimestamp(ms: int)
    | SecondsObject(seconds: int)
    | DateObject(time: Option<int>)
    | NumberTime(n: int)
    | StringTime(text: string)
    | OtherValue

  /** Whether the field is truthy: a missing value, `0` and `""` are not. */
  predicate Truthy(t: TimeField) {
    match t
    case Missing => false
    case NumberTime(n) => n != 0
    case StringTime(s) => s != ""
    case _ => true
  }

  /**
   * The attempt date of the bucketing loop: `toDate()`, else `seconds * 1000`
   * when `seconds` is non-zero, else a `Date`, else a number.
   */
  function BucketDate(t: TimeField): (d: Option<int>)
    ensures !Truthy(t) ==> d.None?
    ensures t.StringTime? || t.OtherValue? || t == SecondsObject(0) ==> d.None?
    ensures t.FirestoreTimestamp? ==> d == Some(t.ms)
    ensures t.SecondsObject? && t.seconds != 0 ==> d == Some(t.seconds * 1000)
    ensures t.DateObject? ==> d == t.time
    ensures t.NumberTime? && t.n != 0 ==> d == Some(t.n)
  {
    match t
    case FirestoreTimestamp(ms) => Some(ms)
    case SecondsObject(s) => if s != 0 then Some(s * 1000) else None
    case DateObject(time) => time
    case NumberTime(n) => if n != 0 then Some(n) else None
    case _ => None
  }

  /** A quiz attempt document; `userId` is `""` when missing. */
  datatype AttemptDoc = AttemptDoc(userId: string, timestamp: TimeField)

  /** An attempt is counted from `since` on when it has a user and a valid date no earlier. */
  predicate CountsFrom(d: AttemptDoc, since: int) {
    d.userId != "" && BucketDate(d.timestamp).Some? && BucketDate(d.timestamp).value >= since
  }

  /** The users of the attempts counted from `since`, each once, in order of first counted attempt. */
  function Bucket(docs: seq<AttemptDoc>, since: int): seq<string>
    decreases |docs|
  {
    if docs == [] then []
    else
      var b := Bucket(docs[..|docs| - 1], since);
      var d := docs[|docs| - 1];
      if CountsFrom(d, since) && d.userId !in b then b + [d.userId] else b
  }

  predicate NoDuplicates(s: seq<string>) {
    forall i, j :: 0 <= i < j < |s| ==> s[i] != s[j]
  }

  /** A bucket holds exactly the users with a counted attempt, each once. */
  lemma {:induction false} BucketSpec(docs: seq<AttemptDoc>, since: int)
    ensures NoDuplicates(Bucket(docs, since))
    ensures forall x :: x in Bucket(docs, since) <==>
              exists i :: 0 <= i < |docs| && CountsFrom(docs[i], since) && docs[i].userId == x
    decreases |docs|
  {
    if docs != [] {
      var init := docs[..|docs| - 1];
      BucketSpec(init, since);
      assert forall i :: 0 <= i < |init| ==> init[i] == docs[i];
      forall x | x in Bucket(docs, since)
        ensures exists i :: 0 <= i < |docs| && CountsFrom(docs[i], since) && docs[i].userId == x
      {
        if x !in Bucket(init, since) {
          assert CountsFrom(docs[|docs| - 1], since) && docs[|docs| - 1].userId == x;
        }
      }
    }
  }

  /** The three buckets nest when the cut-offs are ordered. */
  lemma BucketsNest(docs: seq<AttemptDoc>, early: int, late: int)
    requires early <= late
    ensures forall x :: x in Bucket(docs, late) ==> x in Bucket(docs, early)
  {
    BucketSpec(docs, early);
    BucketSpec(docs, late);
    forall x | x in Bucket(docs, late)
      ensures x in Bucket(docs, early)
    {
      var i :| 0 <= i < |docs| && CountsFrom(docs[i], late) && docs[i].userId == x;
      assert CountsFrom(docs[i], early);
    }
  }

  /**
   * The snapshot handler of `subscribeToUserMetrics`: one pass over the
   * attempts adding each counted user to the sets of today, of the last seven
   * days and of the last thirty days (insertion order, as `Array.from` of a
   * `Set` gives it).
   */
  method ActiveUsers(docs: seq<AttemptDoc>, todayStart: int, sevenDaysAgo: int, thirtyDaysAgo: int)
    returns (today: seq<string>, week: seq<string>, month: seq<string>)
    ensures today == Bucket(docs, todayStart) && week == Bucket(docs, sevenDaysAgo) &&
            month == Bucket(docs, thirtyDaysAgo)
    ensures NoDuplicates(today) && NoDuplicates(week) && NoDuplicates(month)
    ensures thirtyDaysAgo <= sevenDaysAgo <= todayStart ==>
              (forall x :: x in today ==> x in week) && (forall x :: x in week ==> x in month)
  {
    today, week, month := [], [], [];
    var i := 0;
    while i < |docs|
      invariant 0 <= i <= |docs|
      invariant today == Bucket(docs[..i], todayStart)
      invariant week == Bucket(docs[..i], sevenDaysAgo)
      invariant month == Bucket(docs[..i], thirtyDaysAgo)
    {
      assert docs[..i + 1][..i] == docs[..i];
      var d := docs[i];
      var date := BucketDate(d.timestamp);
      if d.userId != "" && date.Some? {
        if date.value >= todayStart && d.userId !in today { today := today + [d.userId]; }
        if date.value >= sevenDaysAgo && d.userId !in week { week := week + [d.userId]; }
        if date.value >= thirtyDaysAgo && d.userId !in month { month := month + [d.userId]; }
      }
      i := i + 1;
    }
    assert docs[..i] == docs;
    BucketSpec(docs, todayStart);
    BucketSpec(docs, sevenDaysAgo);
    BucketSpec(docs, thirtyDaysAgo);
    if thirtyDaysAgo <= sevenDaysAgo <= todayStart {
      BucketsNest(docs, sevenDaysAgo, todayStart);
      BucketsNest(docs, thirtyDaysAgo, sevenDaysAgo);
    }
  }

  // ---------------------------------------------------------------------------
  // The user table
  // ---------------------------------------------------------------------------

  /** The attempt date of the latest-attempt loop: only `toDate()` and non-zero `seconds`. */
  function LatestLoopDate(t: TimeField): Option<int> {
    match t
    case FirestoreTimestamp(ms) => Some(ms)
    case SecondsObject(s) => if s != 0 then Some(s * 1000) else None
    case _ => None
  }

  /** The latest decodable time, `None` when none decodes. */
  function Latest(ts: seq<TimeField>): Option<int>
    decreases |ts|
  {
    if ts == [] then None
    else
      var prev := Latest(ts[..|ts| - 1]);
      var d := LatestLoopDate(ts[|ts| - 1]);
      if d.Some? && (prev.None? || d.value > prev.value) then d else prev
  }

  /** The latest time is one of the decoded times and no decoded time is later. */
  lemma {:induction false} LatestSpec(ts: seq<TimeField>)
    ensures Latest(ts).None? <==> forall i :: 0 <= i < |ts| ==> LatestLoopDate(ts[i]).None?
    ensures Latest(ts).Some? ==>
              (exists i :: 0 <= i < |ts| && LatestLoopDate(ts[i]) == Latest(ts)) &&
              forall i :: 0 <= i < |ts| && LatestLoopDate(ts[i]).Some? ==>
                LatestLoopDate(ts[i]).value <= Latest(ts).value
    decreases |ts|
  {
    if ts != [] {
      var init := ts[..|ts| - 1];
      LatestSpec(init);
      assert forall i :: 0 <= i < |init| ==> init[i] == ts[i];
      if Latest(ts) == Latest(init) && Latest(ts).Some? {
        var i :| 0 <= i < |init| && LatestLoopDate(init[i]) == Latest(init);
        assert LatestLoopDate(ts[i]) == Latest(ts);
      }
    }
  }

  /** The running maximum over one user's attempts. */
  method LatestAttempt(ts: seq<TimeField>) returns (latest: Option<int>)
    ensures latest == Latest(ts)
  {
    latest := None;
    var i := 0;
    while i < |ts|
      invariant 0 <= i <= |ts|
      invariant latest == Latest(ts[..i])
    {
      assert ts[..i + 1][..i] == ts[..i];
      var d := LatestLoopDate(ts[i]);
      if d.Some? && (latest.None? || d.value > latest.value) {
        latest := d;
      }
      i := i + 1;
    }
    assert ts[..i] == ts;
  }

  /** A user document; missing strings are `""`. */
  datatype UserDoc = UserDoc(uid: string, name: string, email: string, phone: string, lastPlayedAt: TimeField)

  datatype UserRow = UserRow(uid: string, displayName: string, email: string, phoneNumber: string,
                             lastLogin: string, lastQuizTaken: string)

  /**
   * The `lastLogin` cell: `toDate()`, non-zero `seconds`, a `Date`, or a
   * string read by `parseDate` (`new Date(s)`); any other shape and any
   * invalid date give `N/A`. `formatTime` stands for `toLocaleString`.
   */
  function LastLogin(t: TimeField, parseDate: string -> Option<int>, formatTime: int -> string): (cell: string)
    ensures !Truthy(t) ==> cell == "N/A"
    ensures t.NumberTime? || t.OtherValue? || t == SecondsObject(0) ==> cell == "N/A"
    ensures !t.NumberTime? && BucketDate(t).Some? ==> cell == formatTime(BucketDate(t).value)
    ensures t.DateObject? && t.time.None? ==> cell == "N/A"
    ensures t.StringTime? && t.text != "" && parseDate(t.text).Some? ==> cell == formatTime(parseDate(t.text).value)
    ensures t.StringTime? && parseDate(t.text).None? ==> cell == "N/A"
  {
    var date := match t
      case FirestoreTimestamp(ms) => Some(ms)
      case SecondsObject(s) => if s != 0 then Some(s * 1000) else None
      case DateObject(time) => time
      case StringTime(s) => if s != "" then parseDate(s) else None
      case _ => None;
    if date.Some? then formatTime(date.value) else "N/A"
  }

  /** `d.x || fallback`. */
  function OrElse(s: string, fallback: string): (r: string)
    ensures s != "" ==> r == s
    ensures s == "" ==> r == fallback
  {
    if s != "" then s else fallback
  }

  /**
   * The row of one user. `attempts` is the answer of the per-user attempt
   * query; a failed query leaves `N/A`.
   */
  function Row(d: UserDoc, attempts: Fetch<TimeField>, parseDate: string -> Option<int>,
               formatTime: int -> string): UserRow
  {
    var latest := if attempts.Fetched? then Latest(attempts.docs) else None;
    UserRow(d.uid, OrElse(d.name, "Unknown"), OrElse(d.email, "N/A"), OrElse(d.phone, "N/A"),
            LastLogin(d.lastPlayedAt, parseDate, formatTime),
            if latest.Some? then formatTime(latest.value) else "N/A")
  }

  /** The table defaults and the `N/A` of a user with no decodable attempt. */
  lemma RowDefaults(d: UserDoc, attempts: Fetch<TimeField>, parseDate: string -> Option<int>,
                    formatTime: int -> string)
    ensures var r := Row(d, attempts, parseDate, formatTime);
            r.uid == d.uid &&
            (d.name == "" ==> r.displayName == "Unknown") &&
            (d.email == "" ==> r.email == "N/A") &&
            (d.phone == "" ==> r.phoneNumber == "N/A") &&
            (d.name != "" ==> r.displayName == d.name) &&
            (d.email != "" ==> r.email == d.email) &&
            (d.phone != "" ==> r.phoneNumber == d.phone) &&
            r.lastLogin == LastLogin(d.lastPlayedAt, parseDate, formatTime) &&
            (attempts.Failed? ==> r.lastQuizTaken == "N/A") &&
            ((attempts.Fetched? &&
              (forall i :: 0 <= i < |attempts.docs| ==> LatestLoopDate(attempts.docs[i]).None?)) ==>
               r.lastQuizTaken == "N/A")
    ensures var r := Row(d, attempts, parseDate, formatTime);
            attempts.Fetched? && (exists i :: 0 <= i < |attempts.docs| && LatestLoopDate(attempts.docs[i]).Some?) ==>
              Latest(attempts.docs).Some? && r.lastQuizTaken == formatTime(Latest(attempts.docs).value)
  {
    if attempts.Fetched? {
      LatestSpec(attempts.docs);
    }
  }

  /**
   * `getAllUsersWithDetails`: one row per user document, in order.
   * `attemptsOf(uid)` answers the attempt query of that user.
   */
  method AllUsersWithDetails(userDocs: seq<UserDoc>, attemptsOf: string -> Fetch<TimeField>,
                             parseDate: string -> Option<int>, formatTime: int -> string)
    returns (users: seq<UserRow>)
    ensures |users| == |userDocs|
    ensures forall k :: 0 <= k < |userDocs| ==>
              users[k] == Row(userDocs[k], attemptsOf(userDocs[k].uid), parseDate, formatTime)
  {
    users := [];
    var i := 0;
    while i < |userDocs|
      invariant 0 <= i <= |userDocs| && |users| == i
      invariant forall k :: 0 <= k < i ==>
                  users[k] == Row(userDocs[k], attemptsOf(userDocs[k].uid), parseDate, formatTime)
    {
      var d := userDocs[i];
      var attempts := attemptsOf(d.uid);
      var lastQuizTaken := "N/A";
      if attempts.Fetched? {
        var latest := LatestAttempt(attempts.docs);
        if latest.Some? {
          lastQuizTaken := formatTime(latest.value);
        }
      }
      users := users + [UserRow(d.uid, OrElse(d.name, "Unknown"), OrElse(d.email, "N/A"), OrElse(d.phone, "N/A"),
                                LastLogin(d.lastPlayedAt, parseDate, formatTime), lastQuizTaken)];
      i := i + 1;
    }
  }

  /** `getUsersByIdsWithDetails` over the rows of all users. */
  function UsersByIds(userIds: seq<string>, allUsers: seq<UserRow>): (r: seq<UserRow>)
    ensures userIds == [] ==> r == []
    ensures forall i :: 0 <= i < |r| ==> r[i] in allUsers && r[i].uid in userIds
    ensures forall i :: 0 <= i < |allUsers| && allUsers[i].uid in userIds ==> allUsers[i] in r
  {
    if |userIds| == 0 then [] else Filter(allUsers, (u: UserRow) => u.uid in userIds)
  }

  /** The selection keeps the order of the table. */
  lemma UsersByIdsKeepsOrder(userIds: seq<string>, allUsers: seq<UserRow>)
    ensures IsSubsequence(UsersByIds(userIds, allUsers), allUsers)
  {
    if userIds != [] {
      FilterIsSubsequence(allUsers, (u: UserRow) => u.uid in userIds);
    }
  }
}
