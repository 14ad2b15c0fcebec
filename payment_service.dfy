/**
 * Reward payments: a pending payment request is recorded for a perfect quiz
 * score, and an admin later marks it completed or failed. The collection of
 * payment documents is the field `docs` of a store object.
 */
module PaymentService {
  import opened Wrappers
  import opened Sorting
  import opened Lists

  datatype PaymentStatus = Pending | Completed | Failed

  /** The fields of a `paymentRequests` document. Times are milliseconds. */
  datatype PaymentRequest = PaymentRequest(
    id: string,
    userId: string,
    userName: string,
    userEmail: string,
    userPhone: string,
    userUpi: string,
    amount: int,
    quizId: string,
    score: int,
    totalQuestions: int,
    status: PaymentStatus,
    createdAt: int,
    completedAt: Option<int>,
    completedBy: Option<string>,
    notes: Option<string>,
    failureReason: Option<string>)

  /** The user document fields the request copies; `None` is a missing or empty field. */
  datatype UserData = UserData(name: Option<string>, email: Option<string>, phone: Option<string>, upi: Option<string>)

  /** The reward for a perfect score, in rupees. */
  const RewardAmount := 100

  /** The record written for a perfect score, with the `||` defaults in place. */
  function NewRequest(id: string, userId: string, quizId: string, score: int, totalQuestions: int,
                      user: UserData, now: int): (p: PaymentRequest)
    ensures p.id == id && p.userId == userId && p.quizId == quizId
    ensures p.score == score && p.totalQuestions == totalQuestions && p.createdAt == now
    ensures p.amount == RewardAmount && p.status == Pending
    ensures p.userName == (if user.name.Some? then user.name.value else "Unknown User")
    ensures p.userEmail == (if user.email.Some? then user.email.value else "")
    ensures p.userPhone == (if user.phone.Some? then user.phone.value else "")
    ensures p.userUpi == (if user.upi.Some? then user.upi.value else "")
    ensures p.completedAt.None? && p.completedBy.None? && p.notes.None? && p.failureReason.None?
  {
    PaymentRequest(id, userId, user.name.GetOr("Unknown User"), user.email.GetOr(""),
                   user.phone.GetOr(""), user.upi.GetOr(""), RewardAmount, quizId, score,
                   totalQuestions, Pending, now, None, None, None, None)
  }

  /** `p` with the fields `markPaymentCompleted` writes. */
  function Completion(p: PaymentRequest, adminEmail: string, notes: Option<string>, now: int): (q: PaymentRequest)
    ensures q.status == Completed && q.completedAt == Some(now) && q.completedBy == Some(adminEmail)
    ensures q.notes == Some(if notes.Some? then notes.value else "")
    ensures q.(status := p.status, completedAt := p.completedAt, completedBy := p.completedBy,
               notes := p.notes) == p
  {
    p.(status := Completed, completedAt := Some(now), completedBy := Some(adminEmail),
       notes := Some(notes.GetOr("")))
  }

  /** `p` with the fields `markPaymentFailed` writes. */
  function Failure(p: PaymentRequest, adminEmail: string, reason: string, now: int): (q: PaymentRequest)
    ensures q.status == PaymentStatus.Failed && q.completedAt == Some(now) && q.completedBy == Some(adminEmail)
    ensures q.failureReason == Some(reason)
    ensures q.(status := p.status, completedAt := p.completedAt, completedBy := p.completedBy,
               failureReason := p.failureReason) == p
  {
    p.(status := PaymentStatus.Failed, completedAt := Some(now), completedBy := Some(adminEmail),
       failureReason := Some(reason))
  }

  /** Whether some document has the id. */
  predicate HasId(docs: seq<PaymentRequest>, id: string) {
    exists i | 0 <= i < |docs| :: docs[i].id == id
  }

  /** Every document with the id replaced by `f` of itself; the others unchanged. */
  function UpdateWhere(docs: seq<PaymentRequest>, id: string, f: PaymentRequest -> PaymentRequest): (r: seq<PaymentRequest>)
    ensures |r| == |docs|
    ensures forall i :: 0 <= i < |docs| ==> r[i] == (if docs[i].id == id then f(docs[i]) else docs[i])
  {
    if docs == [] then []
    else [if docs[0].id == id then f(docs[0]) else docs[0]] + UpdateWhere(docs[1..], id, f)
  }

  // ---------------------------------------------------------------------------
  // Queries and statistics
  // ---------------------------------------------------------------------------

  /** The test of `where('status', '==', status)`. */
  function HasStatus(status: PaymentStatus): PaymentRequest -> bool {
    (p: PaymentRequest) => p.status == status
  }

  /**
   * The documents with the status, in collection order and with their
   * multiplicity: the collection filtered on the status.
   */
  function WithStatus(docs: seq<PaymentRequest>, status: PaymentStatus): (r: seq<PaymentRequest>)
    ensures r == Filter(docs, HasStatus(status))
    ensures IsSubsequence(r, docs)
    ensures forall p :: p in r <==> p in docs && p.status == status
  {
    FilterIsSubsequence(docs, HasStatus(status));
    if docs == [] then []
    else
      FilterCons(docs[0], docs[1..], HasStatus(status));
      assert [docs[0]] + docs[1..] == docs;
      (if docs[0].status == status then [docs[0]] else []) + WithStatus(docs[1..], status)
  }

  function CreatedAt(p: PaymentRequest): int { p.createdAt }

  /**
   * `getAllPaymentRequests`: the documents of the requested status, or all of
   * them, newest first.
   */
  function GetAllPaymentRequests(docs: seq<PaymentRequest>, status: Option<PaymentStatus>): (r: seq<PaymentRequest>)
  {
    SortDesc(if status.Some? then WithStatus(docs, status.value) else docs, CreatedAt)
  }

  /**
   * The answer holds exactly the documents of the status (all documents
   * without one), ordered by creation time, newest first.
   */
  lemma GetAllPaymentRequestsSpec(docs: seq<PaymentRequest>, status: Option<PaymentStatus>)
    ensures var r := GetAllPaymentRequests(docs, status);
            SortedDesc(r, CreatedAt) &&
            multiset(r) == multiset(if status.Some? then WithStatus(docs, status.value) else docs) &&
            (status.Some? ==> forall p :: p in r ==> p.status == status.value)
  {
    var input := if status.Some? then WithStatus(docs, status.value) else docs;
    SortDescSorted(input, CreatedAt);
    SortDescPermutes(input, CreatedAt);
    var r := GetAllPaymentRequests(docs, status);
    forall p | p in r
      ensures p in input
    {
      assert p in multiset(r);
    }
  }

  function Count(docs: seq<PaymentRequest>, status: PaymentStatus): nat {
    if docs == [] then 0
    else (if docs[0].status == status then 1 else 0) + Count(docs[1..], status)
  }

  /** The count of a status is the number of documents the status query answers. */
  lemma {:induction false} CountIsQueryLength(docs: seq<PaymentRequest>, status: PaymentStatus)
    ensures Count(docs, status) == |WithStatus(docs, status)|
  {
    if docs != [] {
      CountIsQueryLength(docs[1..], status);
    }
  }

  function TotalAmount(docs: seq<PaymentRequest>): int {
    if docs == [] then 0 else docs[0].amount + TotalAmount(docs[1..])
  }

  function AmountWith(docs: seq<PaymentRequest>, status: PaymentStatus): int {
    if docs == [] then 0
    else (if docs[0].status == status then docs[0].amount else 0) + AmountWith(docs[1..], status)
  }

  datatype PaymentStats = PaymentStats(
    totalPayments: nat,
    pendingPayments: nat,
    completedPayments: nat,
    failedPayments: nat,
    totalAmount: int,
    pendingAmount: int,
    completedAmount: int)

  /** `getPaymentStats` over every payment document. */
  function GetPaymentStats(docs: seq<PaymentRequest>): (st: PaymentStats)
    ensures st.totalPayments == |docs|
    ensures st.pendingPayments == Count(docs, Pending) && st.completedPayments == Count(docs, Completed) &&
            st.failedPayments == Count(docs, PaymentStatus.Failed)
    ensures st.totalAmount == TotalAmount(docs)
    ensures st.pendingAmount == AmountWith(docs, Pending) && st.completedAmount == AmountWith(docs, Completed)
    ensures st.pendingPayments + st.completedPayments + st.failedPayments == st.totalPayments
    ensures st.pendingAmount + st.completedAmount + AmountWith(docs, PaymentStatus.Failed) == st.totalAmount
  {
    CountsAddUp(docs);
    AmountsAddUp(docs);
    PaymentStats(|docs|, Count(docs, Pending), Count(docs, Completed), Count(docs, PaymentStatus.Failed),
                 TotalAmount(docs), AmountWith(docs, Pending), AmountWith(docs, Completed))
  }

  lemma {:induction false} CountsAddUp(docs: seq<PaymentRequest>)
    ensures Count(docs, Pending) + Count(docs, Completed) + Count(docs, PaymentStatus.Failed) == |docs|
  {
    if docs != [] {
      CountsAddUp(docs[1..]);
    }
  }

  lemma {:induction false} AmountsAddUp(docs: seq<PaymentRequest>)
    ensures AmountWith(docs, Pending) + AmountWith(docs, Completed) + AmountWith(docs, PaymentStatus.Failed) ==
            TotalAmount(docs)
  {
    if docs != [] {
      AmountsAddUp(docs[1..]);
    }
  }

  /** Every request is created for the fixed reward, so the total is 100 per payment. */
  lemma {:induction false} TotalOfRewards(docs: seq<PaymentRequest>)
    requires forall i :: 0 <= i < |docs| ==> docs[i].amount == RewardAmount
    ensures GetPaymentStats(docs).totalAmount == RewardAmount * |docs|
  {
    if docs != [] {
      TotalOfRewards(docs[1..]);
    }
  }

  /**
   * Marking the one pending document with the id as completed moves one
   * payment and its amount from the pending figures to the completed ones.
   */
  lemma {:induction false} CompletionMovesPendingToCompleted(docs: seq<PaymentRequest>, k: nat,
      adminEmail: string, notes: Option<string>, now: int)
    requires k < |docs| && docs[k].status == Pending
    requires forall i :: 0 <= i < |docs| && i != k ==> docs[i].id != docs[k].id
    ensures var before := GetPaymentStats(docs);
            var after := GetPaymentStats(UpdateWhere(docs, docs[k].id, p => Completion(p, adminEmail, notes, now)));
            after.totalPayments == before.totalPayments &&
            after.pendingPayments + 1 == before.pendingPayments &&
            after.completedPayments == before.completedPayments + 1 &&
            after.failedPayments == before.failedPayments &&
            after.totalAmount == before.totalAmount &&
            after.pendingAmount + docs[k].amount == before.pendingAmount &&
            after.completedAmount == before.completedAmount + docs[k].amount
  {
    var q := Completion(docs[k], adminEmail, notes, now);
    SingleChange(docs, k, q, docs[k].id, p => Completion(p, adminEmail, notes, now));
    PendingBecomesCompleted(docs, k, q);
  }

  /** Replacing a pending document by a completed one of the same amount. */
  lemma PendingBecomesCompleted(docs: seq<PaymentRequest>, k: nat, q: PaymentRequest)
    requires k < |docs| && docs[k].status == Pending && q.status == Completed && q.amount == docs[k].amount
    ensures var before := GetPaymentStats(docs);
            var after := GetPaymentStats(docs[k := q]);
            after.totalPayments == before.totalPayments &&
            after.pendingPayments + 1 == before.pendingPayments &&
            after.completedPayments == before.completedPayments + 1 &&
            after.failedPayments == before.failedPayments &&
            after.totalAmount == before.totalAmount &&
            after.pendingAmount + docs[k].amount == before.pendingAmount &&
            after.completedAmount == before.completedAmount + docs[k].amount
  {
    ReplaceOne(docs, k, q);
    var changed := docs[k := q];
    assert Count(changed, Pending) + 1 == Count(docs, Pending);
    assert Count(changed, Completed) == Count(docs, Completed) + 1;
    assert Count(changed, PaymentStatus.Failed) == Count(docs, PaymentStatus.Failed);
    assert AmountWith(changed, Pending) + docs[k].amount == AmountWith(docs, Pending);
    assert AmountWith(changed, Completed) == AmountWith(docs, Completed) + q.amount;
  }

  /** Updating the one document with the id is replacing it at its position. */
  lemma SingleChange(docs: seq<PaymentRequest>, k: nat, q: PaymentRequest, id: string,
                     f: PaymentRequest -> PaymentRequest)
    requires k < |docs| && docs[k].id == id && f(docs[k]) == q
    requires forall i :: 0 <= i < |docs| && i != k ==> docs[i].id != id
    ensures UpdateWhere(docs, id, f) == docs[k := q]
  {
  }

  /** How the statistics move when one document is replaced by another. */
  lemma {:induction false} ReplaceOne(docs: seq<PaymentRequest>, k: nat, q: PaymentRequest)
    requires k < |docs|
    ensures forall s :: Count(docs[k := q], s) + (if docs[k].status == s then 1 else 0) ==
                        Count(docs, s) + (if q.status == s then 1 else 0)
    ensures forall s :: AmountWith(docs[k := q], s) + (if docs[k].status == s then docs[k].amount else 0) ==
                        AmountWith(docs, s) + (if q.status == s then q.amount else 0)
    ensures TotalAmount(docs[k := q]) + docs[k].amount == TotalAmount(docs) + q.amount
  {
    if k > 0 {
      ReplaceOne(docs[1..], k - 1, q);
      assert docs[k := q][1..] == docs[1..][k - 1 := q];
    } else {
      assert docs[k := q][1..] == docs[1..];
    }
  }

  // ---------------------------------------------------------------------------
  // The store
  // ---------------------------------------------------------------------------

  /** The `paymentRequests` collection. */
  class PaymentStore {
    var docs: seq<PaymentRequest>

    constructor(initial: seq<PaymentRequest>)
      ensures docs == initial
    {
      docs := initial;
    }

    /**
     * `createPaymentRequest`. `user` is the user document, `None` when it does
     * not exist; `newId` is the id the new document receives and `now` the
     * clock; `failure` is the error `addDoc` throws, which is rethrown. A
     * score short of the total writes nothing and answers `null`.
     */
    method CreatePaymentRequest(userId: string, quizId: string, score: int, totalQuestions: int,
                                user: Option<UserData>, newId: string, now: int, failure: Option<string>)
      returns (r: Result<Option<string>>)
      modifies this
      ensures score != totalQuestions ==> r == Ok(None) && docs == old(docs)
      ensures score == totalQuestions && user.None? ==> r == Err("User not found") && docs == old(docs)
      ensures score == totalQuestions && user.Some? && failure.Some? ==>
                r == Err(failure.value) && docs == old(docs)
      ensures score == totalQuestions && user.Some? && failure.None? ==>
                r == Ok(Some(newId)) &&
                docs == old(docs) + [NewRequest(newId, userId, quizId, score, totalQuestions, user.value, now)]
    {
      if score != totalQuestions {
        return Ok(None);
      }
      if user.None? {
        return Err("User not found");
      }
      if failure.Some? {
        return Err(failure.value);
      }
      docs := docs + [NewRequest(newId, userId, quizId, score, totalQuestions, user.value, now)];
      r := Ok(Some(newId));
    }

    /**
     * `markPaymentCompleted`: whatever the prior status. Updating a document
     * that does not exist fails and writes nothing; `failure` is the error the
     * write throws on an existing document, which is rethrown.
     */
    method MarkPaymentCompleted(paymentId: string, adminEmail: string, notes: Option<string>, now: int,
                                failure: Option<string>)
      returns (r: Result<()>)
      modifies this
      ensures r.Ok? <==> HasId(old(docs), paymentId) && failure.None?
      ensures HasId(old(docs), paymentId) && failure.Some? ==> r == Err(failure.value)
      ensures r.Ok? ==> docs == UpdateWhere(old(docs), paymentId, p => Completion(p, adminEmail, notes, now))
      ensures r.Err? ==> docs == old(docs)
    {
      if !HasId(docs, paymentId) {
        return Err("No document to update");
      }
      if failure.Some? {
        return Err(failure.value);
      }
      docs := UpdateWhere(docs, paymentId, p => Completion(p, adminEmail, notes, now));
      r := Ok(());
    }

    /** `markPaymentFailed`: whatever the prior status; `failure` as for `MarkPaymentCompleted`. */
    method MarkPaymentFailed(paymentId: string, adminEmail: string, failureReason: string, now: int,
                             failure: Option<string>)
      returns (r: Result<()>)
      modifies this
      ensures r.Ok? <==> HasId(old(docs), paymentId) && failure.None?
      ensures HasId(old(docs), paymentId) && failure.Some? ==> r == Err(failure.value)
      ensures r.Ok? ==> docs == UpdateWhere(old(docs), paymentId, p => Failure(p, adminEmail, failureReason, now))
      ensures r.Err? ==> docs == old(docs)
    {
      if !HasId(docs, paymentId) {
        return Err("No document to update");
      }
      if failure.Some? {
        return Err(failure.value);
      }
      docs := UpdateWhere(docs, paymentId, p => Failure(p, adminEmail, failureReason, now));
      r := Ok(());
    }
  }

  lemma NoMatchNoUpdate(docs: seq<PaymentRequest>, id: string, f: PaymentRequest -> PaymentRequest)
    requires !HasId(docs, id)
    ensures UpdateWhere(docs, id, f) == docs
  {
  }

  /** A created request adds one pending payment of the reward amount. */
  lemma CreationAddsPending(docs: seq<PaymentRequest>, p: PaymentRequest)
    requires p.status == Pending && p.amount == RewardAmount
    ensures var before := GetPaymentStats(docs);
            var after := GetPaymentStats(docs + [p]);
            after.totalPayments == before.totalPayments + 1 &&
            after.pendingPayments == before.pendingPayments + 1 &&
            after.completedPayments == before.completedPayments &&
            after.failedPayments == before.failedPayments &&
            after.totalAmount == before.totalAmount + RewardAmount &&
            after.pendingAmount == before.pendingAmount + RewardAmount &&
            after.completedAmount == before.completedAmount
  {
    AppendStats(docs, p, Pending);
    AppendStats(docs, p, Completed);
    AppendStats(docs, p, PaymentStatus.Failed);
  }

  lemma {:induction false} AppendStats(docs: seq<PaymentRequest>, p: PaymentRequest, s: PaymentStatus)
    ensures Count(docs + [p], s) == Count(docs, s) + (if p.status == s then 1 else 0)
    ensures AmountWith(docs + [p], s) == AmountWith(docs, s) + (if p.status == s then p.amount else 0)
    ensures TotalAmount(docs + [p]) == TotalAmount(docs) + p.amount
  {
    if docs != [] {
      AppendStats(docs[1..], p, s);
      assert (docs + [p])[1..] == docs[1..] + [p];
    } else {
      assert docs + [p] == [p];
      assert [p][1..] == [];
    }
  }
}
