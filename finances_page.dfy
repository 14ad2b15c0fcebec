/**
 * The admin finances page: the payment view filter, the CSV export of the
 * shown payments, and the guards in front of marking a payment.
 */
module FinancesPage {
  import opened Wrappers
  import opened Text
  import opened Lists
  import opened PaymentService
  import CardFilter

  datatype ViewMode = NoMode | TotalMode | PendingMode | CompletedMode | FailedMode

  /** The status a mode selects, if it selects one. */
  function ModeStatus(m: ViewMode): Option<PaymentStatus> {
    match m
    case PendingMode => Some(Pending)
    case CompletedMode => Some(Completed)
    case FailedMode => Some(PaymentStatus.Failed)
    case _ => None
  }

  /** The filter effect: one status for the three status cards, every payment otherwise. */
  function FilterPayments(payments: seq<PaymentRequest>, mode: ViewMode): (r: seq<PaymentRequest>)
    ensures ModeStatus(mode).None? ==> r == payments
    ensures ModeStatus(mode).Some? ==>
              (IsSubsequence(r, payments) &&
               (forall i :: 0 <= i < |r| ==> r[i].status == ModeStatus(mode).value) &&
               (forall i :: 0 <= i < |payments| && payments[i].status == ModeStatus(mode).value ==>
                  payments[i] in r))
  {
    match ModeStatus(mode)
    case None => payments
    case Some(status) =>
      var keep := (p: PaymentRequest) => p.status == status;
      FilterIsSubsequence(payments, keep);
      Filter(payments, keep)
  }

  /**
   * A click on the total, pending, completed or failed card: the card of the
   * current mode clears the filter, another card selects its mode.
   */
  function ClickCard(current: ViewMode, clicked: ViewMode): (next: ViewMode)
    ensures next == clicked || next == NoMode
    ensures next == NoMode <==> current == clicked || clicked == NoMode
  {
    CardFilter.ClickCard(current, clicked, NoMode)
  }

  /**
   * A status card clicked from any other mode shows exactly the payments of
   * its status; clicked again, it shows every payment.
   */
  lemma StatusCardShowsItsStatus(payments: seq<PaymentRequest>, current: ViewMode, clicked: ViewMode)
    requires current != clicked && ModeStatus(clicked).Some?
    ensures var shown := FilterPayments(payments, ClickCard(current, clicked));
            forall i :: 0 <= i < |shown| ==> shown[i].status == ModeStatus(clicked).value
    ensures FilterPayments(payments, ClickCard(ClickCard(current, clicked), clicked)) == payments
  {
    CardFilter.ClickTwiceClears(current, clicked, NoMode);
  }

  // ---------------------------------------------------------------------------
  // CSV export
  // ---------------------------------------------------------------------------

  function StatusName(s: PaymentStatus): string {
    match s
    case Pending => "pending"
    case Completed => "completed"
    case Failed => "failed"
  }

  const CsvHeader: seq<string> :=
    ["User Name", "UPI ID", "Phone", "Amount", "Status", "Created At", "Completed At", "Completed By"]

  /**
   * The cells of one payment. `formatTime` stands for
   * `toDate().toLocaleString()`; a missing or empty `completedBy` is `-`.
   */
  function CsvRow(p: PaymentRequest, formatTime: int -> string): (row: seq<string>)
    ensures |row| == |CsvHeader|
    ensures row[0] == p.userName && row[1] == p.userUpi && row[2] == p.userPhone
    ensures row[3] == "\U{20B9}" + IntToString(p.amount) && row[4] == StatusName(p.status)
    ensures row[5] == formatTime(p.createdAt)
    ensures p.completedAt.None? ==> row[6] == "-"
    ensures p.completedAt.Some? ==> row[6] == formatTime(p.completedAt.value)
    ensures (p.completedBy.None? || p.completedBy == Some("")) ==> row[7] == "-"
    ensures p.completedBy.Some? && p.completedBy.value != "" ==> row[7] == p.completedBy.value
  {
    [p.userName, p.userUpi, p.userPhone, "\U{20B9}" + IntToString(p.amount), StatusName(p.status),
     formatTime(p.createdAt),
     if p.completedAt.Some? then formatTime(p.completedAt.value) else "-",
     if p.completedBy.Some? && p.completedBy.value != "" then p.completedBy.value else "-"]
  }

  /** The header row, then one row per payment shown. */
  function CsvRows(shown: seq<PaymentRequest>, formatTime: int -> string): (rows: seq<seq<string>>)
    ensures |rows| == |shown| + 1 && rows[0] == CsvHeader
    ensures forall i :: 0 <= i < |shown| ==> rows[i + 1] == CsvRow(shown[i], formatTime)
  {
    [CsvHeader] + seq(|shown|, i requires 0 <= i < |shown| => CsvRow(shown[i], formatTime))
  }

  function JoinRows(rows: seq<seq<string>>): string
  {
    Join(seq(|rows|, i requires 0 <= i < |rows| => Join(rows[i], ',')), '\n')
  }

  /** `exportToCSV`: cells joined by `,`, rows by a newline, nothing quoted. */
  function ExportToCsv(shown: seq<PaymentRequest>, formatTime: int -> string): string {
    JoinRows(CsvRows(shown, formatTime))
  }

  /** No cell of the export contains a comma or a newline. */
  predicate PlainCells(rows: seq<seq<string>>) {
    forall i, j :: 0 <= i < |rows| && 0 <= j < |rows[i]| ==> ',' !in rows[i][j] && '\n' !in rows[i][j]
  }

  /**
   * When no cell holds a comma or a newline, the file reads back as the
   * header and one eight-cell line per payment shown.
   */
  lemma CsvReadsBack(rows: seq<seq<string>>)
    requires |rows| > 0 && forall i :: 0 <= i < |rows| ==> |rows[i]| > 0
    requires PlainCells(rows)
    ensures var lines := Split(JoinRows(rows), '\n');
            |lines| == |rows| && forall i :: 0 <= i < |rows| ==> Split(lines[i], ',') == rows[i]
  {
    var lines := seq(|rows|, i requires 0 <= i < |rows| => Join(rows[i], ','));
    forall i | 0 <= i < |rows|
      ensures '\n' !in lines[i]
    {
      JoinAvoids(rows[i], ',', '\n');
    }
    SplitJoin(lines, '\n');
    forall i | 0 <= i < |rows|
      ensures Split(lines[i], ',') == rows[i]
    {
      SplitJoin(rows[i], ',');
    }
  }

  lemma ExportReadsBack(shown: seq<PaymentRequest>, formatTime: int -> string)
    requires PlainCells(CsvRows(shown, formatTime))
    ensures var lines := Split(ExportToCsv(shown, formatTime), '\n');
            |lines| == |shown| + 1 &&
            Split(lines[0], ',') == CsvHeader &&
            forall i :: 0 <= i < |shown| ==> Split(lines[i + 1], ',') == CsvRow(shown[i], formatTime)
  {
    CsvReadsBack(CsvRows(shown, formatTime));
  }

  /** A comma in a name is not quoted: that line reads back with nine cells. */
  lemma CommaInNameAddsACell(p: PaymentRequest, formatTime: int -> string)
    requires p.userName == "Doe, Jo"
    requires forall j :: 0 <= j < 8 && j != 0 ==> ',' !in CsvRow(p, formatTime)[j]
    ensures |Split(Join(CsvRow(p, formatTime), ','), ',')| == 9
  {
    var row := CsvRow(p, formatTime);
    var cells := ["Doe", " Jo"] + row[1..];
    assert Join(row, ',') == Join(cells, ',') by {
      assert row == [row[0]] + row[1..];
      assert Join(row, ',') == row[0] + [','] + Join(row[1..], ',');
      assert Join(cells, ',') == "Doe" + [','] + Join(cells[1..], ',');
      assert cells[1..] == [" Jo"] + row[1..];
      assert Join(cells[1..], ',') == " Jo" + [','] + Join(row[1..], ',');
    }
    SplitJoin(cells, ',');
  }

  // ---------------------------------------------------------------------------
  // Marking
  // ---------------------------------------------------------------------------

  datatype MarkOutcome = NoSession | Cancelled | Marked | MarkError(message: string)

  /**
   * `handleMarkCompleted`: without an admin email, or without confirmation,
   * nothing is written. `sessionEmail` is `session?.email`, `None` when falsy;
   * `failure` is passed on to `markPaymentCompleted`, and any error it
   * throws is reported with the page's own message.
   */
  method HandleMarkCompleted(store: PaymentStore, paymentId: string, sessionEmail: Option<string>,
                             confirmed: bool, now: int, failure: Option<string>)
    returns (outcome: MarkOutcome)
    modifies store
    ensures sessionEmail.None? ==> outcome == NoSession && store.docs == old(store.docs)
    ensures sessionEmail.Some? && !confirmed ==> outcome == Cancelled && store.docs == old(store.docs)
    ensures sessionEmail.Some? && confirmed ==>
              (outcome == Marked <==> HasId(old(store.docs), paymentId) && failure.None?) &&
              (outcome == Marked ==>
                 store.docs == UpdateWhere(old(store.docs), paymentId,
                                           p => Completion(p, sessionEmail.value, None, now))) &&
              (outcome != Marked ==>
                 outcome == MarkError("Failed to mark payment as completed") && store.docs == old(store.docs))
  {
    if sessionEmail.None? {
      return NoSession;
    }
    if !confirmed {
      return Cancelled;
    }
    var r := store.MarkPaymentCompleted(paymentId, sessionEmail.value, None, now, failure);
    outcome := if r.Ok? then Marked else MarkError("Failed to mark payment as completed");
  }

  /**
   * `handleMarkFailed`: `reason` is what the prompt answers, `None` when it is
   * cancelled; an empty reason also aborts. `failure` as for `HandleMarkCompleted`.
   */
  method HandleMarkFailed(store: PaymentStore, paymentId: string, sessionEmail: Option<string>,
                          reason: Option<string>, now: int, failure: Option<string>)
    returns (outcome: MarkOutcome)
    modifies store
    ensures sessionEmail.None? ==> outcome == NoSession && store.docs == old(store.docs)
    ensures sessionEmail.Some? && (reason.None? || reason == Some("")) ==>
              outcome == Cancelled && store.docs == old(store.docs)
    ensures sessionEmail.Some? && reason.Some? && reason.value != "" ==>
              (outcome == Marked <==> HasId(old(store.docs), paymentId) && failure.None?) &&
              (outcome == Marked ==>
                 store.docs == UpdateWhere(old(store.docs), paymentId,
                                           p => Failure(p, sessionEmail.value, reason.value, now))) &&
              (outcome != Marked ==>
                 outcome == MarkError("Failed to mark payment as failed") && store.docs == old(store.docs))
  {
    if sessionEmail.None? {
      return NoSession;
    }
    if reason.None? || reason.value == "" {
      return Cancelled;
    }
    var r := store.MarkPaymentFailed(paymentId, sessionEmail.value, reason.value, now, failure);
    outcome := if r.Ok? then Marked else MarkError("Failed to mark payment as failed");
  }
}
