/**
 * Approving a user contribution: its status becomes `verified`, and the
 * global count of submissions awaiting review drops by one when the
 * contribution was awaiting review. Approving a verified contribution does
 * nothing, so approving twice is approving once.
 */
module ApproveContribution {
  import opened Wrappers

  /** The `status` of a contribution document; `None` when the field is missing. */
  type Status = Option<string>

  /** The contribution documents (by id) and `globals/stats.pendingSubmissions`, a missing field being 0. */
  datatype Contributions = Contributions(statuses: map<string, Status>, pendingSubmissions: int)

  datatype Outcome = Outcome(success: bool, message: string)

  const Approved: Outcome := Outcome(true, "Contribution approved successfully!")
  const NoDatabase: Outcome := Outcome(false, "Database connection not available.")
  const NotFound: Outcome := Outcome(false, "Failed to approve contribution: Contribution document not found.")

  /** The writes of the transaction for contribution `id`, which exists. */
  function Approve(c: Contributions, id: string): (r: Contributions)
    requires id in c.statuses
    ensures r.statuses == c.statuses[id := Some("verified")]
    ensures c.statuses[id] == Some("under-verification") ==> r.pendingSubmissions == c.pendingSubmissions - 1
    ensures c.statuses[id] != Some("under-verification") ==> r.pendingSubmissions == c.pendingSubmissions
  {
    var prior := c.statuses[id];
    if prior == Some("verified") then c
    else
      var counter := if prior == Some("under-verification") then c.pendingSubmissions - 1
                     else c.pendingSubmissions;
      Contributions(c.statuses[id := Some("verified")], counter)
  }

  /** A second approval changes nothing. */
  lemma ApproveIdempotent(c: Contributions, id: string)
    requires id in c.statuses
    ensures Approve(Approve(c, id), id) == Approve(c, id)
  {
  }

  /** Approval touches no other contribution. */
  lemma ApproveTouchesOnlyItsDocument(c: Contributions, id: string, other: string)
    requires id in c.statuses && other in c.statuses && other != id
    ensures Approve(c, id).statuses[other] == c.statuses[other]
  {
  }

  /** The Firestore documents the flow reads and writes. */
  class ContributionStore {
    var state: Contributions

    constructor(initial: Contributions)
      ensures state == initial
    {
      state := initial;
    }

    /**
     * `approveContributionFlow`. `dbAvailable` is whether the database handle
     * exists. A missing document aborts the transaction: nothing is written.
     * `failure` is the error the transaction throws on an existing document,
     * which also writes nothing.
     */
    method ApproveContribution(contributionId: string, dbAvailable: bool, failure: Option<string>)
      returns (out: Outcome)
      modifies this
      ensures !dbAvailable ==> out == NoDatabase && state == old(state)
      ensures dbAvailable && contributionId !in old(state).statuses ==> out == NotFound && state == old(state)
      ensures dbAvailable && contributionId in old(state).statuses && failure.Some? ==>
                out == Outcome(false, "Failed to approve contribution: " + failure.value) && state == old(state)
      ensures dbAvailable && contributionId in old(state).statuses && failure.None? ==>
                out == Approved && state == Approve(old(state), contributionId)
      ensures out.success <==> dbAvailable && contributionId in old(state).statuses && failure.None?
    {
      if !dbAvailable {
        return NoDatabase;
      }
      if contributionId !in state.statuses {
        return NotFound;
      }
      if failure.Some? {
        return Outcome(false, "Failed to approve contribution: " + failure.value);
      }
      var prior := state.statuses[contributionId];
      if prior == Some("verified") {
        return Approved;
      }
      state := state.(statuses := state.statuses[contributionId := Some("verified")]);
      if prior == Some("under-verification") {
        state := state.(pendingSubmissions := state.pendingSubmissions - 1);
      }
      out := Approved;
    }
  }
}
