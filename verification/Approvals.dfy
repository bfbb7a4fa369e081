/** The approval nodes as they run: poll for the decision, write the row's status, assemble the update. */
module Approvals {
  import opened Wrappers
  import opened DeliveryState
  import opened DeliveryGraph
  import opened RunRows
  import RunStatus

  type Reading = Option<ApprovalStatus>

  predicate Decided(r: Reading) {
    r.Some? && r.value != REQUESTED
  }

  /** The decision taken from a series of readings: the first one that is there and not REQUESTED. */
  ghost predicate IsDecision(readings: seq<Reading>, d: Option<Decision>) {
    match d
    case Some(decision) =>
      exists i :: 0 <= i < |readings| && readings[i] == Some(decision)
                  && forall j :: 0 <= j < i ==> !Decided(readings[j])
    case None => forall i :: 0 <= i < |readings| ==> !Decided(readings[i])
  }

  lemma DecisionIsUnique(readings: seq<Reading>, d: Option<Decision>, e: Option<Decision>)
    requires IsDecision(readings, d) && IsDecision(readings, e)
    ensures d == e
  {
    if d.Some? && e.Some? {
      var i :| 0 <= i < |readings| && readings[i] == Some(d.value) && forall j :: 0 <= j < i ==> !Decided(readings[j]);
      var k :| 0 <= k < |readings| && readings[k] == Some(e.value) && forall j :: 0 <= j < k ==> !Decided(readings[j]);
      assert Decided(readings[i]) && Decided(readings[k]);
      assert i == k;
    }
  }

  /** `_wait_for_approval`; None means that it is still waiting after these readings. */
  method WaitForApproval(readings: seq<Reading>) returns (d: Option<Decision>)
    ensures IsDecision(readings, d)
  {
    var i := 0;
    while i < |readings|
      invariant 0 <= i <= |readings|
      invariant forall j :: 0 <= j < i ==> !Decided(readings[j])
    {
      var reading := readings[i];
      if reading.Some? && reading.value != REQUESTED {
        var decision: Decision := reading.value;
        return Some(decision);
      }
      i := i + 1;
    }
    return None;
  }

  /** The run waits for the human, and runs again once there is a decision. */
  method RequestAndWait(row: RunRow, readings: seq<Reading>) returns (d: Option<Decision>)
    modifies row
    ensures IsDecision(readings, d)
    ensures row.log == old(row.log) + [RunStatus.WAITING_HUMAN] + if d.Some? then [RunStatus.RUNNING] else []
    ensures row.status == if d.Some? then RunStatus.RUNNING else RunStatus.WAITING_HUMAN
  {
    row.Update(RunStatus.WAITING_HUMAN);
    d := WaitForApproval(readings);
    if d.Some? {
      row.Update(RunStatus.RUNNING);
    }
  }

  /** The update of a node of the graph, once the decision is there. */
  function UpdateOf(n: Node, s: State, d: Option<Decision>, rationale: string): Option<Update> {
    match d
    case Some(decision) => Some(Execute(n, s, Input([], decision, rationale)))
    case None => None
  }

  method IntakeClarificationNode(row: RunRow, s: State, readings: seq<Reading>, rationale: string)
    returns (ghost d: Option<Decision>, update: Option<Update>)
    modifies row
    ensures IsDecision(readings, d) && update == UpdateOf(IntakeClarification, s, d, rationale)
    ensures row.log == old(row.log) + [RunStatus.WAITING_HUMAN] + if d.Some? then [RunStatus.RUNNING] else []
  {
    row.Update(RunStatus.WAITING_HUMAN);
    var decision := WaitForApproval(readings);
    d := decision;
    if decision == None {
      return d, None;
    }
    row.Update(RunStatus.RUNNING);
    var u := NO_UPDATE.(cycles := map[IntakeGate := Count(s, IntakeGate) + 1]);
    if decision.value == REJECTED {
      u := u.(humanReviewRequired := Some(true));
    } else if rationale != "" {
      u := u.(clarificationNotes := [rationale]);
    }
    update := Some(u);
  }

  method ScopeApprovalNode(row: RunRow, s: State, readings: seq<Reading>)
    returns (ghost d: Option<Decision>, update: Option<Update>)
    modifies row
    ensures IsDecision(readings, d) && update == UpdateOf(ScopeApproval, s, d, "")
    ensures row.log == old(row.log) + [RunStatus.WAITING_HUMAN] + if d.Some? then [RunStatus.RUNNING] else []
  {
    var decision := RequestAndWait(row, readings);
    d := decision;
    if decision == None {
      return d, None;
    }
    update := Some(NO_UPDATE.(scopeApproved := Some(decision.value == APPROVED)));
  }

  method ReleaseApprovalNode(row: RunRow, s: State, readings: seq<Reading>)
    returns (ghost d: Option<Decision>, update: Option<Update>)
    modifies row
    ensures IsDecision(readings, d) && update == UpdateOf(ReleaseApproval, s, d, "")
    ensures row.log == old(row.log) + [RunStatus.WAITING_HUMAN] + if d.Some? then [RunStatus.RUNNING] else []
  {
    var decision := RequestAndWait(row, readings);
    d := decision;
    if decision == None {
      return d, None;
    }
    update := Some(NO_UPDATE.(releaseApproved := Some(decision.value == APPROVED)));
  }

  method HumanReviewNode(row: RunRow, s: State, readings: seq<Reading>)
    returns (ghost d: Option<Decision>, update: Option<Update>)
    modifies row
    ensures IsDecision(readings, d) && update == UpdateOf(HumanReview, s, d, "")
    ensures row.log == old(row.log) + [RunStatus.WAITING_HUMAN] + if d.Some? then [RunStatus.RUNNING] else []
  {
    var decision := RequestAndWait(row, readings);
    d := decision;
    if decision == None {
      return d, None;
    }
    var u := NO_UPDATE.(humanReviewRequired := Some(decision.value != APPROVED));
    if decision.value == APPROVED {
      u := u.(cycles := map gate | gate in ALL_GATES :: 0);
    }
    update := Some(u);
  }
}
