/** How a task's result travels from the worker that executes it to the stage that dispatched it. */
module Dispatch {
  import opened Wrappers
  import opened Agents

  datatype TaskStatus = READY | IN_PROGRESS | DONE | BLOCKED | FAILED | CANCELLED

  /** The status a worker writes for a result. */
  function FinalStatus(status: Status): TaskStatus {
    match status
    case Approved => DONE
    case ChangesRequested => DONE
    case Blocked => TaskStatus.BLOCKED
    case Failed => FAILED
  }

  function FailedResult(agentId: string, summary: string): AgentResult {
    AgentResult(agentId, Failed, summary, [], [], [])
  }

  // ---- the worker's side ----

  datatype Write = SetStatus(status: TaskStatus) | SetResult(result: AgentResult)

  /** A task's row and its place in the result store, with the order in which they were written. */
  class TaskRecord {
    var status: TaskStatus
    var result: Option<AgentResult>
    ghost var writes: seq<Write>

    constructor ()
      ensures status == READY && result == None && writes == []
    {
      status, result := READY, None;
      writes := [];
    }

    method UpdateStatus(status: TaskStatus)
      modifies this
      ensures this.status == status && result == old(result) && writes == old(writes) + [SetStatus(status)]
    {
      this.status := status;
      writes := writes + [SetStatus(status)];
    }

    method StoreResult(result: AgentResult)
      modifies this
      ensures status == old(status) && this.result == Some(result) && writes == old(writes) + [SetResult(result)]
    {
      this.result := Some(result);
      writes := writes + [SetResult(result)];
    }
  }

  /** The result of an execution: the agent's answer, or a failure if the agent is unknown or disabled. */
  function ExecutionResult(agentId: string, enabled: Option<bool>, answer: AgentResult): AgentResult {
    if enabled == Some(true) then answer
    else FailedResult(agentId, "agent not found or disabled")
  }

  /**
   `_execute`: `survives` is the number of writes before an exception (3 or more: none). The result is
   stored only after the final status, and an interrupted execution has performed a prefix of the writes.
   */
  method Execute(task: TaskRecord, agentId: string, enabled: Option<bool>, answer: AgentResult, survives: nat)
    returns (raised: bool)
    modifies task
    ensures raised <==> survives < 3
    ensures
      var r := ExecutionResult(agentId, enabled, answer);
      var all := [SetStatus(IN_PROGRESS), SetStatus(FinalStatus(r.status)), SetResult(r)];
      task.writes == old(task.writes) + if raised then all[..survives] else all
    // an agent that is found and enabled answers for itself, any other failed
    ensures !raised ==>
              && task.result.Some?
              && (enabled == Some(true) ==> task.result.value == answer)
              && (enabled != Some(true) ==>
                    var r := task.result.value;
                    r.agentId == agentId && r.status == Failed && r.findings == [] && r.codeFiles == [])
    // the status fits the result
    ensures !raised ==>
              var r := task.result.value.status;
              && (task.status == DONE <==> r == Approved || r == ChangesRequested)
              && (task.status == TaskStatus.BLOCKED <==> r == Blocked)
              && (task.status == FAILED <==> r == Status.Failed)
    ensures raised ==> task.result == old(task.result)
    ensures survives == 0 ==> task.status == old(task.status)
    ensures survives == 1 ==> task.status == IN_PROGRESS
  {
    if survives == 0 {
      return true;
    }
    task.UpdateStatus(IN_PROGRESS);
    var result := ExecutionResult(agentId, enabled, answer);
    if survives == 1 {
      return true;
    }
    task.UpdateStatus(FinalStatus(result.status));
    if survives == 2 {
      return true;
    }
    task.StoreResult(result);
    return false;
  }

  // ---- the dispatcher's side ----

  /** One pass of the polling loop: the result it read, and the status it read if there was no result. */
  datatype Poll = Poll(result: Option<AgentResult>, status: Option<TaskStatus>)

  predicate Conclusive(p: Poll) {
    p.result.Some? || p.status == Some(FAILED) || p.status == Some(CANCELLED)
  }

  function Answer(agentId: string, p: Poll): AgentResult
    requires Conclusive(p)
  {
    match p.result
    case Some(r) => r
    case None => FailedResult(agentId, "task ended without a result")
  }

  function TimedOut(agentId: string): AgentResult {
    FailedResult(agentId, "timeout waiting for the worker")
  }

  /** The first conclusive poll decides; if none came before the deadline, the agent counts as failed. */
  ghost predicate IsOutcome(agentId: string, polls: seq<Poll>, r: AgentResult) {
    || (exists i :: 0 <= i < |polls| && Conclusive(polls[i]) && r == Answer(agentId, polls[i])
                    && forall j :: 0 <= j < i ==> !Conclusive(polls[j]))
    || (r == TimedOut(agentId) && forall i :: 0 <= i < |polls| ==> !Conclusive(polls[i]))
  }

  /** `dispatch_agent` after publishing: `polls` are the passes that begin before the deadline. */
  method DispatchAgent(agentId: string, polls: seq<Poll>) returns (r: AgentResult)
    ensures IsOutcome(agentId, polls, r)
    // the first pass that reads a result returns it, unless a pass before it read that the task failed or was cancelled
    ensures forall i :: 0 <= i < |polls| && polls[i].result.Some?
                        && (forall j :: 0 <= j < i ==> polls[j].result.None?
                                                       && polls[j].status != Some(FAILED)
                                                       && polls[j].status != Some(CANCELLED))
                        ==> r == polls[i].result.value
    // else the agent counts as failed
    ensures forall i :: 0 <= i < |polls| && polls[i].result.None?
                        && (polls[i].status == Some(FAILED) || polls[i].status == Some(CANCELLED))
                        && (forall j :: 0 <= j < i ==> polls[j].result.None?)
                        ==> r.status == Status.Failed && r.agentId == agentId
    ensures (forall i :: 0 <= i < |polls| ==> polls[i].result.None?) ==>
              r.status == Status.Failed && r.agentId == agentId
  {
    var i := 0;
    while i < |polls|
      invariant 0 <= i <= |polls|
      invariant forall j :: 0 <= j < i ==> !Conclusive(polls[j])
    {
      if polls[i].result.Some? {
        return polls[i].result.value;
      }
      if polls[i].status == Some(FAILED) || polls[i].status == Some(CANCELLED) {
        return FailedResult(agentId, "task ended without a result");
      }
      i := i + 1;
    }
    return TimedOut(agentId);
  }

  // ---- both, interleaved ----

  datatype WorkerPhase = Away | Started | Marked(result: AgentResult)

  datatype DispatcherPhase = Polling | Checking | Returned(result: AgentResult)

  /** One task, the attempts at it (one after the other), and its dispatcher; `stored` are all results ever stored. */
  datatype Pair = Pair(
    agentId: string,
    status: TaskStatus,
    result: Option<AgentResult>,
    stored: set<AgentResult>,
    worker: WorkerPhase,
    dispatcher: DispatcherPhase)

  function Dispatched(agentId: string): Pair {
    Pair(agentId, READY, None, {}, Away, Polling)
  }

  /** `Abandon` is an exception or the death of the worker; `CancelTask` a cancellation from outside. */
  datatype Event =
    | Begin
    | Mark(result: AgentResult)
    | Store
    | Abandon
    | CancelTask
    | ReadResult
    | ReadStatus
    | Deadline

  predicate Enabled(p: Pair, e: Event) {
    match e
    case Begin => p.worker.Away?
    case Mark(_) => p.worker.Started?
    case Store => p.worker.Marked?
    case Abandon => !p.worker.Away?
    case CancelTask => true
    case ReadResult => p.dispatcher.Polling?
    case ReadStatus => p.dispatcher.Checking?
    case Deadline => p.dispatcher.Polling?
  }

  function Perform(p: Pair, e: Event): Pair
    requires Enabled(p, e)
  {
    match e
    case Begin => p.(status := IN_PROGRESS, worker := Started)
    case Mark(r) => p.(status := FinalStatus(r.status), worker := Marked(r))
    case Store =>
      p.(result := Some(p.worker.result), stored := p.stored + {p.worker.result}, worker := Away)
    case Abandon => p.(worker := Away)
    case CancelTask => p.(status := CANCELLED)
    case ReadResult => p.(dispatcher := if p.result.Some? then Returned(p.result.value) else Checking)
    case ReadStatus =>
      p.(dispatcher :=
        if p.status == FAILED || p.status == CANCELLED
        then Returned(FailedResult(p.agentId, "task ended without a result"))
        else Polling)
    case Deadline => p.(dispatcher := Returned(TimedOut(p.agentId)))
  }

  ghost predicate IsRun(agentId: string, ps: seq<Pair>, es: seq<Event>) {
    && |ps| == |es| + 1 && ps[0] == Dispatched(agentId)
    && forall i :: 0 <= i < |es| ==> Enabled(ps[i], es[i]) && ps[i + 1] == Perform(ps[i], es[i])
  }

  /** The passes of the polling loop that the interleaving contains. */
  function Polls(ps: seq<Pair>, es: seq<Event>, k: nat): seq<Poll>
    requires k <= |es| <= |ps|
  {
    if k == 0 then []
    else
      var before := Polls(ps, es, k - 1);
      match es[k - 1]
      case ReadResult => if ps[k - 1].result.Some? then before + [Poll(ps[k - 1].result, None)] else before
      case ReadStatus => before + [Poll(None, Some(ps[k - 1].status))]
      case _ => before
  }

  /** The dispatcher of the interleaving is the polling loop over what it happened to read. */
  lemma {:induction false} DispatcherIsTheLoop(agentId: string, ps: seq<Pair>, es: seq<Event>, k: nat)
    requires IsRun(agentId, ps, es) && k <= |es|
    ensures ps[k].agentId == agentId
    ensures !ps[k].dispatcher.Returned? ==> forall p :: p in Polls(ps, es, k) ==> !Conclusive(p)
    ensures ps[k].dispatcher.Returned? ==> IsOutcome(agentId, Polls(ps, es, k), ps[k].dispatcher.result)
  {
    if k > 0 {
      DispatcherIsTheLoop(agentId, ps, es, k - 1);
      var before, after := Polls(ps, es, k - 1), Polls(ps, es, k);
      if ps[k].dispatcher.Returned? && !ps[k - 1].dispatcher.Returned? {
        assert forall i :: 0 <= i < |before| ==> !Conclusive(before[i]);
        if es[k - 1].Deadline? {
          assert after == before;
        } else {
          var last := |before|;
          assert Conclusive(after[last]) && ps[k].dispatcher.result == Answer(agentId, after[last]);
          assert forall j :: 0 <= j < last ==> after[j] == before[j];
        }
      }
    }
  }

  /**
   A dispatcher that has not returned does so exactly when it reads a result, reads that the task failed or was
   cancelled, or meets its deadline; in the last two cases with a failure. What it returned it never changes.
   */
  lemma ReturnsExactlyWhen(agentId: string, ps: seq<Pair>, es: seq<Event>, k: nat)
    requires IsRun(agentId, ps, es) && k < |es|
    ensures ps[k].dispatcher.Returned? ==> ps[k + 1].dispatcher == ps[k].dispatcher
    ensures !ps[k].dispatcher.Returned? ==>
              var failed := es[k].Deadline? || (es[k].ReadStatus? && ps[k].status in {FAILED, TaskStatus.CANCELLED});
              && (ps[k + 1].dispatcher.Returned? <==> failed || (es[k].ReadResult? && ps[k].result.Some?))
              && (es[k].ReadResult? && ps[k].result.Some? ==> Some(ps[k + 1].dispatcher.result) == ps[k].result)
              && (failed ==> ps[k + 1].dispatcher.result.status == Status.Failed
                             && ps[k + 1].dispatcher.result.agentId == agentId)
  {
    DispatcherIsTheLoop(agentId, ps, es, k);
  }

  /** What a dispatcher returns is a failure, or a result that a worker stored for this very task. */
  lemma {:induction false} NothingIsInvented(agentId: string, ps: seq<Pair>, es: seq<Event>, k: nat)
    requires IsRun(agentId, ps, es) && k <= |es|
    ensures ps[k].result.Some? ==> ps[k].result.value in ps[k].stored
    ensures ps[k].dispatcher.Returned? ==>
              ps[k].dispatcher.result.status == Failed || ps[k].dispatcher.result in ps[k].stored
  {
    if k > 0 {
      NothingIsInvented(agentId, ps, es, k - 1);
    }
  }

  /**
   The early exit on the status loses nothing but failures: without timeout, cancellation and failed attempts,
   whatever the timing of the two writes and the two readings, a returned result is one that was stored.
   */
  lemma {:induction false} OnlyFailuresEndWithoutResult(agentId: string, ps: seq<Pair>, es: seq<Event>, k: nat)
    requires IsRun(agentId, ps, es) && k <= |es|
    requires forall i :: 0 <= i < k ==> es[i] != CancelTask && es[i] != Deadline
    requires forall i :: 0 <= i < k && es[i].Mark? ==> es[i].result.status != Failed
    ensures ps[k].status != FAILED && ps[k].status != CANCELLED
    ensures ps[k].dispatcher.Returned? ==> ps[k].dispatcher.result in ps[k].stored
  {
    if k > 0 {
      OnlyFailuresEndWithoutResult(agentId, ps, es, k - 1);
      NothingIsInvented(agentId, ps, es, k - 1);
    }
  }

  /** The answers of a worker that were stored were first reported in the task's status. */
  lemma {:induction false} StoredAfterMarked(agentId: string, ps: seq<Pair>, es: seq<Event>, k: nat, r: AgentResult)
    requires IsRun(agentId, ps, es) && k <= |es| && (r in ps[k].stored || ps[k].worker == Marked(r))
    ensures exists i :: 0 <= i < k && es[i] == Mark(r) && ps[i + 1].status == FinalStatus(r.status)
  {
    if k > 0 {
      if r in ps[k - 1].stored || ps[k - 1].worker == Marked(r) {
        StoredAfterMarked(agentId, ps, es, k - 1, r);
      } else {
        assert es[k - 1] == Mark(r);
      }
    }
  }

  // ---- what the row of a task tells ----

  predicate WritesStatus(e: Event) {
    e.Begin? || e.Mark? || e.CancelTask?
  }

  /**
   The status of a task is that of its last write, under every interleaving: approved or with changes requested it is
   done, blocked it is blocked, failed it is failed.
   */
  lemma {:induction false} StatusIsTheLastWrite(agentId: string, ps: seq<Pair>, es: seq<Event>, k: nat, s: nat)
    requires IsRun(agentId, ps, es) && s < k <= |es| && WritesStatus(es[s])
    requires forall i :: s < i < k ==> !WritesStatus(es[i])
    ensures es[s].Begin? ==> ps[k].status == IN_PROGRESS
    ensures es[s].CancelTask? ==> ps[k].status == CANCELLED
    ensures es[s].Mark? ==>
              var r := es[s].result.status;
              && (ps[k].status == DONE <==> r == Approved || r == ChangesRequested)
              && (ps[k].status == TaskStatus.BLOCKED <==> r == Blocked)
              && (ps[k].status == FAILED <==> r == Status.Failed)
  {
    if s < k - 1 {
      StatusIsTheLastWrite(agentId, ps, es, k - 1, s);
    }
  }

  /** A task nobody has begun or cancelled is ready. */
  lemma {:induction false} ReadyUntilWritten(agentId: string, ps: seq<Pair>, es: seq<Event>, k: nat)
    requires IsRun(agentId, ps, es) && k <= |es| && forall i :: 0 <= i < k ==> !WritesStatus(es[i])
    ensures ps[k].status == READY
  {
    if k > 0 {
      ReadyUntilWritten(agentId, ps, es, k - 1);
    }
  }

  lemma {:induction false} MarkedIsTheLastMark(agentId: string, ps: seq<Pair>, es: seq<Event>, k: nat) returns (s: nat)
    requires IsRun(agentId, ps, es) && k <= |es| && ps[k].worker.Marked?
    requires forall i :: 0 <= i < k ==> !es[i].CancelTask?
    ensures s < k && es[s] == Mark(ps[k].worker.result) && forall i :: s < i < k ==> !WritesStatus(es[i])
  {
    if es[k - 1].Mark? {
      s := k - 1;
    } else {
      s := MarkedIsTheLastMark(agentId, ps, es, k - 1);
    }
  }

  lemma {:induction false} StoredStays(agentId: string, ps: seq<Pair>, es: seq<Event>, k: nat, s: nat)
    requires IsRun(agentId, ps, es) && s < k <= |es| && es[s].Store? && forall i :: s < i < k ==> !es[i].Begin?
    ensures ps[s].worker.Marked? && ps[k].worker.Away? && ps[k].result == Some(ps[s].worker.result)
    ensures forall i :: s < i < k ==> !es[i].Mark?
  {
    if s < k - 1 {
      StoredStays(agentId, ps, es, k - 1, s);
    }
  }

  /** So in a task that is not cancelled, while no further attempt has begun, row and stored result agree. */
  lemma StoredResultIsAnnounced(agentId: string, ps: seq<Pair>, es: seq<Event>, k: nat, s: nat)
    requires IsRun(agentId, ps, es) && s < k <= |es| && es[s].Store?
    requires forall i :: s < i < k ==> !es[i].Begin?
    requires forall i :: 0 <= i < k ==> !es[i].CancelTask?
    ensures ps[k].result.Some?
    ensures var r := ps[k].result.value.status;
            && (ps[k].status == DONE <==> r == Approved || r == ChangesRequested)
            && (ps[k].status == TaskStatus.BLOCKED <==> r == Blocked)
            && (ps[k].status == FAILED <==> r == Status.Failed)
  {
    hide Perform, Enabled;
    StoredStays(agentId, ps, es, k, s);
    var m := MarkedIsTheLastMark(agentId, ps, es, s);
    StatusIsTheLastWrite(agentId, ps, es, k, m);
  }

  /** The interleaving of one task, at whose end its dispatcher has returned this result. */
  datatype Run = Run(agentId: string, ps: seq<Pair>, es: seq<Event>) {

    ghost predicate Returns(r: AgentResult) {
      IsRun(agentId, ps, es) && ps[|es|].dispatcher == Returned(r)
    }

    function Stored(): set<AgentResult> {
      if |ps| > |es| then ps[|es|].stored else {}
    }
  }

  /** A stage that dispatched agents is approved only if each of them stored an approval without a critical finding. */
  lemma ApprovalsAreReal(results: seq<AgentResult>, runs: seq<Run>)
    requires |results| == |runs| && StageStatus(results) == Approved
    requires forall i :: 0 <= i < |results| ==> runs[i].Returns(results[i])
    ensures forall i :: 0 <= i < |results| ==>
                          && results[i] in runs[i].Stored()
                          && results[i].status == Approved
                          && forall f :: f in results[i].findings ==> f.severity != Critical
  {
    ApprovedMeansEveryone(results);
    forall i | 0 <= i < |results| ensures results[i] in runs[i].Stored() {
      assert results[i] in results;
      NothingIsInvented(runs[i].agentId, runs[i].ps, runs[i].es, |runs[i].es|);
    }
  }
}
