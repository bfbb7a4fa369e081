/** From the queue to the delivery: what a delivered run rests on. */
module Delivery {
  import opened Wrappers
  import opened Agents
  import opened DeliveryState
  import opened DeliveryGraph
  import opened GateSafety
  import D = Dispatch
  import World

  /** The history of the factory while the run was going on: n workers, the tasks and their agents. */
  datatype Factory = Factory(
    max: nat, n: nat, agents: map<string, string>, ss: seq<World.State>, es: seq<World.Event>)
  {

    ghost predicate Valid() {
      World.IsRun(max, n, agents, ss, es)
    }

    /** At the end of the history the dispatcher of this task has returned this result. */
    ghost predicate Returned(id: string, r: AgentResult)
      requires Valid()
    {
      id in agents && id in ss[|es|].tasks && ss[|es|].tasks[id].pair.dispatcher == D.Returned(r)
    }

    /** The result is the only one ever stored for the task, marked and stored by one execution that held the key. */
    ghost predicate Rests(id: string, r: AgentResult)
      requires Valid()
    {
      && id in ss[|es|].tasks && ss[|es|].tasks[id].pair.stored == {r}
      && World.Worked(ss, es, |es|, id, r)
    }
  }

  /** `ids[i][j]` is the task that gave the i-th execution its j-th result; each result has a task of its own. */
  ghost predicate Dispatched(f: Factory, cs: seq<Config>, ins: seq<Input>, ids: seq<seq<string>>)
    requires f.Valid() && |cs| == |ins| + 1
  {
    && |ids| == |ins|
    && (forall i :: 0 <= i < |ins| && cs[i].node.Work? ==> FromTasks(f, ins[i].results, ids[i]))
    && (forall i, j, k, l | 0 <= i < |ids| && 0 <= j < |ids[i]| && 0 <= k < |ids| && 0 <= l < |ids[k]| ::
          ids[i][j] == ids[k][l] ==> i == k && j == l)
  }

  ghost predicate FromTasks(f: Factory, results: seq<AgentResult>, ids: seq<string>)
    requires f.Valid()
  {
    |ids| == |results| && forall j :: 0 <= j < |results| ==> f.Returned(ids[j], results[j])
  }

  /** Every result approved without a critical finding, and is what its own task's execution stored. */
  ghost predicate Approvals(f: Factory, results: seq<AgentResult>, ids: seq<string>)
    requires f.Valid()
  {
    && |ids| == |results|
    && forall j :: 0 <= j < |results| ==>
                     && results[j].status == Approved
                     && (forall finding :: finding in results[j].findings ==> finding.severity != Critical)
                     && f.Rests(ids[j], results[j])
  }

  lemma ReturnedRests(f: Factory, id: string, r: AgentResult)
    requires f.Valid() && f.Returned(id, r) && r.status != Failed
    ensures f.Rests(id, r)
  {
    hide World.Perform, World.Enabled, World.Worked;
    World.EveryTaskIsSingle(f.max, f.n, f.agents, f.ss, f.es, |f.es|, id);
    World.StoredByHolder(f.max, f.n, f.agents, f.ss, f.es, |f.es|, id, r);
  }

  lemma ApprovedStagesRest(f: Factory, results: seq<AgentResult>, ids: seq<string>)
    requires f.Valid() && FromTasks(f, results, ids) && StageStatus(results) == Approved
    ensures Approvals(f, results, ids)
  {
    hide World.Perform, World.Enabled, World.Worked;
    ApprovedMeansEveryone(results);
    forall j | 0 <= j < |results|
      ensures results[j].status == Approved
      ensures forall finding :: finding in results[j].findings ==> finding.severity != Critical
      ensures f.Rests(ids[j], results[j])
    {
      assert results[j] in results;
      ReturnedRests(f, ids[j], results[j]);
    }
  }

  /**
   In a delivered run every agent gate that no human overrode was passed, in its last round, on approvals of the
   very tasks dispatched for that round: each is the only result ever stored for its task, written by one execution
   that held the key of the task's message.
   */
  lemma DeliveredOnEvidence(
    max: nat, cs: seq<Config>, ins: seq<Input>, f: Factory, ids: seq<seq<string>>, gate: Gate) returns (i: nat)
    requires IsRun(max, cs, ins) && IsStart(max, cs[0]) && f.Valid() && Dispatched(f, cs, ins, ids)
    requires cs[|ins|].node == End && cs[|ins|].state.currentStage == Some(AtDelivered)
    requires gate != ScopeGate && gate != ReleaseGate
    ensures LastAt(cs, |ins|, gate, i)
    ensures Overridden(cs, ins, |ins|, gate, i) || Approvals(f, ins[i].results, ids[i])
  {
    hide Step, FromTasks, Approvals;
    DeliveredPassedEveryGate(max, cs, ins, gate);
    i :| LastAt(cs, |ins|, gate, i) && (Passes(gate, ins[i]) || Overridden(cs, ins, |ins|, gate, i));
    if Passes(gate, ins[i]) {
      assert GateNode(gate).Work?;
      ApprovedStagesRest(f, ins[i].results, ids[i]);
    }
  }
}
