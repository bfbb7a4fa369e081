/**
 One task in the delivery protocol: the message that carries it, its attempts, its row, its result and its
 dispatcher, in one interleaving. The attempts at the task are the executions that the protocol lets happen.
 */
module TaskProtocol {
  import opened Wrappers
  import opened Agents
  import W = WorkerProtocol
  import D = Dispatch

  /** How far the present execution of the task is. */
  datatype Progress = Fresh | Running | Stored

  datatype Joint = Joint(sys: W.Sys, pair: D.Pair, progress: Progress)

  /** `Task` is a write of the executing worker, or a step of the dispatcher; attempts are abandoned by the protocol. */
  datatype Event = Protocol(e: W.Event) | Task(d: D.Event)

  /** A worker is executing the message. */
  ghost predicate Executing(s: W.Sys, id: string) {
    exists w :: 0 <= w < |s.workers| && ExecutedBy(s, w, id)
  }

  predicate ExecutedBy(s: W.Sys, w: nat, id: string) {
    w < |s.workers| && s.workers[w].Executing? && s.workers[w].env.id == id
  }

  /** An execution of the message begins. */
  predicate Starts(s: W.Sys, e: W.Event, id: string) {
    e.Claim? && e.w < |s.workers| && s.workers[e.w].Received? && s.workers[e.w].m.Command?
    && s.workers[e.w].m.env.id == id && id !in s.keys
  }

  /** An execution of the message is broken off. */
  predicate BreaksOff(s: W.Sys, e: W.Event, id: string) {
    (e.Raise? || e.Crash?) && ExecutedBy(s, e.w, id)
  }

  /** The result is stored by the last write of an execution: it finishes only after it, and does not raise after it. */
  ghost predicate Enabled(max: nat, id: string, j: Joint, ev: Event) {
    match ev
    case Protocol(e) =>
      && W.Enabled(max, j.sys, e)
      && (e.Finish? && ExecutedBy(j.sys, e.w, id) ==> j.progress == Stored)
      && (e.Raise? && ExecutedBy(j.sys, e.w, id) ==> j.progress != Stored)
    case Task(d) =>
      && D.Enabled(j.pair, d)
      && (match d
          case Begin => Executing(j.sys, id) && j.progress == Fresh
          case Mark(_) => Executing(j.sys, id) && j.progress == Running
          case Store => Executing(j.sys, id) && j.progress == Running
          case Abandon => false
          case _ => true)
  }

  ghost function Perform(max: nat, id: string, j: Joint, ev: Event): Joint
    requires Enabled(max, id, j, ev)
  {
    match ev
    case Protocol(e) =>
      Joint(W.Perform(max, j.sys, e),
            if BreaksOff(j.sys, e, id) && !j.pair.worker.Away? then D.Perform(j.pair, D.Abandon) else j.pair,
            if Starts(j.sys, e, id) || (BreaksOff(j.sys, e, id) && j.progress == Running) then Fresh else j.progress)
    case Task(d) =>
      j.(pair := D.Perform(j.pair, d),
         progress := if d.Begin? then Running else if d.Store? then Stored else j.progress)
  }

  ghost predicate IsRun(max: nat, n: nat, id: string, agentId: string, js: seq<Joint>, es: seq<Event>) {
    && |js| == |es| + 1 && js[0] == Joint(W.Fresh(n), D.Dispatched(agentId), Fresh)
    && forall i :: 0 <= i < |es| ==> Enabled(max, id, js[i], es[i]) && js[i + 1] == Perform(max, id, js[i], es[i])
  }

  // ---- both halves are runs of their own ----

  lemma {:induction false} ProtocolHalf(
    max: nat, n: nat, id: string, agentId: string, js: seq<Joint>, es: seq<Event>, k: nat)
    returns (ss: seq<W.Sys>, ps: seq<W.Event>)
    requires IsRun(max, n, id, agentId, js, es) && k <= |es|
    ensures W.IsRun(max, n, ss, ps) && ss[|ps|] == js[k].sys
  {
    hide W.Perform, W.Enabled, D.Perform, D.Enabled;
    if k == 0 {
      ss, ps := [W.Fresh(n)], [];
    } else {
      ss, ps := ProtocolHalf(max, n, id, agentId, js, es, k - 1);
      if es[k - 1].Protocol? {
        ss, ps := ss + [js[k].sys], ps + [es[k - 1].e];
      }
    }
  }

  lemma {:induction false} DispatchHalf(
    max: nat, n: nat, id: string, agentId: string, js: seq<Joint>, es: seq<Event>, k: nat)
    returns (ps: seq<D.Pair>, ds: seq<D.Event>)
    requires IsRun(max, n, id, agentId, js, es) && k <= |es|
    ensures D.IsRun(agentId, ps, ds) && ps[|ds|] == js[k].pair
  {
    hide W.Perform, W.Enabled, D.Perform;
    if k == 0 {
      ps, ds := [D.Dispatched(agentId)], [];
    } else {
      ps, ds := DispatchHalf(max, n, id, agentId, js, es, k - 1);
      var j, ev := js[k - 1], es[k - 1];
      if ev.Task? {
        ps, ds := ps + [js[k].pair], ds + [ev.d];
      } else if BreaksOff(j.sys, ev.e, id) && !j.pair.worker.Away? {
        ps, ds := ps + [js[k].pair], ds + [D.Abandon];
      }
    }
  }

  // ---- one attempt at a time, one result ever ----

  ghost predicate NoneFailing(s: W.Sys, id: string) {
    forall w :: 0 <= w < |s.workers| ==> !(s.workers[w].Failing? && s.workers[w].env.id == id)
  }

  ghost predicate Single(j: Joint, id: string) {
    && (j.progress == Running <==> !j.pair.worker.Away?)
    && (j.progress == Running ==> Executing(j.sys, id))
    && (j.progress == Stored <==> j.pair.stored != {})
    && (if j.progress == Stored
        then j.pair.result.Some? && j.pair.stored == {j.pair.result.value} && id in j.sys.keys && NoneFailing(j.sys, id)
        else j.pair.result == None)
    && (j.sys.completed[id] > 0 ==> j.progress == Stored)
  }

  lemma TaskStepIsSingle(max: nat, id: string, j: Joint, d: D.Event)
    requires Enabled(max, id, j, Task(d)) && Single(j, id) && W.Exclusive(j.sys, id)
    ensures Single(Perform(max, id, j, Task(d)), id)
  {
    if d.Store? {
      var w :| 0 <= w < |j.sys.workers| && ExecutedBy(j.sys, w, id);
      ExecutorIsAlone(j.sys, id, w);
    }
  }

  lemma ExecutorIsAlone(s: W.Sys, id: string, w: nat)
    requires W.Exclusive(s, id) && ExecutedBy(s, w, id)
    ensures id in s.keys && s.completed[id] == 0 && NoneFailing(s, id)
  {
    assert s.workers[w].Holds(id);
    forall v | 0 <= v < |s.workers| && v != w ensures !s.workers[v].Holds(id) {
    }
  }

  lemma StillExecutedBy(max: nat, s: W.Sys, e: W.Event, id: string, w: nat)
    requires W.Enabled(max, s, e) && ExecutedBy(s, w, id)
    requires !BreaksOff(s, e, id) && !(e.Finish? && ExecutedBy(s, e.w, id))
    ensures ExecutedBy(W.Perform(max, s, e), w, id)
  {
    W.WorkerFrame(max, s, e, w);
  }

  /** An execution goes on unless it finishes or is broken off. */
  lemma StillExecuting(max: nat, s: W.Sys, e: W.Event, id: string)
    requires W.Enabled(max, s, e) && W.Exclusive(s, id) && Executing(s, id)
    requires !BreaksOff(s, e, id) && !(e.Finish? && ExecutedBy(s, e.w, id))
    ensures Executing(W.Perform(max, s, e), id)
  {
    var w :| 0 <= w < |s.workers| && ExecutedBy(s, w, id);
    StillExecutedBy(max, s, e, id, w);
  }

  /** Nobody comes to fail the message but by an exception of its execution. */
  lemma StillNoneFailing(max: nat, s: W.Sys, e: W.Event, id: string)
    requires W.Enabled(max, s, e) && NoneFailing(s, id) && !(e.Raise? && ExecutedBy(s, e.w, id))
    ensures NoneFailing(W.Perform(max, s, e), id)
  {
    hide W.Perform;
    W.SameWorkers(max, s, e);
    var t := W.Perform(max, s, e);
    forall v | 0 <= v < |t.workers| ensures !(t.workers[v].Failing? && t.workers[v].env.id == id) {
      W.WorkerFrame(max, s, e, v);
      if !e.Publish? && !e.Duplicate? && e.w == v {
        OwnFailing(max, s, e, id);
      }
    }
  }

  lemma OwnFailing(max: nat, s: W.Sys, e: W.Event, id: string)
    requires W.Enabled(max, s, e) && !e.Publish? && !e.Duplicate? && !(e.Raise? && ExecutedBy(s, e.w, id))
    ensures e.w < |s.workers| == |W.Perform(max, s, e).workers|
    ensures !(W.Perform(max, s, e).workers[e.w].Failing? && W.Perform(max, s, e).workers[e.w].env.id == id)
  {
  }

  /** A key that no worker is failing on stays. */
  lemma KeyStays(max: nat, s: W.Sys, e: W.Event, id: string)
    requires W.Enabled(max, s, e) && id in s.keys && NoneFailing(s, id)
    ensures id in W.Perform(max, s, e).keys
  {
  }

  lemma FinishesAre(max: nat, s: W.Sys, e: W.Event, id: string)
    requires W.Enabled(max, s, e)
    ensures e.Finish? ==> (s.workers[e.w].Holds(id) <==> ExecutedBy(s, e.w, id))
  {
  }

  lemma ProtocolStepIsSingle(max: nat, id: string, j: Joint, e: W.Event)
    requires Enabled(max, id, j, Protocol(e)) && Single(j, id) && W.Exclusive(j.sys, id)
    ensures Single(Perform(max, id, j, Protocol(e)), id)
  {
    hide W.Perform, W.Enabled, W.Exclusive;
    W.CompletedFrame(max, j.sys, e, id);
    FinishesAre(max, j.sys, e, id);
    if j.progress == Stored {
      KeyStays(max, j.sys, e, id);
      StillNoneFailing(max, j.sys, e, id);
    } else if j.progress == Running && !BreaksOff(j.sys, e, id) {
      RunningGoesOn(max, id, j, e);
    }
  }

  /** While an execution is running its key is taken, so no other one starts. */
  lemma RunningGoesOn(max: nat, id: string, j: Joint, e: W.Event)
    requires Enabled(max, id, j, Protocol(e)) && j.progress == Running && Executing(j.sys, id) && W.Exclusive(j.sys, id)
    requires !BreaksOff(j.sys, e, id)
    ensures !Starts(j.sys, e, id) && Executing(W.Perform(max, j.sys, e), id)
  {
    hide W.Perform, W.Enabled;
    var w :| 0 <= w < |j.sys.workers| && ExecutedBy(j.sys, w, id);
    assert j.sys.workers[w].Holds(id);
    StillExecuting(max, j.sys, e, id);
  }

  lemma {:induction false} RunIsSingle(
    max: nat, n: nat, id: string, agentId: string, js: seq<Joint>, es: seq<Event>, k: nat)
    requires IsRun(max, n, id, agentId, js, es) && k <= |es|
    ensures Single(js[k], id) && W.Exclusive(js[k].sys, id)
  {
    hide Perform, Enabled, Single, W.Exclusive;
    if k == 0 {
      StartIsSingle(n, id, agentId);
    } else {
      RunIsSingle(max, n, id, agentId, js, es, k - 1);
      match es[k - 1] {
        case Protocol(e) => ProtocolStepIsSingle(max, id, js[k - 1], e);
        case Task(d) => TaskStepIsSingle(max, id, js[k - 1], d);
      }
      var ss, ps := ProtocolHalf(max, n, id, agentId, js, es, k);
      W.MutualExclusion(max, n, ss, ps, |ps|, id);
    }
  }

  lemma StartIsSingle(n: nat, id: string, agentId: string)
    ensures Single(Joint(W.Fresh(n), D.Dispatched(agentId), Fresh), id) && W.Exclusive(W.Fresh(n), id)
  {
    W.FreshIsExclusive(n, id);
  }

  /**
   However often the message is delivered and retried: at most one result is ever stored for the task, a completed
   execution has stored it, and a dispatcher that returns anything but a failure returns that very result.
   */
  lemma OneResult(max: nat, n: nat, id: string, agentId: string, js: seq<Joint>, es: seq<Event>, k: nat)
    requires IsRun(max, n, id, agentId, js, es) && k <= |es|
    ensures |js[k].pair.stored| <= 1
    ensures js[k].sys.completed[id] > 0 ==> |js[k].pair.stored| == 1
    ensures js[k].pair.dispatcher.Returned? && js[k].pair.dispatcher.result.status != Failed ==>
              js[k].pair.stored == {js[k].pair.dispatcher.result}
  {
    hide Perform, Enabled;
    RunIsSingle(max, n, id, agentId, js, es, k);
    var ps, ds := DispatchHalf(max, n, id, agentId, js, es, k);
    D.NothingIsInvented(agentId, ps, ds, |ds|);
  }
}
