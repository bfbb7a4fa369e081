/**
 All tasks of a factory in one interleaving: shared workers and queue, and for each task its row, result and
 dispatcher.
 */
module World {
  import opened Wrappers
  import opened Agents
  import opened TaskProtocol
  import W = WorkerProtocol
  import D = Dispatch

  datatype TaskState = TaskState(pair: D.Pair, progress: Progress)

  /** The tasks by the id of the message that carries them. */
  datatype State = State(sys: W.Sys, tasks: map<string, TaskState>) {

    function View(id: string): Joint
      requires id in tasks
    {
      Joint(sys, tasks[id].pair, tasks[id].progress)
    }
  }

  datatype Event = Shared(e: W.Event) | Own(id: string, d: D.Event)

  ghost predicate Enabled(max: nat, s: State, ev: Event) {
    match ev
    case Shared(e) =>
      W.Enabled(max, s.sys, e) && forall id :: id in s.tasks ==> TaskProtocol.Enabled(max, id, s.View(id), Protocol(e))
    case Own(id, d) => id in s.tasks && TaskProtocol.Enabled(max, id, s.View(id), Task(d))
  }

  function StateOf(j: Joint): TaskState {
    TaskState(j.pair, j.progress)
  }

  ghost function Perform(max: nat, s: State, ev: Event): State
    requires Enabled(max, s, ev)
  {
    match ev
    case Shared(e) =>
      State(W.Perform(max, s.sys, e),
            map id | id in s.tasks :: StateOf(TaskProtocol.Perform(max, id, s.View(id), Protocol(e))))
    case Own(id, d) =>
      s.(tasks := s.tasks[id := StateOf(TaskProtocol.Perform(max, id, s.View(id), Task(d)))])
  }

  /** n workers, and the tasks that will be dispatched to these agents. */
  function Initial(n: nat, agents: map<string, string>): State {
    State(W.Fresh(n), map id | id in agents :: TaskState(D.Dispatched(agents[id]), Fresh))
  }

  ghost predicate IsRun(max: nat, n: nat, agents: map<string, string>, ss: seq<State>, es: seq<Event>) {
    && |ss| == |es| + 1 && ss[0] == Initial(n, agents)
    && forall i :: 0 <= i < |es| ==> Enabled(max, ss[i], es[i]) && ss[i + 1] == Perform(max, ss[i], es[i])
  }

  // ---- each task sees a run of its own ----

  /** The events that concern a task. */
  function Projected(es: seq<Event>, id: string, k: nat): seq<TaskProtocol.Event>
    requires k <= |es|
  {
    if k == 0 then []
    else
      var before := Projected(es, id, k - 1);
      match es[k - 1]
      case Shared(e) => before + [Protocol(e)]
      case Own(other, d) => if other == id then before + [Task(d)] else before
  }

  lemma {:induction false} Projection(
    max: nat, n: nat, agents: map<string, string>, ss: seq<State>, es: seq<Event>, k: nat, id: string)
    returns (js: seq<Joint>)
    requires IsRun(max, n, agents, ss, es) && k <= |es| && id in agents
    ensures id in ss[k].tasks && TaskProtocol.IsRun(max, n, id, agents[id], js, Projected(es, id, k))
    ensures js[|js| - 1] == ss[k].View(id)
  {
    hide TaskProtocol.Perform, TaskProtocol.Enabled, W.Perform, W.Enabled;
    if k == 0 {
      js := [ss[0].View(id)];
    } else {
      js := Projection(max, n, agents, ss, es, k - 1, id);
      ViewSteps(max, ss[k - 1], es[k - 1], id);
      if es[k - 1].Shared? || es[k - 1].id == id {
        js := js + [ss[k].View(id)];
      }
    }
  }

  lemma ViewSteps(max: nat, s: State, ev: Event, id: string)
    requires Enabled(max, s, ev) && id in s.tasks
    ensures id in Perform(max, s, ev).tasks
    ensures match ev
            case Shared(e) =>
              && TaskProtocol.Enabled(max, id, s.View(id), Protocol(e))
              && Perform(max, s, ev).View(id) == TaskProtocol.Perform(max, id, s.View(id), Protocol(e))
            case Own(other, d) =>
              && (other == id ==> TaskProtocol.Enabled(max, id, s.View(id), Task(d)))
              && Perform(max, s, ev).View(id) ==
                 if other == id then TaskProtocol.Perform(max, id, s.View(id), Task(d)) else s.View(id)
  {
    hide W.Perform, W.Enabled, D.Perform, D.Enabled;
  }

  /** So in the whole factory each task has one attempt at a time and at most one result. */
  lemma EveryTaskIsSingle(
    max: nat, n: nat, agents: map<string, string>, ss: seq<State>, es: seq<Event>, k: nat, id: string)
    requires IsRun(max, n, agents, ss, es) && k <= |es| && id in agents
    ensures id in ss[k].tasks && Single(ss[k].View(id), id) && W.Exclusive(ss[k].sys, id)
    ensures var pair := ss[k].tasks[id].pair;
            && |pair.stored| <= 1
            && (pair.dispatcher.Returned? && pair.dispatcher.result.status != Failed ==>
                  pair.stored == {pair.dispatcher.result})
  {
    hide TaskProtocol.Perform, TaskProtocol.Enabled, Perform, Enabled, Single, W.Exclusive;
    var js := Projection(max, n, agents, ss, es, k, id);
    RunIsSingle(max, n, id, agents[id], js, Projected(es, id, k), |Projected(es, id, k)|);
    OneResult(max, n, id, agents[id], js, Projected(es, id, k), |Projected(es, id, k)|);
  }

  // ---- a stored result is the work of one execution that held the key ----

  /** At the k-th event a worker executes the message and holds its key. */
  predicate Holding(ss: seq<State>, k: nat, w: nat, id: string) {
    k < |ss| && ExecutedBy(ss[k].sys, w, id) && id in ss[k].sys.keys
  }

  /** At the a-th event worker w marked the task with this result. */
  predicate MarkedAt(ss: seq<State>, es: seq<Event>, a: nat, w: nat, id: string, r: AgentResult) {
    a < |es| && es[a] == Own(id, D.Mark(r)) && Holding(ss, a, w, id)
  }

  /** One execution, by a worker that held the key at both writes, marked the task with this result and stored it. */
  ghost predicate Worked(ss: seq<State>, es: seq<Event>, k: nat, id: string, r: AgentResult) {
    exists a: nat, b: nat, w: nat ::
      a < b < k && MarkedAt(ss, es, a, w, id, r) && b < |es| && es[b] == Own(id, D.Store) && Holding(ss, b, w, id)
  }

  lemma ExecutorHolds(ss: seq<State>, k: nat, w: nat, id: string)
    requires k < |ss| && ExecutedBy(ss[k].sys, w, id) && W.Exclusive(ss[k].sys, id)
    ensures Holding(ss, k, w, id)
  {
    ExecutorIsAlone(ss[k].sys, id, w);
  }

  lemma {:induction false} MarkedByHolder(
    max: nat, n: nat, agents: map<string, string>, ss: seq<State>, es: seq<Event>, k: nat, id: string, r: AgentResult)
    returns (a: nat, w: nat)
    requires IsRun(max, n, agents, ss, es) && k <= |es| && id in agents && id in ss[k].tasks
    requires ss[k].tasks[id].pair.worker == D.Marked(r)
    ensures a < k && MarkedAt(ss, es, a, w, id, r) && ExecutedBy(ss[k].sys, w, id)
  {
    hide TaskProtocol.Perform, TaskProtocol.Enabled, W.Perform, W.Enabled, W.Exclusive, Single;
    if k > 0 {
      var s, ev := ss[k - 1], es[k - 1];
      EveryTaskIsSingle(max, n, agents, ss, es, k - 1, id);
      ViewSteps(max, s, ev, id);
      if ev == Own(id, D.Mark(r)) {
        MarkNeedsExecutor(max, id, s.View(id), r);
        w :| 0 <= w < |s.sys.workers| && ExecutedBy(s.sys, w, id);
        ExecutorHolds(ss, k - 1, w, id);
        a := k - 1;
      } else {
        StaysMarked(max, s, ev, id, r);
        a, w := MarkedByHolder(max, n, agents, ss, es, k - 1, id, r);
        StaysExecuted(max, s, ev, id, w);
      }
    } else {
      NothingMarked(n, agents, id);
    }
  }

  lemma NothingMarked(n: nat, agents: map<string, string>, id: string)
    requires id in agents
    ensures Initial(n, agents).tasks[id].pair.worker == D.Away && Initial(n, agents).tasks[id].pair.stored == {}
  {
  }

  lemma MarkNeedsExecutor(max: nat, id: string, j: Joint, r: AgentResult)
    requires TaskProtocol.Enabled(max, id, j, Task(D.Mark(r)))
    ensures Executing(j.sys, id)
  {
  }

  /** A task is marked with a result by the marking only. */
  lemma StaysMarked(max: nat, s: State, ev: Event, id: string, r: AgentResult)
    requires Enabled(max, s, ev) && id in s.tasks && ev != Own(id, D.Mark(r))
    requires id in Perform(max, s, ev).tasks && Perform(max, s, ev).tasks[id].pair.worker == D.Marked(r)
    ensures s.tasks[id].pair.worker == D.Marked(r)
    ensures ev.Shared? ==> !BreaksOff(s.sys, ev.e, id)
  {
    hide W.Perform, W.Enabled;
  }

  /** While its result is marked but not stored, the execution goes on. */
  lemma StaysExecuted(max: nat, s: State, ev: Event, id: string, w: nat)
    requires Enabled(max, s, ev) && id in s.tasks && Single(s.View(id), id) && !s.tasks[id].pair.worker.Away?
    requires ExecutedBy(s.sys, w, id) && (ev.Shared? ==> !BreaksOff(s.sys, ev.e, id))
    ensures ExecutedBy(Perform(max, s, ev).sys, w, id)
  {
    hide W.Perform, W.Enabled, D.Perform, D.Enabled;
    if ev.Shared? {
      StillExecutedBy(max, s.sys, ev.e, id, w);
    }
  }

  lemma {:induction false} StoredByHolder(
    max: nat, n: nat, agents: map<string, string>, ss: seq<State>, es: seq<Event>, k: nat, id: string, r: AgentResult)
    requires IsRun(max, n, agents, ss, es) && k <= |es| && id in agents && id in ss[k].tasks
    requires r in ss[k].tasks[id].pair.stored
    ensures Worked(ss, es, k, id, r)
  {
    hide TaskProtocol.Perform, TaskProtocol.Enabled, W.Perform, W.Enabled, W.Exclusive, Single, MarkedAt, Holding;
    if k > 0 {
      var s, ev := ss[k - 1], es[k - 1];
      EveryTaskIsSingle(max, n, agents, ss, es, k - 1, id);
      ViewSteps(max, s, ev, id);
      if r in s.tasks[id].pair.stored {
        StoredByHolder(max, n, agents, ss, es, k - 1, id, r);
        var a: nat, b: nat, w: nat :|
          && a < b < k - 1 && b < |es|
          && MarkedAt(ss, es, a, w, id, r) && es[b] == Own(id, D.Store) && Holding(ss, b, w, id);
      } else {
        NewlyStored(max, s, ev, id, r);
        var a, w := MarkedByHolder(max, n, agents, ss, es, k - 1, id, r);
        ExecutorHolds(ss, k - 1, w, id);
        var b: nat := k - 1;
        assert a < b < k && MarkedAt(ss, es, a, w, id, r) && es[b] == Own(id, D.Store) && Holding(ss, b, w, id);
      }
    } else {
      NothingMarked(n, agents, id);
    }
  }

  lemma NewlyStored(max: nat, s: State, ev: Event, id: string, r: AgentResult)
    requires Enabled(max, s, ev) && id in s.tasks && r !in s.tasks[id].pair.stored
    requires id in Perform(max, s, ev).tasks && r in Perform(max, s, ev).tasks[id].pair.stored
    ensures ev == Own(id, D.Store) && s.tasks[id].pair.worker == D.Marked(r)
  {
    hide W.Perform, W.Enabled;
  }

  // ---- a result does arrive ----

  /** The world of one task. */
  function One(id: string, j: Joint): State {
    State(j.sys, map[id := StateOf(j)])
  }

  lemma SharedAlone(max: nat, id: string, j: Joint, e: W.Event)
    requires TaskProtocol.Enabled(max, id, j, Protocol(e))
    ensures Enabled(max, One(id, j), Shared(e))
    ensures Perform(max, One(id, j), Shared(e)) == One(id, TaskProtocol.Perform(max, id, j, Protocol(e)))
  {
    hide W.Enabled, W.Perform, D.Enabled, D.Perform;
    assert One(id, j).View(id) == j;
  }

  lemma OwnAlone(max: nat, id: string, j: Joint, d: D.Event)
    requires TaskProtocol.Enabled(max, id, j, Task(d))
    ensures Enabled(max, One(id, j), Own(id, d))
    ensures Perform(max, One(id, j), Own(id, d)) == One(id, TaskProtocol.Perform(max, id, j, Task(d)))
  {
    hide W.Enabled, W.Perform, D.Enabled, D.Perform;
    assert One(id, j).View(id) == j;
  }

  /** The message is published, delivered and claimed: an execution is on. */
  lemma ExecutionStarts(max: nat, env: W.Envelope, pair: D.Pair) returns (j1: Joint, j2: Joint, j3: Joint)
    requires env.attempt == 1 && pair.worker.Away?
    ensures var j0 := Joint(W.Fresh(1), pair, Fresh);
            && TaskProtocol.Enabled(max, env.id, j0, Protocol(W.Publish(env)))
            && j1 == TaskProtocol.Perform(max, env.id, j0, Protocol(W.Publish(env)))
            && TaskProtocol.Enabled(max, env.id, j1, Protocol(W.Deliver(0, W.Command(env))))
            && j2 == TaskProtocol.Perform(max, env.id, j1, Protocol(W.Deliver(0, W.Command(env))))
            && TaskProtocol.Enabled(max, env.id, j2, Protocol(W.Claim(0)))
            && j3 == TaskProtocol.Perform(max, env.id, j2, Protocol(W.Claim(0)))
    ensures j3.sys.workers == [W.Executing(env)] && j3.pair == pair && j3.progress == Fresh
  {
    hide W.Enabled, W.Perform;
    var j0 := Joint(W.Fresh(1), pair, Fresh);
    W.PublishedAlone(max, env);
    j1 := TaskProtocol.Perform(max, env.id, j0, Protocol(W.Publish(env)));
    W.DeliveredAndClaimed(max, j1.sys, env);
    j2 := TaskProtocol.Perform(max, env.id, j1, Protocol(W.Deliver(0, W.Command(env))));
    j3 := TaskProtocol.Perform(max, env.id, j2, Protocol(W.Claim(0)));
  }

  /** The execution marks the task and stores its result; the dispatcher reads it. */
  lemma ExecutionAnswers(max: nat, env: W.Envelope, j: Joint, r: AgentResult) returns (js: seq<Joint>)
    requires j.sys.workers == [W.Executing(env)]
    requires j.progress == Fresh && j.pair == D.Dispatched(j.pair.agentId)
    ensures |js| == 5 && js[0] == j
    ensures var ds := [D.Begin, D.Mark(r), D.Store, D.ReadResult];
            forall i :: 0 <= i < 4 ==>
                          && TaskProtocol.Enabled(max, env.id, js[i], Task(ds[i]))
                          && js[i + 1] == TaskProtocol.Perform(max, env.id, js[i], Task(ds[i]))
    ensures js[4].pair.dispatcher == D.Returned(r) && js[4].pair.stored == {r}
  {
    var id := env.id;
    assert ExecutedBy(j.sys, 0, id);
    var j1 := TaskProtocol.Perform(max, id, j, Task(D.Begin));
    assert ExecutedBy(j1.sys, 0, id);
    var j2 := TaskProtocol.Perform(max, id, j1, Task(D.Mark(r)));
    assert ExecutedBy(j2.sys, 0, id);
    var j3 := TaskProtocol.Perform(max, id, j2, Task(D.Store));
    js := [j, j1, j2, j3, TaskProtocol.Perform(max, id, j3, Task(D.ReadResult))];
  }

  /** Any answer of an agent can come back: a run at whose end its dispatcher has returned it. */
  lemma ResultArrives(max: nat, env: W.Envelope, agentId: string, r: AgentResult)
    returns (ss: seq<State>, es: seq<Event>)
    requires env.attempt == 1
    ensures IsRun(max, 1, map[env.id := agentId], ss, es) && env.id in ss[|es|].tasks
    ensures ss[|es|].tasks[env.id].pair.dispatcher == D.Returned(r) && ss[|es|].tasks[env.id].pair.stored == {r}
  {
    hide W.Enabled, W.Perform, D.Enabled, D.Perform, TaskProtocol.Enabled, TaskProtocol.Perform, Enabled, Perform;
    var id := env.id;
    var j0 := Joint(W.Fresh(1), D.Dispatched(agentId), Fresh);
    var j1, j2, j3 := ExecutionStarts(max, env, D.Dispatched(agentId));
    SharedAlone(max, id, j0, W.Publish(env));
    SharedAlone(max, id, j1, W.Deliver(0, W.Command(env)));
    SharedAlone(max, id, j2, W.Claim(0));
    var js := ExecutionAnswers(max, env, j3, r);
    var ds := [D.Begin, D.Mark(r), D.Store, D.ReadResult];
    OwnAlone(max, id, js[0], ds[0]);
    OwnAlone(max, id, js[1], ds[1]);
    OwnAlone(max, id, js[2], ds[2]);
    OwnAlone(max, id, js[3], ds[3]);
    OneIsInitial(id, agentId);
    es := [Shared(W.Publish(env)), Shared(W.Deliver(0, W.Command(env))), Shared(W.Claim(0)),
           Own(id, D.Begin), Own(id, D.Mark(r)), Own(id, D.Store), Own(id, D.ReadResult)];
    ss := [One(id, j0), One(id, j1), One(id, j2), One(id, j3),
           One(id, js[1]), One(id, js[2]), One(id, js[3]), One(id, js[4])];
  }

  lemma OneIsInitial(id: string, agentId: string)
    ensures One(id, Joint(W.Fresh(1), D.Dispatched(agentId), Fresh)) == Initial(1, map[id := agentId])
  {
  }
}
