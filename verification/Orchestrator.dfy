/**
 The orchestrator process: one event loop, tasks created by the two polls, and
 the `_running` set that keeps a run from being executed twice at once. Each
 method is the code between two awaits, which nothing can interrupt.
 */
module Orchestrator {
  import opened Wrappers
  import opened DeliveryState
  import opened DeliveryGraph
  import Checkpoint
  import opened RunRows
  import RunStatus

  datatype TaskPhase = Created | Active | Done

  /** A task running `run_workflow`. */
  datatype Task = Task(run: string, resume: bool, phase: TaskPhase)

  datatype Loop = Loop(tasks: seq<Task>, running: set<string>)

  datatype Event =
    | Poll(rows: seq<string>)
    | Reconcile(rows: seq<string>)
    | Begin(i: nat)
    | Leave(i: nat)

  function Spawned(tasks: seq<Task>, running: set<string>, rows: seq<string>, resume: bool): seq<Task> {
    if rows == [] then tasks
    else
      var before := Spawned(tasks, running, rows[..|rows| - 1], resume);
      var row := rows[|rows| - 1];
      if row in running then before else before + [Task(row, resume, Created)]
  }

  predicate Enabled(l: Loop, e: Event) {
    match e
    case Poll(_) => true
    case Reconcile(_) => true
    case Begin(i) => i < |l.tasks| && l.tasks[i].phase == Created
    case Leave(i) => i < |l.tasks| && l.tasks[i].phase == Active
  }

  function Perform(l: Loop, e: Event): Loop
    requires Enabled(l, e)
  {
    match e
    case Poll(rows) => l.(tasks := Spawned(l.tasks, l.running, rows, false))
    case Reconcile(rows) => l.(tasks := Spawned(l.tasks, l.running, rows, true))
    case Begin(i) =>
      var task := l.tasks[i];
      if task.run in l.running then l.(tasks := l.tasks[i := task.(phase := Done)])
      else Loop(l.tasks[i := task.(phase := Active)], l.running + {task.run})
    case Leave(i) =>
      var task := l.tasks[i];
      Loop(l.tasks[i := task.(phase := Done)], l.running - {task.run})
  }

  /** An id is in the running set exactly while a body for it is active, and then only one is. */
  ghost predicate Exclusive(l: Loop) {
    && (forall i | 0 <= i < |l.tasks| :: l.tasks[i].phase == Active ==> l.tasks[i].run in l.running)
    && (forall id | id in l.running ::
          exists i :: 0 <= i < |l.tasks| && l.tasks[i].phase == Active && l.tasks[i].run == id)
    && (forall i, j | 0 <= i < |l.tasks| && 0 <= j < |l.tasks| ::
          l.tasks[i].phase == Active && l.tasks[j].phase == Active && l.tasks[i].run == l.tasks[j].run ==> i == j)
  }

  lemma {:induction false} SpawnedKeepsTasks(tasks: seq<Task>, running: set<string>, rows: seq<string>, resume: bool)
    ensures tasks <= Spawned(tasks, running, rows, resume)
    ensures forall i :: |tasks| <= i < |Spawned(tasks, running, rows, resume)| ==>
                          Spawned(tasks, running, rows, resume)[i].phase == Created
  {
    if rows != [] {
      SpawnedKeepsTasks(tasks, running, rows[..|rows| - 1], resume);
    }
  }

  // ---- which tasks a pass over the fetched rows creates ----

  /** One task for each of the first n rows whose run is not in the set, in the order of the rows, not yet begun. */
  ghost predicate OnePerRow(
    added: seq<Task>, rows: seq<string>, n: nat, running: set<string>, resume: bool, at: seq<nat>)
    requires n <= |rows|
  {
    && Picks(at, n, (i: nat) => i < |rows| && rows[i] !in running)
    && |added| == |at|
    && forall a :: 0 <= a < |at| ==>
                     at[a] < |rows| && added[a].run == rows[at[a]] && added[a].resume == resume
                     && added[a].phase == Created
  }

  lemma NextRow(added: seq<Task>, rows: seq<string>, n: nat, running: set<string>, resume: bool, at: seq<nat>)
    requires n < |rows| && OnePerRow(added, rows, n, running, resume, at)
    ensures rows[n] in running ==> OnePerRow(added, rows, n + 1, running, resume, at)
    ensures rows[n] !in running ==>
              OnePerRow(added + [Task(rows[n], resume, Created)], rows, n + 1, running, resume, at + [n])
  {
    PicksNext(at, n, (i: nat) => i < |rows| && rows[i] !in running);
  }

  lemma {:induction false} SpawnedPerRow(
    tasks: seq<Task>, running: set<string>, rows: seq<string>, n: nat, resume: bool) returns (at: seq<nat>)
    requires n <= |rows|
    ensures tasks <= Spawned(tasks, running, rows[..n], resume)
    ensures OnePerRow(Spawned(tasks, running, rows[..n], resume)[|tasks|..], rows, n, running, resume, at)
  {
    if n == 0 {
      at := [];
    } else {
      hide OnePerRow;
      at := SpawnedPerRow(tasks, running, rows, n - 1, resume);
      assert rows[..n][..n - 1] == rows[..n - 1];
      var before, after := Spawned(tasks, running, rows[..n - 1], resume), Spawned(tasks, running, rows[..n], resume);
      NextRow(before[|tasks|..], rows, n - 1, running, resume, at);
      if rows[n - 1] !in running {
        assert after[|tasks|..] == before[|tasks|..] + [Task(rows[n - 1], resume, Created)];
        at := at + [n - 1];
      }
    }
  }

  /**
   In every interleaving a poll or a reconciliation that fetched the row of a run nobody executes leaves a task for
   it that can begin, resuming exactly if it is the reconciliation's, and that enters the body if it begins next.
   */
  lemma FetchedRunsCanBegin(ls: seq<Loop>, es: seq<Event>, k: nat, i: nat) returns (j: nat)
    requires IsRun(ls, es) && k < |es| && (es[k].Poll? || es[k].Reconcile?) && i < |es[k].rows|
    requires forall a :: 0 <= a < |ls[k].tasks| && ls[k].tasks[a].phase == Active ==>
                           ls[k].tasks[a].run != es[k].rows[i]
    ensures |ls[k].tasks| <= j < |ls[k + 1].tasks|
    ensures ls[k + 1].tasks[j] == Task(es[k].rows[i], es[k].Reconcile?, Created) && Enabled(ls[k + 1], Begin(j))
    ensures Perform(ls[k + 1], Begin(j)).tasks[j] == Task(es[k].rows[i], es[k].Reconcile?, Active)
  {
    hide OnePerRow;
    var l, rows := ls[k], es[k].rows;
    MutualExclusion(ls, es, k);
    assert rows[i] !in l.running;
    var at := SpawnedPerRow(l.tasks, l.running, rows, |rows|, es[k].Reconcile?);
    assert rows[..|rows|] == rows;
    assert ls[k + 1] == Perform(l, es[k]);
    var a := TaskOfRow(ls[k + 1].tasks[|l.tasks|..], rows, l.running, es[k].Reconcile?, at, i);
    j := |l.tasks| + a;
  }

  lemma TaskOfRow(added: seq<Task>, rows: seq<string>, running: set<string>, resume: bool, at: seq<nat>, i: nat)
    returns (a: nat)
    requires OnePerRow(added, rows, |rows|, running, resume, at) && i < |rows| && rows[i] !in running
    ensures a < |added| && added[a] == Task(rows[i], resume, Created)
  {
    assert i in at;
    a :| a < |at| && at[a] == i;
  }

  /** A task begins at most once, and ends what it began: the phases of each task in every interleaving. */
  lemma TasksAdvance(ls: seq<Loop>, es: seq<Event>, k: nat, i: nat)
    requires IsRun(ls, es) && k < |es| && i < |ls[k].tasks|
    ensures i < |ls[k + 1].tasks|
    ensures ls[k + 1].tasks[i].run == ls[k].tasks[i].run && ls[k + 1].tasks[i].resume == ls[k].tasks[i].resume
    ensures ls[k + 1].tasks[i].phase == Active <==>
            || (ls[k].tasks[i].phase == Active && es[k] != Leave(i))
            || (es[k] == Begin(i) &&
                forall a :: 0 <= a < |ls[k].tasks| && ls[k].tasks[a].phase == Active ==>
                              ls[k].tasks[a].run != ls[k].tasks[i].run)
    ensures ls[k + 1].tasks[i].phase == Created <==> ls[k].tasks[i].phase == Created && es[k] != Begin(i)
    ensures ls[k].tasks[i].phase == Done ==> ls[k + 1].tasks[i].phase == Done
  {
    MutualExclusion(ls, es, k);
    if es[k].Poll? || es[k].Reconcile? {
      SpawnedKeepsTasks(ls[k].tasks, ls[k].running, es[k].rows, es[k].Reconcile?);
    }
  }

  lemma StepIsExclusive(l: Loop, e: Event)
    requires Enabled(l, e) && Exclusive(l)
    ensures Exclusive(Perform(l, e))
  {
    var m := Perform(l, e);
    match e
    case Poll(rows) => SpawnedIsExclusive(l, rows, false);
    case Reconcile(rows) => SpawnedIsExclusive(l, rows, true);
    case Begin(i) => {
      forall id | id in m.running
        ensures exists j :: 0 <= j < |m.tasks| && m.tasks[j].phase == Active && m.tasks[j].run == id
      {
        if id in l.running {
          var j :| 0 <= j < |l.tasks| && l.tasks[j].phase == Active && l.tasks[j].run == id;
          assert m.tasks[j] == l.tasks[j];
        } else {
          assert m.tasks[i].run == id;
        }
      }
    }
    case Leave(i) => {
      forall id | id in m.running
        ensures exists j :: 0 <= j < |m.tasks| && m.tasks[j].phase == Active && m.tasks[j].run == id
      {
        var j :| 0 <= j < |l.tasks| && l.tasks[j].phase == Active && l.tasks[j].run == id;
        assert m.tasks[j] == l.tasks[j];
      }
    }
  }

  lemma SpawnedIsExclusive(l: Loop, rows: seq<string>, resume: bool)
    requires Exclusive(l)
    ensures Exclusive(l.(tasks := Spawned(l.tasks, l.running, rows, resume)))
  {
    SpawnedKeepsTasks(l.tasks, l.running, rows, resume);
    var tasks := Spawned(l.tasks, l.running, rows, resume);
    forall id | id in l.running
      ensures exists j :: 0 <= j < |tasks| && tasks[j].phase == Active && tasks[j].run == id
    {
      var j :| 0 <= j < |l.tasks| && l.tasks[j].phase == Active && l.tasks[j].run == id;
      assert tasks[j] == l.tasks[j];
    }
  }

  ghost predicate IsRun(ls: seq<Loop>, es: seq<Event>) {
    && |ls| == |es| + 1 && ls[0] == Loop([], {})
    && forall i :: 0 <= i < |es| ==> Enabled(ls[i], es[i]) && ls[i + 1] == Perform(ls[i], es[i])
  }

  /** For every interleaving of polls, starts and ends, with whatever rows the polls fetched. */
  lemma {:induction false} MutualExclusion(ls: seq<Loop>, es: seq<Event>, k: nat)
    requires IsRun(ls, es) && k <= |es|
    ensures Exclusive(ls[k])
  {
    hide Perform, Enabled, Exclusive;
    if k == 0 {
      EmptyIsExclusive();
    } else {
      MutualExclusion(ls, es, k - 1);
      StepIsExclusive(ls[k - 1], es[k - 1]);
    }
  }

  lemma EmptyIsExclusive()
    ensures Exclusive(Loop([], {}))
  {
  }

  class Process {
    var tasks: seq<Task>
    var running: set<string>

    ghost function View(): Loop
      reads this
    {
      Loop(tasks, running)
    }

    constructor ()
      ensures View() == Loop([], {}) && Exclusive(View())
    {
      tasks, running := [], {};
    }

    /** The loop over the fetched rows, shared by `poll_database` (fresh) and the reconciliation (resume). */
    method CreateTasks(rows: seq<string>, resume: bool)
      requires Exclusive(View())
      modifies this`tasks
      ensures View() == Perform(old(View()), if resume then Reconcile(rows) else Poll(rows))
      ensures old(tasks) <= tasks && running == old(running)
      ensures exists at :: OnePerRow(tasks[|old(tasks)|..], rows, |rows|, running, resume, at)
      ensures Exclusive(View())
    {
      ghost var before := View();
      for i := 0 to |rows|
        invariant running == before.running
        invariant tasks == Spawned(before.tasks, running, rows[..i], resume)
      {
        assert rows[..i + 1][..|rows[..i + 1]| - 1] == rows[..i];
        if rows[i] !in running {
          tasks := tasks + [Task(rows[i], resume, Created)];
        }
      }
      assert rows[..|rows|] == rows;
      ghost var at := SpawnedPerRow(before.tasks, running, rows, |rows|, resume);
      StepIsExclusive(before, if resume then Reconcile(rows) else Poll(rows));
    }

    /** The start of `run_workflow`, up to its first await: give up if the run is active, else enter it. */
    method BeginTask(i: nat) returns (entered: bool)
      requires Exclusive(View()) && Enabled(View(), Begin(i))
      modifies this
      ensures View() == Perform(old(View()), Begin(i)) && Exclusive(View())
      ensures entered <==> forall j :: 0 <= j < |old(tasks)| && old(tasks)[j].phase == Active
                                       ==> old(tasks)[j].run != old(tasks)[i].run
      ensures i < |old(tasks)| == |tasks| && tasks[i].phase == if entered then Active else Done
      ensures forall j :: 0 <= j < |tasks| && j != i ==> tasks[j] == old(tasks)[j]
      ensures running == if entered then old(running) + {old(tasks)[i].run} else old(running)
    {
      StepIsExclusive(View(), Begin(i));
      var task := tasks[i];
      if task.run in running {
        tasks := tasks[i := task.(phase := Done)];
        return false;
      }
      running := running + {task.run};
      tasks := tasks[i := task.(phase := Active)];
      return true;
    }

    /** The `finally` of `run_workflow`. */
    method LeaveTask(i: nat)
      requires Exclusive(View()) && Enabled(View(), Leave(i))
      modifies this
      ensures View() == Perform(old(View()), Leave(i)) && Exclusive(View())
      ensures i < |old(tasks)| == |tasks| && tasks[i].phase == Done && running == old(running) - {old(tasks)[i].run}
      ensures forall j :: 0 <= j < |tasks| && j != i ==> tasks[j] == old(tasks)[j]
    {
      StepIsExclusive(View(), Leave(i));
      running := running - {tasks[i].run};
      tasks := tasks[i := tasks[i].(phase := Done)];
    }
  }

  // ---- the body of run_workflow ----

  /**
   How the invocation of the graph came back; then the final status and the audit event may still fail to be
   written.
   */
  datatype Outcome = Returned(state: State, marked: bool, audited: bool) | Raised

  /** What the graph is invoked with: nothing, to continue at the checkpoint, or the input of a new run. */
  datatype Invocation = Continue | NewInput

  predicate Delivered(o: Outcome) {
    o.Returned? && o.state.currentStage == Some(AtDelivered)
  }

  /** An exception reaches the handler. */
  predicate Fails(started: bool, o: Outcome) {
    !started || o.Raised? || !o.marked || (Delivered(o) && !o.audited)
  }

  /** The events of a body in the life of its run; `inner` are those of the nodes, and what else happens meanwhile. */
  function BodyEvents(started: bool, inner: seq<RunStatus.Event>, o: Outcome, recordable: bool): seq<RunStatus.Event> {
    [RunStatus.Launch]
    + (if started then [RunStatus.MarkRunning] + inner else [])
    + (if started && o.Returned? && o.marked then [RunStatus.Finish(Delivered(o))] else [])
    + (if Fails(started, o) then [if recordable then RunStatus.Raise else RunStatus.RaiseUnrecorded]
       else if Delivered(o) then [RunStatus.Close] else [])
  }

  /** The statuses that the body writes, in order; `inner` are those that the nodes write. */
  function BodyWrites(started: bool, inner: seq<RunStatus.Status>, o: Outcome, recordable: bool)
    : seq<RunStatus.Status>
  {
    (if started then [RunStatus.RUNNING] + inner else [])
    + (if started && o.Returned? && o.marked
       then [if Delivered(o) then RunStatus.COMPLETED else RunStatus.CANCELLED] else [])
    + (if Fails(started, o) && recordable then [RunStatus.FAILED_RETRYABLE] else [])
  }

  /**
   `started` says that RUNNING could be written, `recordable` that a failure could, after the retries; `nodes` are
   the statuses written by the nodes of the graph. The invocation is None if the graph was not invoked.
   */
  method RunBody(row: RunRow, resume: bool, saved: Option<Config>, started: bool, nodes: seq<RunStatus.Status>,
                 outcome: Outcome, recordable: bool)
    returns (invocation: Option<Invocation>)
    modifies row
    ensures invocation == if !started then None else if resume && saved.Some? then Some(Continue) else Some(NewInput)
    ensures row.log == old(row.log) + BodyWrites(started, nodes, outcome, recordable)
    ensures row.status == RunStatus.Latest(old(row.status), BodyWrites(started, nodes, outcome, recordable))
  {
    var raised := true;
    invocation := None;
    if started {
      row.Update(RunStatus.RUNNING);
      invocation := Some(if resume && saved.Some? then Continue else NewInput);
      InvokeGraph(row, nodes);
      if outcome.Returned? && outcome.marked {
        if outcome.state.currentStage == Some(AtDelivered) {
          row.Update(RunStatus.COMPLETED);
          raised := !outcome.audited;
        } else {
          row.Update(RunStatus.CANCELLED);
          raised := false;
        }
      }
    }
    if raised && recordable {
      row.Update(RunStatus.FAILED_RETRYABLE);
    }
  }

  /** The invocation of the graph, as far as the row is concerned. */
  method InvokeGraph(row: RunRow, nodes: seq<RunStatus.Status>)
    modifies row
    ensures row.log == old(row.log) + nodes && row.status == RunStatus.Latest(old(row.status), nodes)
  {
    for i := 0 to |nodes|
      invariant row.log == old(row.log) + nodes[..i] && row.status == RunStatus.Latest(old(row.status), nodes[..i])
    {
      row.Update(nodes[i]);
      assert nodes[..i + 1] == nodes[..i] + [nodes[i]];
    }
    assert nodes[..|nodes|] == nodes;
  }

  /** Where the graph starts: at the checkpoint, or at triage with what is kept of an old state. */
  ghost predicate Invoked(max: nat, invocation: Invocation, saved: Option<Config>, origin: Config) {
    match invocation
    case Continue => saved == Some(origin)
    case NewInput => IsStart(max, origin) && (saved == None ==> origin == START)
  }

  /** This is what the simulation of crashes, resumes and retries allows. */
  lemma InvocationsAreStarts(max: nat, resume: bool, saved: Option<Config>, origin: Config)
    ensures Invoked(max, if resume && saved.Some? then Continue else NewInput, saved, origin) <==>
            Checkpoint.Starts(max, resume, saved, origin)
  {
    assert IsStart(max, START);
  }

  /** The events of the nodes are possible, and leave the body between nodes if the graph returned. */
  predicate InnerFits(inner: seq<RunStatus.Event>, o: Outcome) {
    var (possible, graph) := RunStatus.After(RunStatus.Life(RunStatus.RUNNING, RunStatus.InGraph), inner);
    possible && !graph.body.Away? && (o.Returned? ==> graph.body.InGraph?)
  }

  /**
   The writes of a body are those of its events in the life of its run, possible in that order whatever the nodes do.
   */
  lemma BodyIsPartOfALife(l: RunStatus.Life, started: bool, inner: seq<RunStatus.Event>, o: Outcome, recordable: bool)
    returns (after: RunStatus.Life)
    requires l.body.Away? && InnerFits(inner, o)
    ensures after.body.Away?
    ensures RunStatus.Leads(l, BodyEvents(started, inner, o, recordable), after,
                            BodyWrites(started, RunStatus.Log(inner), o, recordable))
  {
    hide RunStatus.Leads, RunStatus.Log, InnerFits;
    var launched := RunStatus.Life(l.status, RunStatus.Entered);
    RunStatus.LeadsByOne(l, RunStatus.Launch);
    var middle := if started then [RunStatus.MarkRunning] + inner else [];
    var nodes := if started then [RunStatus.RUNNING] + RunStatus.Log(inner) else [];
    var graph := Middle(l, started, inner, o);
    RunStatus.LeadsOn(l, [RunStatus.Launch], launched, [], middle, graph, nodes);
    var finish := if started && o.Returned? && o.marked then [RunStatus.Finish(Delivered(o))] else [];
    var finished := Marked(graph, started, o);
    RunStatus.LeadsOn(l, [RunStatus.Launch] + middle, graph, [] + nodes, finish, finished, FinishWrites(started, o));
    var end := if Fails(started, o) then [if recordable then RunStatus.Raise else RunStatus.RaiseUnrecorded]
               else if Delivered(o) then [RunStatus.Close] else [];
    after := Left(finished, started, o, recordable);
    RunStatus.LeadsOn(l, [RunStatus.Launch] + middle + finish, finished, [] + nodes + FinishWrites(started, o),
                      end, after, EndWrites(started, o, recordable));
    assert [] + nodes == nodes;
  }

  function FinishWrites(started: bool, o: Outcome): seq<RunStatus.Status> {
    if started && o.Returned? && o.marked then [if Delivered(o) then RunStatus.COMPLETED else RunStatus.CANCELLED]
    else []
  }

  function EndWrites(started: bool, o: Outcome, recordable: bool): seq<RunStatus.Status> {
    if Fails(started, o) && recordable then [RunStatus.FAILED_RETRYABLE] else []
  }

  lemma Middle(l: RunStatus.Life, started: bool, inner: seq<RunStatus.Event>, o: Outcome)
    returns (graph: RunStatus.Life)
    requires InnerFits(inner, o)
    ensures RunStatus.Leads(RunStatus.Life(l.status, RunStatus.Entered),
                            if started then [RunStatus.MarkRunning] + inner else [],
                            graph,
                            if started then [RunStatus.RUNNING] + RunStatus.Log(inner) else [])
    ensures !graph.body.Away? && (started && o.Returned? ==> graph.body.InGraph?)
  {
    hide RunStatus.After, RunStatus.Log;
    var launched := RunStatus.Life(l.status, RunStatus.Entered);
    graph := launched;
    if started {
      var running := RunStatus.Life(RunStatus.RUNNING, RunStatus.InGraph);
      graph := RunStatus.After(running, inner).1;
      RunStatus.LeadsByOne(launched, RunStatus.MarkRunning);
      RunStatus.LeadsOn(launched, [RunStatus.MarkRunning], running, [RunStatus.RUNNING],
                        inner, graph, RunStatus.Log(inner));
    } else {
      RunStatus.LeadsNowhere(launched);
    }
  }

  /** The final status is written, if it can be. */
  lemma Marked(graph: RunStatus.Life, started: bool, o: Outcome) returns (finished: RunStatus.Life)
    requires !graph.body.Away? && (started && o.Returned? ==> graph.body.InGraph?)
    ensures RunStatus.Leads(graph,
                            if started && o.Returned? && o.marked then [RunStatus.Finish(Delivered(o))] else [],
                            finished, FinishWrites(started, o))
    ensures started && o.Returned? && o.marked ==>
              finished.body == if Delivered(o) then RunStatus.Closing else RunStatus.Away
    ensures !(started && o.Returned? && o.marked) ==> finished == graph
  {
    hide RunStatus.Leads;
    finished := graph;
    if started && o.Returned? && o.marked {
      finished := RunStatus.Perform(graph, RunStatus.Finish(Delivered(o)));
      RunStatus.LeadsByOne(graph, RunStatus.Finish(Delivered(o)));
    } else {
      RunStatus.LeadsNowhere(graph);
    }
  }

  /** The body is left, by the handler or by its end. */
  lemma Left(finished: RunStatus.Life, started: bool, o: Outcome, recordable: bool) returns (after: RunStatus.Life)
    requires started && o.Returned? && o.marked ==>
               finished.body == if Delivered(o) then RunStatus.Closing else RunStatus.Away
    requires !(started && o.Returned? && o.marked) ==> !finished.body.Away?
    ensures RunStatus.Leads(finished,
                            if Fails(started, o)
                            then [if recordable then RunStatus.Raise else RunStatus.RaiseUnrecorded]
                            else if Delivered(o) then [RunStatus.Close] else [],
                            after, EndWrites(started, o, recordable))
    ensures after.body.Away?
  {
    hide RunStatus.Leads;
    if Fails(started, o) || Delivered(o) {
      var e := if !Fails(started, o) then RunStatus.Close
               else if recordable then RunStatus.Raise else RunStatus.RaiseUnrecorded;
      after := RunStatus.Perform(finished, e);
      RunStatus.LeadsByOne(finished, e);
    } else {
      after := finished;
      RunStatus.LeadsNowhere(finished);
    }
  }

  // ---- the whole history of a row ----

  /**
   A body that came to its end, one that died with its process after these events, or a request through the API. A
   request that reaches a body before it writes RUNNING is listed before the body, whose launch leaves the row alone;
   later ones are among its inner events, and none is accepted once COMPLETED is written.
   */
  datatype Episode =
    | Ended(started: bool, inner: seq<RunStatus.Event>, outcome: Outcome, recordable: bool)
    | Died(events: seq<RunStatus.Event>)
    | Api(e: RunStatus.Event)

  function EventsOf(p: Episode): seq<RunStatus.Event> {
    match p
    case Ended(started, inner, outcome, recordable) => BodyEvents(started, inner, outcome, recordable)
    case Died(events) => [RunStatus.Launch] + events + [RunStatus.Crash]
    case Api(e) => [e]
  }

  /** What the episode appends to the row's log: for a body that ended, what `RunBody` writes. */
  function LogOf(p: Episode): seq<RunStatus.Status> {
    match p
    case Ended(started, inner, outcome, recordable) => BodyWrites(started, RunStatus.Log(inner), outcome, recordable)
    case Died(events) => RunStatus.Log(events)
    case Api(e) => RunStatus.Change(e)
  }

  /** The episode is possible in this life. */
  predicate Fits(l: RunStatus.Life, p: Episode) {
    match p
    case Ended(_, inner, outcome, _) => InnerFits(inner, outcome)
    case Died(events) =>
      var (possible, after) := RunStatus.After(RunStatus.Life(l.status, RunStatus.Entered), events);
      possible && !after.body.Away?
    case Api(e) => (e.ApiRetry? || e.ApiCancel?) && RunStatus.Enabled(l, e)
  }

  function EventsOfAll(episodes: seq<Episode>): seq<RunStatus.Event> {
    if episodes == [] then [] else EventsOfAll(episodes[..|episodes| - 1]) + EventsOf(episodes[|episodes| - 1])
  }

  function LogOfAll(episodes: seq<Episode>): seq<RunStatus.Status> {
    if episodes == [] then [] else LogOfAll(episodes[..|episodes| - 1]) + LogOf(episodes[|episodes| - 1])
  }

  const QUEUED_ROW := RunStatus.Life(RunStatus.QUEUED, RunStatus.Away)

  /** Each episode is possible in the life that the ones before it leave. */
  predicate FitAll(episodes: seq<Episode>) {
    episodes != [] ==>
      var init := episodes[..|episodes| - 1];
      FitAll(init) && Fits(RunStatus.After(QUEUED_ROW, EventsOfAll(init)).1, episodes[|episodes| - 1])
  }

  lemma EpisodeIsPartOfALife(l: RunStatus.Life, p: Episode) returns (after: RunStatus.Life)
    requires l.body.Away? && Fits(l, p)
    ensures after.body.Away? && RunStatus.Leads(l, EventsOf(p), after, LogOf(p))
  {
    match p
    case Ended(started, inner, outcome, recordable) =>
      after := BodyIsPartOfALife(l, started, inner, outcome, recordable);
    case Died(events) => after := DeathIsPartOfALife(l, events);
    case Api(e) =>
      after := RunStatus.Perform(l, e);
      RunStatus.LeadsByOne(l, e);
  }

  lemma DeathIsPartOfALife(l: RunStatus.Life, events: seq<RunStatus.Event>) returns (after: RunStatus.Life)
    requires l.body.Away? && Fits(l, Died(events))
    ensures after.body.Away? && RunStatus.Leads(l, EventsOf(Died(events)), after, LogOf(Died(events)))
  {
    hide RunStatus.After, RunStatus.Log;
    var launched := RunStatus.Life(l.status, RunStatus.Entered);
    var last := RunStatus.After(launched, events).1;
    RunStatus.LeadsByOne(l, RunStatus.Launch);
    RunStatus.LeadsOn(l, [RunStatus.Launch], launched, [], events, last, RunStatus.Log(events));
    after := RunStatus.Perform(last, RunStatus.Crash);
    RunStatus.LeadsByOne(last, RunStatus.Crash);
    RunStatus.LeadsOn(l, [RunStatus.Launch] + events, last, [] + RunStatus.Log(events), [RunStatus.Crash], after, []);
    assert [] + RunStatus.Log(events) + [] == RunStatus.Log(events);
  }

  /** Bodies one after the other, dying or ending, with requests between them, are one life, whose log is theirs. */
  lemma {:induction false} EpisodesAreALife(episodes: seq<Episode>) returns (after: RunStatus.Life)
    requires FitAll(episodes)
    ensures after.body.Away? && RunStatus.Leads(QUEUED_ROW, EventsOfAll(episodes), after, LogOfAll(episodes))
  {
    hide RunStatus.Log, Fits, EventsOf, LogOf;
    if episodes == [] {
      after := QUEUED_ROW;
      RunStatus.LeadsNowhere(after);
    } else {
      hide RunStatus.After;
      var init, last := episodes[..|episodes| - 1], episodes[|episodes| - 1];
      var before := EpisodesAreALife(init);
      after := EpisodeIsPartOfALife(before, last);
      RunStatus.LeadsOn(QUEUED_ROW, EventsOfAll(init), before, LogOfAll(init), EventsOf(last), after, LogOf(last));
    }
  }

  /**
   So every entry of a row's whole log follows the table, unless it overwrites a cancellation, records an exception
   anywhere but between nodes, or starts a body on an outdated row; these entries never do.
   */
  lemma RowFollowsTheTableIff(episodes: seq<Episode>, m: nat) returns (ls: seq<RunStatus.Life>, k: nat)
    requires FitAll(episodes) && m < |LogOfAll(episodes)|
    ensures var es := EventsOfAll(episodes);
            && RunStatus.IsRun(ls, es) && k < |es| && RunStatus.Change(es[k]) == [LogOfAll(episodes)[m]]
            && ls[k].status == RunStatus.Latest(RunStatus.QUEUED, LogOfAll(episodes)[..m])
            && (RunStatus.Follows(LogOfAll(episodes), m) <==>
                !(RunStatus.IsWrite(es[k]) && RunStatus.Breaks(ls[k], es[k])))
  {
    hide RunStatus.After, RunStatus.Log, RunStatus.Breaks, RunStatus.Follows, FitAll, EventsOfAll, LogOfAll;
    var after := EpisodesAreALife(episodes);
    ls := RunStatus.AfterIsARun(EventsOfAll(episodes));
    k := RunStatus.LogFollowsIff(ls, EventsOfAll(episodes), m);
  }

  /** In particular, if none of these occurs, the whole log follows it. */
  lemma QuietRowFollowsTheTable(episodes: seq<Episode>, ls: seq<RunStatus.Life>, m: nat)
    requires FitAll(episodes) && m < |LogOfAll(episodes)|
    requires RunStatus.IsRun(ls, EventsOfAll(episodes)) && RunStatus.Quiet(ls, EventsOfAll(episodes))
    ensures RunStatus.Follows(LogOfAll(episodes), m)
  {
    hide RunStatus.After, RunStatus.Log, RunStatus.Quiet, RunStatus.Follows, FitAll, EventsOfAll, LogOfAll;
    var after := EpisodesAreALife(episodes);
    RunStatus.QuietLogFollowsTheTable(ls, EventsOfAll(episodes), m);
  }

  /**
   A row that a body leaves as completed was delivered; a delivered run ends completed unless writing about it
   failed.
   */
  lemma CompletedMeansDelivered(started: bool, inner: seq<RunStatus.Event>, o: Outcome, recordable: bool)
    requires forall i :: 0 <= i < |inner| ==> !inner[i].Finish?
    ensures var ws := BodyWrites(started, RunStatus.Log(inner), o, recordable);
            && (RunStatus.COMPLETED in ws <==> started && Delivered(o) && o.marked)
            && (ws != [] ==> (ws[|ws| - 1] == RunStatus.COMPLETED <==>
                                started && Delivered(o) && o.marked && (o.audited || !recordable)))
  {
    NodesDoNotComplete(inner);
  }

  lemma {:induction false} NodesDoNotComplete(inner: seq<RunStatus.Event>)
    requires forall i :: 0 <= i < |inner| ==> !inner[i].Finish?
    ensures RunStatus.COMPLETED !in RunStatus.Log(inner)
  {
    if inner != [] {
      NodesDoNotComplete(inner[..|inner| - 1]);
    }
  }
}
