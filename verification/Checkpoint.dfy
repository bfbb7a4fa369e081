/**
 Crashes and resumes of one run. The checkpoint is written after each completed
 node; a crash loses the node that was executing; a resume continues from the
 checkpoint if there is one and starts afresh otherwise. The checkpoints
 themselves are lost at a restart if they were kept in memory only.
 */
module Checkpoint {
  import opened Wrappers
  import opened DeliveryState
  import opened DeliveryGraph
  import opened MainLine
  import opened Budget
  import ReviewBudget
  import GateSafety

  /** `live` is the configuration whose node is executing in the process, if the run is alive. */
  datatype Process = Process(saved: Option<Config>, live: Option<Config>)

  const IDLE := Process(None, None)

  /** Where an invocation starts: at the checkpoint if it resumes and there is one, afresh otherwise. */
  function Origin(resume: bool, saved: Option<Config>): Config {
    if resume && saved.Some? then saved.value else START
  }

  /**
   Where an invocation may start: a new input over an old checkpoint begins at triage, whatever is kept of
   the state.
   */
  ghost predicate Starts(max: nat, resume: bool, saved: Option<Config>, origin: Config) {
    if resume || saved.None? then origin == Origin(resume, saved) else IsStart(max, origin)
  }

  /**
   `Launch(resume)` is a start of `run_workflow` for a queued or a stale run. `Retry` is its start for a run
   that failed and was retried: it begins at triage again, and may or may not write a checkpoint before its
   first node completes. `Forget` is the loss of the checkpoints of a dead process.
   */
  datatype Event =
    | Launch(resume: bool)
    | Retry(origin: Config, written: bool)
    | Complete(inp: Input)
    | Crash
    | Forget

  ghost predicate Enabled(max: nat, p: Process, e: Event) {
    match e
    case Launch(resume) => p.live.None? && (!resume ==> p.saved.None?)
    case Retry(origin, _) => p.live.None? && Starts(max, false, p.saved, origin)
    case Complete(_) => p.live.Some? && p.live.value.node != End
    case Crash => p.live.Some?
    case Forget => p.live.None?
  }

  function Perform(max: nat, p: Process, e: Event): Process {
    match e
    case Launch(resume) => p.(live := Some(Origin(resume, p.saved)))
    case Retry(origin, written) =>
      Process(if written then Some(origin) else p.saved, Some(origin))
    case Complete(inp) =>
      if p.live.None? then p
      else
        var c := Step(max, p.live.value, inp);
        Process(Some(c), Some(c))
    case Crash => p.(live := None)
    case Forget => IDLE
  }

  ghost predicate IsHistory(max: nat, ps: seq<Process>, es: seq<Event>) {
    && |ps| == |es| + 1 && ps[0] == IDLE
    && forall i :: 0 <= i < |es| ==> Enabled(max, ps[i], es[i]) && ps[i + 1] == Perform(max, ps[i], es[i])
  }

  /** The answers given to the nodes that completed by the events from `from` to k. */
  function Completed(es: seq<Event>, from: nat, k: nat): seq<Input>
    requires from <= k <= |es|
  {
    if k == from then []
    else if es[k - 1].Complete? then Completed(es, from, k - 1) + [es[k - 1].inp]
    else Completed(es, from, k - 1)
  }

  /** Where the present stretch begins: after the last loss of the checkpoints. */
  function Since(es: seq<Event>, k: nat): (from: nat)
    requires k <= |es|
    ensures from <= k
  {
    if k == 0 then 0 else if es[k - 1].Forget? then k else Since(es, k - 1)
  }

  function Resumable(p: Process): Config {
    p.saved.GetOr(START)
  }

  /** The checkpoints since the last loss are positions of this run, and the node in execution is its next. */
  ghost predicate Simulates(max: nat, ps: seq<Process>, es: seq<Event>, k: nat, cs: seq<Config>)
    requires k <= |es| < |ps|
  {
    var from := Since(es, k);
    && IsRun(max, cs, Completed(es, from, k)) && cs[0] == START
    && (forall j :: from <= j <= k ==> At(ps[j], cs, |Completed(es, from, j)|))
    && (ps[k].live.Some? ==> ps[k].live.value == cs[|Completed(es, from, k)|])
  }

  ghost predicate At(p: Process, cs: seq<Config>, n: nat) {
    n < |cs| && Resumable(p) == cs[n]
  }

  lemma CompletedExtends(max: nat, ps: seq<Process>, es: seq<Event>, k: nat, cs: seq<Config>)
    requires IsHistory(max, ps, es) && 0 < k <= |es| && es[k - 1].Complete? && Simulates(max, ps, es, k - 1, cs)
    ensures Simulates(max, ps, es, k, cs + [ps[k].live.value])
  {
    hide Step;
    var p, inp, from := ps[k - 1], es[k - 1].inp, Since(es, k);
    var ins := Completed(es, from, k - 1);
    ExtendRun(max, cs, ins, inp);
    var longer := cs + [Step(max, cs[|ins|], inp)];
    forall j | from <= j <= k ensures At(ps[j], longer, |Completed(es, from, j)|) {
      if j < k {
        assert At(ps[j], cs, |Completed(es, from, j)|);
      }
    }
  }

  lemma OthersKeep(max: nat, ps: seq<Process>, es: seq<Event>, k: nat, cs: seq<Config>)
    requires IsHistory(max, ps, es) && 0 < k <= |es| && (es[k - 1].Launch? || es[k - 1].Crash?)
    requires Simulates(max, ps, es, k - 1, cs)
    ensures Simulates(max, ps, es, k, cs)
  {
    hide Step;
    var from := Since(es, k);
    assert Completed(es, from, k) == Completed(es, from, k - 1);
    assert At(ps[k - 1], cs, |Completed(es, from, k - 1)|);
  }

  /**
   However often the process crashes and resumes, the checkpoints written since the last loss are the positions of
   one crash-free run over the answers of the nodes completed since, and the node in execution is its next.
   */
  lemma {:induction false} CrashesAreInvisible(max: nat, ps: seq<Process>, es: seq<Event>, k: nat)
    returns (cs: seq<Config>)
    requires IsHistory(max, ps, es) && k <= |es| && forall i :: Since(es, k) <= i < k ==> !es[i].Retry?
    ensures Simulates(max, ps, es, k, cs)
  {
    hide Step, Simulates;
    if k == Since(es, k) {
      BeginsIdle(max, ps, es, k);
      cs := [START];
    } else {
      cs := CrashesAreInvisible(max, ps, es, k - 1);
      if es[k - 1].Complete? {
        CompletedExtends(max, ps, es, k, cs);
        cs := cs + [ps[k].live.value];
      } else {
        OthersKeep(max, ps, es, k, cs);
      }
    }
  }

  lemma BeginsIdle(max: nat, ps: seq<Process>, es: seq<Event>, k: nat)
    requires IsHistory(max, ps, es) && k <= |es| && Since(es, k) == k
    ensures Simulates(max, ps, es, k, [START])
  {
    assert ps[k] == IDLE;
  }

  /**
   A resumed run still passes every gate: the gates below the node in execution were passed by nodes
   completed since.
   */
  lemma CrashesBypassNoGate(max: nat, ps: seq<Process>, es: seq<Event>, k: nat, gate: Gate)
    returns (cs: seq<Config>)
    requires IsHistory(max, ps, es) && k <= |es| && forall i :: Since(es, k) <= i < k ==> !es[i].Retry?
    requires ps[k].live.Some? && GateRank(gate) < GateSafety.Rank(ps[k].live.value)
    ensures var ins := Completed(es, Since(es, k), k);
            && IsRun(max, cs, ins) && cs[|ins|] == ps[k].live.value
            && GateSafety.Passed(cs, ins, |ins|, gate)
  {
    cs := CrashesAreInvisible(max, ps, es, k);
    var ins := Completed(es, Since(es, k), k);
    GateSafety.GatesBelowArePassed(max, cs, ins, |ins|, gate);
  }

  // ---- the price of losses ----

  function Losses(es: seq<Event>, k: nat): nat
    requires k <= |es|
  {
    if k == 0 then 0 else Losses(es, k - 1) + if es[k - 1].Forget? then 1 else 0
  }

  /** The completed nodes that were an approved human review. */
  function Approvals(ps: seq<Process>, es: seq<Event>, k: nat): nat
    requires k <= |es| <= |ps|
  {
    if k == 0 then 0
    else
      var p, e := ps[k - 1], es[k - 1];
      Approvals(ps, es, k - 1)
      + if e.Complete? && p.live.Some? && p.live.value.node == HumanReview && e.inp.decision == APPROVED then 1 else 0
  }

  ghost predicate Budgeted(max: nat, c: Config) {
    WellFormed(max, c) && ReviewBudget.Untouched(c)
  }

  /**
   Between retries crashes cost nothing, and each loss of the checkpoints at most the longest fresh run: with f
   losses and k approved reviews at most (f + 1) (18 + 44 max) + k (2 + 36 max) nodes complete.
   */
  lemma LossesCostOneRunEach(max: nat, ps: seq<Process>, es: seq<Event>, k: nat, losses: nat, reviews: nat)
    requires IsHistory(max, ps, es) && k <= |es| && forall i :: 0 <= i < k ==> !es[i].Retry?
    requires Losses(es, k) == losses && Approvals(ps, es, k) == reviews
    ensures |Completed(es, 0, k)| <= (losses + 1) * (18 + 44 * max) + reviews * (2 + 36 * max)
  {
    hide Step, Budgeted, ReviewBudget.Worth;
    HistoryCosts(max, ps, es, k);
    BudgetedBounds(max, Resumable(ps[k]));
  }

  lemma BudgetedBounds(max: nat, c: Config)
    requires Budgeted(max, c)
    ensures ReviewBudget.Worth(max, c) >= 0
  {
    ReviewBudget.WorthBounds(max, c);
  }

  lemma FreshIsBudgeted(max: nat)
    ensures Budgeted(max, START) && ReviewBudget.Worth(max, START) == 18 + 44 * max
  {
    ReviewBudget.FreshWorth(max);
  }

  lemma StepIsBudgeted(max: nat, c: Config, inp: Input)
    requires Budgeted(max, c) && c.node != End
    ensures Budgeted(max, Step(max, c, inp))
    ensures ReviewBudget.Worth(max, Step(max, c, inp)) <= ReviewBudget.Worth(max, c) - 1
            + if c.node == HumanReview && inp.decision == APPROVED then 2 + 36 * max else 0
  {
    hide Step, WellFormed, ReviewBudget.Untouched, ReviewBudget.Worth;
    StepIsWellFormed(max, c, inp);
    ReviewBudget.UntouchedStep(max, c, inp);
    ReviewBudget.StepCosts(max, c, inp);
  }

  lemma {:induction false} HistoryCosts(max: nat, ps: seq<Process>, es: seq<Event>, k: nat)
    requires IsHistory(max, ps, es) && k <= |es| && forall i :: 0 <= i < k ==> !es[i].Retry?
    ensures Budgeted(max, Resumable(ps[k])) && (ps[k].live.Some? ==> ps[k].live.value == Resumable(ps[k]))
    ensures |Completed(es, 0, k)| + ReviewBudget.Worth(max, Resumable(ps[k]))
            <= (Losses(es, k) + 1) * (18 + 44 * max) + Approvals(ps, es, k) * (2 + 36 * max)
  {
    hide Step, Budgeted, ReviewBudget.Worth;
    FreshIsBudgeted(max);
    if k > 0 {
      HistoryCosts(max, ps, es, k - 1);
      var p, e := ps[k - 1], es[k - 1];
      var f, n := Losses(es, k - 1), Approvals(ps, es, k - 1);
      assert (f + 2) * (18 + 44 * max) == (f + 1) * (18 + 44 * max) + (18 + 44 * max);
      assert (n + 1) * (2 + 36 * max) == n * (2 + 36 * max) + (2 + 36 * max);
      if e.Complete? {
        StepIsBudgeted(max, p.live.value, e.inp);
      } else if e.Forget? {
        BudgetedBounds(max, Resumable(p));
      }
    }
  }

  // ---- with retries: the lineage of a configuration ----

  /** A triage, and the completed nodes that led on from it: the positions of their `Complete` events. */
  datatype Line = Line(origin: Config, steps: seq<nat>)

  /** The lineages of the checkpoint and of the configuration in execution. */
  datatype Lines = Lines(saved: Option<Line>, live: Option<Line>)

  /** A retry starts a lineage, a launch copies the checkpoint's or starts afresh, a completed node extends it. */
  function LinesAt(es: seq<Event>, k: nat): Lines
    requires k <= |es|
  {
    if k == 0 then Lines(None, None)
    else
      var before := LinesAt(es, k - 1);
      match es[k - 1]
      case Launch(resume) =>
        before.(live := if resume && before.saved.Some? then before.saved else Some(Line(START, [])))
      case Retry(origin, written) =>
        var line := Some(Line(origin, []));
        Lines(if written then line else before.saved, line)
      case Complete(_) =>
        if before.live.None? then before
        else
          var longer := Some(Line(before.live.value.origin, before.live.value.steps + [k - 1]));
          Lines(longer, longer)
      case Crash => before.(live := None)
      case Forget => Lines(None, None)
  }

  /** The steps are completed nodes of the history, in its order. */
  ghost predicate AreSteps(ps: seq<Process>, es: seq<Event>, k: nat, steps: seq<nat>)
    requires k <= |es| < |ps|
  {
    && (forall m :: 0 <= m < |steps| ==> steps[m] < k && es[steps[m]].Complete? && ps[steps[m]].live.Some?)
    && (forall m :: 0 < m < |steps| ==> steps[m - 1] < steps[m])
  }

  /** The configurations that executed at the steps, and the one after them. */
  function Executed(ps: seq<Process>, es: seq<Event>, k: nat, line: Line, last: Config): (cs: seq<Config>)
    requires k <= |es| < |ps| && AreSteps(ps, es, k, line.steps)
    ensures |cs| == |line.steps| + 1
  {
    seq(|line.steps|, m requires 0 <= m < |line.steps| => ps[line.steps[m]].live.value) + [last]
  }

  /** What was answered to them. */
  function Answers(ps: seq<Process>, es: seq<Event>, k: nat, line: Line): seq<Input>
    requires k <= |es| < |ps| && AreSteps(ps, es, k, line.steps)
  {
    seq(|line.steps|, m requires 0 <= m < |line.steps| => es[line.steps[m]].inp)
  }

  /** The nodes that executed at the steps, with the answers given there, are a run from the line's triage to `last`. */
  ghost predicate LedTo(max: nat, ps: seq<Process>, es: seq<Event>, k: nat, line: Line, last: Config)
    requires k <= |es| < |ps|
  {
    && AreSteps(ps, es, k, line.steps) && IsStart(max, line.origin)
    && IsRun(max, Executed(ps, es, k, line, last), Answers(ps, es, k, line))
    && Executed(ps, es, k, line, last)[0] == line.origin
  }

  /** The lineages account for what is saved and what is in execution. */
  ghost predicate Accounted(max: nat, ps: seq<Process>, es: seq<Event>, k: nat)
    requires k <= |es| < |ps|
  {
    var p, lines := ps[k], LinesAt(es, k);
    && (p.saved.Some? <==> lines.saved.Some?) && (p.live.Some? <==> lines.live.Some?)
    && (p.saved.Some? ==> LedTo(max, ps, es, k, lines.saved.value, p.saved.value))
    && (p.live.Some? ==> LedTo(max, ps, es, k, lines.live.value, p.live.value))
  }

  lemma StillLedTo(max: nat, ps: seq<Process>, es: seq<Event>, k: nat, line: Line, last: Config)
    requires k < |es| < |ps| && LedTo(max, ps, es, k, line, last)
    ensures LedTo(max, ps, es, k + 1, line, last)
  {
    assert AreSteps(ps, es, k + 1, line.steps);
    assert Executed(ps, es, k + 1, line, last) == Executed(ps, es, k, line, last);
    assert Answers(ps, es, k + 1, line) == Answers(ps, es, k, line);
  }

  lemma BeginsLine(max: nat, ps: seq<Process>, es: seq<Event>, k: nat, origin: Config)
    requires k <= |es| < |ps| && IsStart(max, origin)
    ensures LedTo(max, ps, es, k, Line(origin, []), origin)
  {
  }

  lemma LineGrows(max: nat, ps: seq<Process>, es: seq<Event>, k: nat, line: Line, c: Config)
    requires k < |es| < |ps| && LedTo(max, ps, es, k, line, c)
    requires es[k].Complete? && ps[k].live == Some(c) && c.node != End
    ensures LedTo(max, ps, es, k + 1, Line(line.origin, line.steps + [k]), Step(max, c, es[k].inp))
  {
    hide Step;
    var longer, d := Line(line.origin, line.steps + [k]), Step(max, c, es[k].inp);
    assert AreSteps(ps, es, k + 1, longer.steps);
    var cs, ins := Executed(ps, es, k, line, c), Answers(ps, es, k, line);
    ExtendRun(max, cs, ins, es[k].inp);
    assert Executed(ps, es, k + 1, longer, d) == cs + [d];
    assert Answers(ps, es, k + 1, longer) == ins + [es[k].inp];
  }

  /**
   However a run crashes, resumes, is retried and loses its checkpoints: the nodes of the lineage of what is saved,
   and of what is in execution, form a crash-free run from a triage, over exactly the answers given to them.
   */
  lemma {:induction false} LineagesAreRuns(max: nat, ps: seq<Process>, es: seq<Event>, k: nat)
    requires IsHistory(max, ps, es) && k <= |es|
    ensures Accounted(max, ps, es, k)
  {
    hide Step, LedTo;
    if k > 0 {
      var j: nat := k - 1;
      LineagesAreRuns(max, ps, es, j);
      var lines := LinesAt(es, j);
      if lines.saved.Some? {
        StillLedTo(max, ps, es, j, lines.saved.value, ps[j].saved.value);
      }
      GateSafety.FreshIsStart(max);
      match es[j]
      case Launch(_) => BeginsLine(max, ps, es, k, START);
      case Retry(origin, _) => BeginsLine(max, ps, es, k, origin);
      case Complete(_) => LineGrows(max, ps, es, j, lines.live.value, ps[j].live.value);
      case Crash =>
      case Forget =>
    }
  }

  /** So every gate below the node in execution was passed by the nodes of its lineage. */
  lemma LineagePassesGates(max: nat, ps: seq<Process>, es: seq<Event>, k: nat, gate: Gate)
    requires IsHistory(max, ps, es) && k <= |es| && ps[k].live.Some?
    requires GateRank(gate) < GateSafety.Rank(ps[k].live.value)
    ensures Accounted(max, ps, es, k)
    ensures var line, last := LinesAt(es, k).live.value, ps[k].live.value;
            GateSafety.Passed(Executed(ps, es, k, line, last), Answers(ps, es, k, line), |line.steps|, gate)
  {
    hide Step;
    LineagesAreRuns(max, ps, es, k);
    var line, last := LinesAt(es, k).live.value, ps[k].live.value;
    GateSafety.GatesBelowArePassed(
      max, Executed(ps, es, k, line, last), Answers(ps, es, k, line), |line.steps|, gate);
  }

  /** The completed node that decided a gate, last of its kind in the lineage, and how it was passed. */
  ghost predicate Decided(ps: seq<Process>, es: seq<Event>, k: nat, steps: seq<nat>, gate: Gate, a: nat)
    requires k <= |es| < |ps| && AreSteps(ps, es, k, steps)
  {
    && a in steps && ps[a].live.value.node == GateNode(gate)
    && (forall b :: b in steps && b > a ==> ps[b].live.value.node != GateNode(gate))
    && (Passes(gate, es[a].inp) || exists b :: b in steps && b > a && Overrides(ps, es, b, gate))
  }

  /** At the b-th event a human approved the review that this gate had raised. */
  predicate Overrides(ps: seq<Process>, es: seq<Event>, b: nat, gate: Gate) {
    && b < |es| && b < |ps| && es[b].Complete? && ps[b].live.Some? && ps[b].live.value.node == HumanReview
    && ps[b].live.value.state.escalatedGate == Some(gate) && es[b].inp.decision == APPROVED
  }

  lemma LastStep(ps: seq<Process>, es: seq<Event>, k: nat, line: Line, last: Config, gate: Gate, i: nat)
    requires k <= |es| < |ps| && AreSteps(ps, es, k, line.steps)
    requires GateSafety.LastAt(Executed(ps, es, k, line, last), |line.steps|, gate, i)
    ensures ps[line.steps[i]].live.value.node == GateNode(gate)
    ensures forall b :: b in line.steps && b > line.steps[i] ==> ps[b].live.value.node != GateNode(gate)
  {
    hide GateNode;
    var steps, cs := line.steps, Executed(ps, es, k, line, last);
    assert cs[i] == ps[steps[i]].live.value;
    StepsInOrder(ps, es, k, steps);
    forall b | b in steps && b > steps[i] ensures ps[b].live.value.node != GateNode(gate) {
      var m :| 0 <= m < |steps| && steps[m] == b;
      assert cs[m] == ps[b].live.value;
    }
  }

  lemma OverridingStep(ps: seq<Process>, es: seq<Event>, k: nat, line: Line, last: Config, gate: Gate, i: nat)
    requires k <= |es| < |ps| && AreSteps(ps, es, k, line.steps) && i < |line.steps|
    requires GateSafety.Overridden(Executed(ps, es, k, line, last), Answers(ps, es, k, line), |line.steps|, gate, i)
    ensures exists b :: b in line.steps && b > line.steps[i] && Overrides(ps, es, b, gate)
  {
    var steps, cs, ins := line.steps, Executed(ps, es, k, line, last), Answers(ps, es, k, line);
    var m :| i < m < |steps| && cs[m].node == HumanReview && ins[m].decision == APPROVED
             && cs[m].state.escalatedGate == Some(gate);
    StepsInOrder(ps, es, k, steps);
    assert steps[m] in steps && cs[m] == ps[steps[m]].live.value && Overrides(ps, es, steps[m], gate);
  }

  lemma DecidedAtStep(ps: seq<Process>, es: seq<Event>, k: nat, line: Line, last: Config, gate: Gate)
    returns (a: nat)
    requires k <= |es| < |ps| && AreSteps(ps, es, k, line.steps)
    requires GateSafety.Passed(Executed(ps, es, k, line, last), Answers(ps, es, k, line), |line.steps|, gate)
    ensures Decided(ps, es, k, line.steps, gate, a)
  {
    hide Passes, GateNode, Overrides, GateSafety.Overridden, Executed;
    var cs, ins, steps := Executed(ps, es, k, line, last), Answers(ps, es, k, line), line.steps;
    var i: nat :| GateSafety.LastAt(cs, |steps|, gate, i)
                  && (Passes(gate, ins[i]) || GateSafety.Overridden(cs, ins, |steps|, gate, i));
    a := steps[i];
    LastStep(ps, es, k, line, last, gate, i);
    if !Passes(gate, ins[i]) {
      OverridingStep(ps, es, k, line, last, gate, i);
    }
  }

  /**
   A run that was retried, resumed and forgotten at will, and is delivered, has passed all nine gates: each was
   passed by a node of the history that completed in its lineage, or overridden by a human review that did.
   */
  lemma RetriedDeliveryPassedEveryGate(max: nat, ps: seq<Process>, es: seq<Event>, k: nat, gate: Gate)
    returns (a: nat)
    requires IsHistory(max, ps, es) && k <= |es| && ps[k].live.Some? && GateSafety.Rank(ps[k].live.value) == LAST
    ensures LinesAt(es, k).live.Some? && AreSteps(ps, es, k, LinesAt(es, k).live.value.steps)
    ensures Decided(ps, es, k, LinesAt(es, k).live.value.steps, gate, a)
  {
    hide Step, GateSafety.Rank, GateSafety.Passed, Decided, LedTo;
    GateRanks(gate);
    LineagePassesGates(max, ps, es, k, gate);
    LineSteps(max, ps, es, k);
    a := DecidedAtStep(ps, es, k, LinesAt(es, k).live.value, ps[k].live.value, gate);
  }

  lemma LineSteps(max: nat, ps: seq<Process>, es: seq<Event>, k: nat)
    requires k <= |es| < |ps| && Accounted(max, ps, es, k) && ps[k].live.Some?
    ensures LinesAt(es, k).live.Some? && AreSteps(ps, es, k, LinesAt(es, k).live.value.steps)
  {
  }

  lemma {:induction false} StepsInOrder(ps: seq<Process>, es: seq<Event>, k: nat, steps: seq<nat>)
    requires k <= |es| < |ps| && AreSteps(ps, es, k, steps)
    ensures forall i, j :: 0 <= i < j < |steps| ==> steps[i] < steps[j]
  {
    if steps != [] {
      var init := steps[..|steps| - 1];
      assert forall m :: 0 <= m < |init| ==> init[m] == steps[m];
      StepsInOrder(ps, es, k, init);
      assert |init| > 0 ==> steps[|init| - 1] < steps[|init|];
      assert forall i :: 0 <= i < |init| ==> init[i] <= init[|init| - 1];
    }
  }

  /** Such histories exist, with every kind of disturbance, whatever the completed nodes are answered. */
  lemma DisturbancesHappen(max: nat, a: Input, b: Input) returns (ps: seq<Process>, es: seq<Event>)
    ensures IsHistory(max, ps, es)
    ensures es == [Launch(false), Complete(a), Crash, Launch(true), Complete(b), Crash, Forget, Launch(true), Crash,
                   Retry(START, true)]
    ensures ps[5].saved == ps[5].live == Some(Step(max, Step(max, START, a), b)) && ps[10].live == Some(START)
  {
    hide Step;
    StepLeavesTriage(max, a);
    var c, d := Step(max, START, a), Step(max, Step(max, START, a), b);
    GateSafety.FreshIsStart(max);
    es := [Launch(false), Complete(a), Crash, Launch(true), Complete(b), Crash, Forget, Launch(true), Crash,
           Retry(START, true)];
    ps := [IDLE, Process(None, Some(START)), Process(Some(c), Some(c)), Process(Some(c), None),
           Process(Some(c), Some(c)), Process(Some(d), Some(d)), Process(Some(d), None), IDLE,
           Process(None, Some(START)), IDLE, Process(Some(START), Some(START))];
  }

  lemma StepLeavesTriage(max: nat, a: Input)
    ensures Step(max, START, a).node == Work(IntakeAnalysis)
  {
    PlainStep(max, START, a);
  }
}
