/** How long the delivery graph can run without a human, by a potential that every step spends. */
module Budget {
  import opened Wrappers
  import opened Agents
  import opened DeliveryState
  import opened DeliveryGraph
  import opened MainLine

  /** Nodes still to execute up to and including `Delivered` if every gate passes from here on. */
  function Distance(n: Node): nat {
    match n
    case Work(stage) => 16 - StageRank(stage)
    case ScopeApproval => 12
    case ReleaseApproval => 2
    case IntakeClarification => GateDistance(IntakeGate) - 1
    case Cycle(gate) => GateDistance(gate) - 1
    case Escalate(_) => 1
    case Delivered => 1
    case Cancelled => 1
    case HumanReview => 0
    case End => 0
  }

  function GateDistance(gate: Gate): (d: nat)
    ensures d > 0
  {
    16 - GateRank(gate)
  }

  /** The price of one rejection of a gate. */
  function Cost(gate: Gate): int {
    match gate
    case IntakeGate => 2
    case ScopeGate => 4
    case ArchitectureGate => 2
    case CodeReviewGate => 3
    case TestsGate => 4
    case QaGate => 5
    case SecurityGate => 6
    case OperationalGate => 8
    case ReleaseGate => 10
  }

  /** It is what a rejection makes the run execute: the counter, and the way back up to and including the gate. */
  lemma CostIsTheWayBack(gate: Gate)
    ensures Cost(gate) == Distance(CycleTarget(gate)) - Distance(GateNode(gate)) + 2
  {
  }

  function Left(max: nat, s: State, gate: Gate): int {
    max - Count(s, gate)
  }

  /** What the cycles left to all gates would cost. */
  function Unspent(max: nat, s: State): int {
    2 * Left(max, s, IntakeGate) + 4 * Left(max, s, ScopeGate) + 2 * Left(max, s, ArchitectureGate)
    + 3 * Left(max, s, CodeReviewGate) + 4 * Left(max, s, TestsGate) + 5 * Left(max, s, QaGate)
    + 6 * Left(max, s, SecurityGate) + 8 * Left(max, s, OperationalGate) + 10 * Left(max, s, ReleaseGate)
  }

  function Potential(max: nat, c: Config): int {
    Unspent(max, c.state) + Distance(c.node)
  }

  lemma UnspentBounds(max: nat, s: State)
    requires forall gate :: Count(s, gate) <= max
    ensures 0 <= Unspent(max, s) <= 44 * max
    ensures (forall gate :: Count(s, gate) == 0) ==> Unspent(max, s) == 44 * max
    ensures (forall gate :: Count(s, gate) == max) ==> Unspent(max, s) == 0
  {
    hide Count;
  }

  lemma SameCountsSameUnspent(max: nat, s: State, t: State)
    requires s.cycles == t.cycles
    ensures Unspent(max, s) == Unspent(max, t)
  {
    assert forall gate :: Count(s, gate) == Count(t, gate);
  }

  lemma OneCycleSpends(max: nat, s: State, t: State, gate: Gate)
    requires forall g :: Count(t, g) == Count(s, g) + if g == gate then 1 else 0
    ensures Unspent(max, t) == Unspent(max, s) - Cost(gate)
  {
    hide Count;
  }

  lemma GateSpends(max: nat, c: Config, inp: Input, gate: Gate)
    requires c.node == GateNode(gate)
    ensures Potential(max, Step(max, c, inp)) <= Potential(max, c) - 1
    ensures !Step(max, c, inp).node.Escalate? ==> Potential(max, Step(max, c, inp)) == Potential(max, c) - 1
  {
    hide Step, Unspent, Passes;
    GateStep(max, c, inp, gate);
    ControlFrame(max, c, inp);
    SameCountsSameUnspent(max, c.state, Step(max, c, inp).state);
    GateDistances(gate);
    assert Distance(CycleNode(gate)) == GateDistance(gate) - 1 && Distance(Escalate(gate)) < GateDistance(gate);
  }

  lemma CycleSpends(max: nat, c: Config, inp: Input, gate: Gate)
    requires c.node == CycleNode(gate)
    ensures Potential(max, Step(max, c, inp)) == Potential(max, c) - 1 && !Step(max, c, inp).node.Escalate?
  {
    hide Step, Unspent;
    CycleStep(max, c, inp, gate);
    OneCycleSpends(max, c.state, Step(max, c, inp).state, gate);
    CostIsTheWayBack(gate);
    GateDistances(gate);
    assert Distance(CycleNode(gate)) == GateDistance(gate) - 1;
  }

  /** Outside the human review every step spends potential, exactly one unit unless it escalates. */
  lemma StepSpends(max: nat, c: Config, inp: Input)
    requires WellFormed(max, c) && c.node != End && c.node != HumanReview
    ensures Potential(max, Step(max, c, inp)) <= Potential(max, c) - 1
    ensures !Step(max, c, inp).node.Escalate? ==> Potential(max, Step(max, c, inp)) == Potential(max, c) - 1
  {
    hide Step, Unspent;
    var d := Step(max, c, inp);
    NodeKinds(c.node);
    if IsGateNode(c.node) {
      hide Potential;
      GateSpends(max, c, inp, GateOf(c.node));
    } else if IsPlain(c.node) {
      PlainStep(max, c, inp);
      SameCountsSameUnspent(max, c.state, d.state);
    } else if c.node.Escalate? {
      EscalateStep(max, c, inp, c.node.gate);
      SameCountsSameUnspent(max, c.state, d.state);
    } else {
      hide Potential;
      CycleSpends(max, c, inp, if c.node.Cycle? then c.node.gate else IntakeGate);
    }
  }

  // ---- runs without a human review ----

  ghost predicate ReviewFree(cs: seq<Config>, k: nat)
    requires k <= |cs|
  {
    forall i :: 0 <= i < k ==> cs[i].node != HumanReview
  }

  lemma {:induction false} RunSpends(max: nat, cs: seq<Config>, ins: seq<Input>, k: nat)
    requires IsRun(max, cs, ins) && WellFormed(max, cs[0]) && k <= |ins| && ReviewFree(cs, k)
    ensures Potential(max, cs[k]) + k <= Potential(max, cs[0])
  {
    hide Step, Potential, WellFormed;
    if k > 0 {
      RunSpends(max, cs, ins, k - 1);
      RunIsWellFormed(max, cs, ins, k - 1);
      StepSpends(max, cs[k - 1], ins[k - 1]);
    }
  }

  lemma PotentialBounds(max: nat, c: Config)
    requires WellFormed(max, c)
    ensures 0 <= Potential(max, c) <= 16 + 44 * max
  {
    UnspentBounds(max, c.state);
    DistanceBound(c.node);
  }

  lemma DistanceBound(n: Node)
    ensures Distance(n) <= 16
  {
  }

  /**
   From any well-formed configuration at most `Potential` (itself at most 16 + 44 max) nodes execute before
   the run ends or reaches a human review, and at most one more up to and including the review.
   */
  lemma HumanFreeBound(max: nat, cs: seq<Config>, ins: seq<Input>)
    requires IsRun(max, cs, ins) && WellFormed(max, cs[0])
    ensures ReviewFree(cs, |ins|) ==> |ins| <= Potential(max, cs[0]) <= 16 + 44 * max
    ensures |ins| > 0 && ReviewFree(cs, |ins| - 1) ==> |ins| <= Potential(max, cs[0]) + 1 <= 17 + 44 * max
  {
    hide Step, Potential, WellFormed;
    PotentialBounds(max, cs[0]);
    if ReviewFree(cs, |ins|) {
      RunSpends(max, cs, ins, |ins|);
      RunIsWellFormed(max, cs, ins, |ins|);
      PotentialBounds(max, cs[|ins|]);
    } else if |ins| > 0 && ReviewFree(cs, |ins| - 1) {
      RunSpends(max, cs, ins, |ins| - 1);
      RunIsWellFormed(max, cs, ins, |ins| - 1);
      PotentialBounds(max, cs[|ins| - 1]);
    }
  }

  // ---- the bound is attained ----

  /** The distance of a node, a counter's being that of its gate. */
  function Standing(n: Node): nat {
    Distance(n) + if n.Cycle? || n == IntakeClarification then 1 else 0
  }

  /** Every gate already passed on the way to `c` has no cycle left. */
  ghost predicate SpentBehind(max: nat, c: Config) {
    forall gate :: GateDistance(gate) > Standing(c.node) ==> Count(c.state, gate) == max
  }

  predicate OnTheWay(n: Node) {
    !n.Escalate? && n != HumanReview && n != Cancelled && n != End
  }

  function GreedyInput(max: nat, c: Config): Input {
    if IsGateNode(c.node) && Count(c.state, GateOf(c.node)) < max then REJECT else PASS
  }

  lemma GateDistances(gate: Gate)
    ensures Distance(GateNode(gate)) == GateDistance(gate)
    ensures Distance(ResumeAfter(gate)) == GateDistance(gate) - 1
    ensures GateDistance(gate) <= Distance(CycleTarget(gate))
    ensures forall g :: GateDistance(g) == GateDistance(gate) ==> g == gate
    ensures GateDistance(gate) > 1
    ensures OnTheWay(ResumeAfter(gate)) && OnTheWay(CycleTarget(gate))
    ensures !ResumeAfter(gate).Cycle? && ResumeAfter(gate) != IntakeClarification
    ensures !CycleTarget(gate).Cycle? && CycleTarget(gate) != IntakeClarification
  {
  }

  lemma StandingAtGate(gate: Gate)
    ensures Standing(GateNode(gate)) == Standing(CycleNode(gate)) == GateDistance(gate)
    ensures Standing(ResumeAfter(gate)) == GateDistance(gate) - 1
    ensures OnTheWay(CycleNode(gate)) && OnTheWay(ResumeAfter(gate))
  {
  }

  lemma GreedyAtGate(max: nat, c: Config, gate: Gate)
    requires WellFormed(max, c) && SpentBehind(max, c) && c.node == GateNode(gate)
    ensures var d := Step(max, c, GreedyInput(max, c));
            SpentBehind(max, d) && OnTheWay(d.node)
  {
    hide Step, Count, Passes, Standing, GateDistance, CycleNode, ResumeAfter, OnTheWay;
    var inp := GreedyInput(max, c);
    PassAndReject();
    GateStep(max, c, inp, gate);
    ControlFrame(max, c, inp);
    SameCounts(c.state, Step(max, c, inp).state);
    GateDistances(gate);
    StandingAtGate(gate);
  }

  lemma GreedyStep(max: nat, c: Config)
    requires WellFormed(max, c) && SpentBehind(max, c) && OnTheWay(c.node) && c.node != Delivered
    ensures var d := Step(max, c, GreedyInput(max, c));
            SpentBehind(max, d) && OnTheWay(d.node)
  {
    hide Step, Count, Passes;
    var inp := GreedyInput(max, c);
    var d := Step(max, c, inp);
    PassAndReject();
    NodeKinds(c.node);
    if IsGateNode(c.node) {
      GreedyAtGate(max, c, GateOf(c.node));
    } else if IsPlain(c.node) {
      PlainStep(max, c, inp);
      SameCounts(c.state, d.state);
      forall gate ensures GateDistance(gate) != Distance(c.node) {
        GateDistances(gate);
      }
    } else {
      var gate := if c.node.Cycle? then c.node.gate else IntakeGate;
      CycleStep(max, c, inp, gate);
      GateDistances(gate);
    }
  }

  lemma DeliveredStep(max: nat, c: Config, inp: Input)
    requires c.node == Delivered
    ensures Step(max, c, inp).node == End
    ensures Step(max, c, inp).state.currentStage == Some(AtDelivered)
  {
  }

  /** Reject wherever a cycle is left, pass otherwise: every unit of potential becomes one executed node. */
  lemma {:induction false} Greedy(max: nat, c: Config) returns (cs: seq<Config>, ins: seq<Input>)
    requires WellFormed(max, c) && SpentBehind(max, c) && OnTheWay(c.node)
    ensures IsRun(max, cs, ins) && cs[0] == c && ReviewFree(cs, |ins|)
    ensures |ins| == Potential(max, c)
    ensures cs[|ins|].node == End && cs[|ins|].state.currentStage == Some(AtDelivered)
    decreases Potential(max, c)
  {
    hide Step, Unspent, WellFormed;
    PotentialBounds(max, c);
    if c.node == Delivered {
      var d := Step(max, c, PASS);
      DeliveredStep(max, c, PASS);
      AllSpent(max, c);
      cs, ins := [c, d], [PASS];
    } else {
      var inp := GreedyInput(max, c);
      var d := Step(max, c, inp);
      GreedyStep(max, c);
      StepSpends(max, c, inp);
      StepIsWellFormed(max, c, inp);
      cs, ins := Greedy(max, d);
      PrependRun(max, c, inp, cs, ins);
      cs, ins := [c] + cs, [inp] + ins;
    }
  }

  /** The same, rejecting the release once more when its cycles are spent: one node more, the last a human review. */
  lemma {:induction false} GreedyToReview(max: nat, c: Config) returns (cs: seq<Config>, ins: seq<Input>)
    requires WellFormed(max, c) && SpentBehind(max, c) && OnTheWay(c.node) && c.node != Delivered
    ensures IsRun(max, cs, ins) && cs[0] == c && |ins| >= 1 && |ins| == Potential(max, c) + 1
    ensures ReviewFree(cs, |ins| - 1) && cs[|ins| - 1].node == HumanReview
    decreases Potential(max, c)
  {
    hide Step, Unspent, WellFormed, SpentBehind, GreedyInput, Distance;
    PotentialBounds(max, c);
    GateDistances(ReleaseGate);
    if c.node == ReleaseApproval && Count(c.state, ReleaseGate) >= max {
      CountsWithin(max, c);
      AllSpent(max, c);
      cs, ins := ReleaseRefused(max, c);
    } else {
      var inp := GreedyInput(max, c);
      var d := Step(max, c, inp);
      GreedyStep(max, c);
      NoIntakeCycle(max, c);
      GreedyNotYetDelivered(max, c);
      StepSpends(max, c, inp);
      StepIsWellFormed(max, c, inp);
      var ds, js := GreedyToReview(max, d);
      PrependRun(max, c, inp, ds, js);
      cs, ins := [c] + ds, [inp] + js;
      ReviewLast(cs, ins, ds, js);
    }
  }

  lemma ReviewLast(cs: seq<Config>, ins: seq<Input>, ds: seq<Config>, js: seq<Input>)
    requires |ds| == |js| + 1 && |js| >= 1 && |ins| == |js| + 1 && |cs| == |ins| + 1 && cs[1..] == ds
    requires ReviewFree(ds, |js| - 1) && ds[|js| - 1].node == HumanReview && cs[0].node != HumanReview
    ensures ReviewFree(cs, |ins| - 1) && cs[|ins| - 1].node == HumanReview
  {
    assert forall i :: 0 < i <= |ins| ==> cs[i] == ds[i - 1];
  }

  lemma ReleaseRefused(max: nat, c: Config) returns (cs: seq<Config>, ins: seq<Input>)
    requires c.node == ReleaseApproval && Count(c.state, ReleaseGate) >= max
    ensures IsRun(max, cs, ins) && cs[0] == c && |ins| == 3
    ensures ReviewFree(cs, 2) && cs[2].node == HumanReview
  {
    hide Step;
    PassAndReject();
    var d := Step(max, c, REJECT);
    GateStep(max, c, REJECT, ReleaseGate);
    var e := Step(max, d, PASS);
    EscalateStep(max, d, PASS, ReleaseGate);
    cs, ins := [c, d, e, Step(max, e, PASS)], [REJECT, PASS, PASS];
  }

  lemma GreedyNotYetDelivered(max: nat, c: Config)
    requires OnTheWay(c.node) && c.node != Delivered && c.node != Cycle(IntakeGate)
    requires c.node == ReleaseApproval ==> Count(c.state, ReleaseGate) < max
    ensures Step(max, c, GreedyInput(max, c)).node != Delivered
  {
    hide Step;
    var inp := GreedyInput(max, c);
    PassAndReject();
    NodeKinds(c.node);
    if IsGateNode(c.node) {
      GateStep(max, c, inp, GateOf(c.node));
    } else if IsPlain(c.node) {
      PlainStep(max, c, inp);
    } else {
      CycleStep(max, c, inp, if c.node.Cycle? then c.node.gate else IntakeGate);
    }
  }

  lemma AllSpent(max: nat, c: Config)
    requires WellFormed(max, c) && SpentBehind(max, c)
    requires c.node == Delivered || (c.node == ReleaseApproval && Count(c.state, ReleaseGate) == max)
    ensures Unspent(max, c.state) == 0
  {
    hide Unspent;
    forall gate ensures Count(c.state, gate) == max {
      GateDistances(gate);
      GateDistances(ReleaseGate);
    }
    UnspentBounds(max, c.state);
  }

  lemma NoIntakeCycle(max: nat, c: Config)
    requires WellFormed(max, c)
    ensures c.node != Cycle(IntakeGate)
  {
  }

  lemma CountsWithin(max: nat, c: Config)
    requires WellFormed(max, c)
    ensures forall gate :: Count(c.state, gate) <= max
  {
  }

  lemma FreshPotential(max: nat)
    ensures WellFormed(max, START) && SpentBehind(max, START) && Potential(max, START) == 16 + 44 * max
  {
    hide Unspent;
    UnspentBounds(max, INITIAL);
    assert SpentBehind(max, START) by {
      forall gate ensures GateDistance(gate) < 16 {
      }
    }
  }

  /** The human-free bound from a fresh run is exact, for every budget. */
  lemma BoundIsAttained(max: nat) returns (cs: seq<Config>, ins: seq<Input>)
    ensures IsRun(max, cs, ins) && cs[0] == START && ReviewFree(cs, |ins|)
    ensures |ins| == 16 + 44 * max
    ensures cs[|ins|].node == End && cs[|ins|].state.currentStage == Some(AtDelivered)
  {
    hide Step, Potential, WellFormed, SpentBehind;
    FreshPotential(max);
    cs, ins := Greedy(max, START);
  }

  /** So is the bound up to and including the first human review. */
  lemma ReviewBoundIsAttained(max: nat) returns (cs: seq<Config>, ins: seq<Input>)
    ensures IsRun(max, cs, ins) && cs[0] == START && |ins| == 17 + 44 * max
    ensures ReviewFree(cs, |ins| - 1) && cs[|ins| - 1].node == HumanReview
  {
    hide Step, Potential, WellFormed, SpentBehind;
    FreshPotential(max);
    cs, ins := GreedyToReview(max, START);
  }

  /** A limit on executed nodes accommodates every human-free run exactly when it is at least 16 + 44 max. */
  lemma HumanFreeRunsFit(max: nat, limit: nat)
    ensures (forall cs, ins :: IsRun(max, cs, ins) && cs[0] == START && ReviewFree(cs, |ins|) ==> |ins| <= limit)
            <==> 16 + 44 * max <= limit
  {
    hide Step, Potential, WellFormed;
    var cs, ins := BoundIsAttained(max);
    if 16 + 44 * max <= limit {
      forall cs, ins | IsRun(max, cs, ins) && cs[0] == START && ReviewFree(cs, |ins|) ensures |ins| <= limit {
        FreshPotential(max);
        HumanFreeBound(max, cs, ins);
      }
    }
  }

  // ---- runs with human reviews ----

  /** How many of the first `k` executions are an approved human review. */
  ghost function Reviews(cs: seq<Config>, ins: seq<Input>, k: nat): nat
    requires |cs| == |ins| + 1 && k <= |ins|
  {
    if k == 0 then 0
    else Reviews(cs, ins, k - 1) + if cs[k - 1].node == HumanReview && ins[k - 1].decision == APPROVED then 1 else 0
  }

  /** Nodes that may still execute if no further review is approved. */
  function Reserve(max: nat, c: Config): int {
    if c.node == End then 0
    else if c.node == Cancelled then 1
    else if c.node == HumanReview then 2
    else Potential(max, c) + 2
  }

  lemma StepReserve(max: nat, c: Config, inp: Input)
    requires WellFormed(max, c) && c.node != End
    ensures Reserve(max, Step(max, c, inp))
            <= Reserve(max, c) - 1 + if c.node == HumanReview && inp.decision == APPROVED then 15 + 44 * max else 0
  {
    hide Step, Unspent;
    var d := Step(max, c, inp);
    StepIsWellFormed(max, c, inp);
    PotentialBounds(max, d);
    NodeKinds(c.node);
    if c.node == HumanReview {
      HumanStep(max, c, inp);
      GateDistances(c.state.escalatedGate.value);
      CountsWithin(max, d);
      UnspentBounds(max, d.state);
      assert Distance(ResumeAfter(c.state.escalatedGate.value)) <= 14;
    } else {
      StepSpends(max, c, inp);
      CancelOnlyAfterReview(max, c, inp);
      if IsPlain(c.node) {
        PlainStep(max, c, inp);
      }
    }
  }

  lemma CancelOnlyAfterReview(max: nat, c: Config, inp: Input)
    requires c.node != HumanReview && c.node != End && c.node != Cycle(IntakeGate)
    ensures Step(max, c, inp).node != Cancelled
  {
    hide Step;
    NodeKinds(c.node);
    if IsGateNode(c.node) {
      GateStep(max, c, inp, GateOf(c.node));
    } else if IsPlain(c.node) {
      PlainStep(max, c, inp);
    } else if c.node.Escalate? {
      EscalateStep(max, c, inp, c.node.gate);
    } else {
      CycleStep(max, c, inp, if c.node.Cycle? then c.node.gate else IntakeGate);
    }
  }

  lemma {:induction false} RunReserve(max: nat, cs: seq<Config>, ins: seq<Input>, k: nat)
    requires IsRun(max, cs, ins) && WellFormed(max, cs[0]) && k <= |ins|
    ensures k + Reserve(max, cs[k]) <= Reserve(max, cs[0]) + Reviews(cs, ins, k) * (15 + 44 * max)
  {
    hide Step, Reserve, WellFormed;
    if k > 0 {
      RunReserve(max, cs, ins, k - 1);
      RunIsWellFormed(max, cs, ins, k - 1);
      StepReserve(max, cs[k - 1], ins[k - 1]);
      var n := Reviews(cs, ins, k - 1);
      assert (n + 1) * (15 + 44 * max) == n * (15 + 44 * max) + (15 + 44 * max);
    }
  }

  /**
   With k approved reviews at most 18 + 44 max + k (15 + 44 max) nodes execute, less than
   (k + 1) (17 + 44 max) + 2; hence there is no unbounded loop without a human.
   */
  lemma ReviewedBound(max: nat, cs: seq<Config>, ins: seq<Input>, k: nat)
    requires IsRun(max, cs, ins) && WellFormed(max, cs[0]) && Reviews(cs, ins, |ins|) == k
    ensures |ins| <= 18 + 44 * max + k * (15 + 44 * max)
  {
    hide Step, Potential, WellFormed;
    RunReserve(max, cs, ins, |ins|);
    PotentialBounds(max, cs[0]);
    RunIsWellFormed(max, cs, ins, |ins|);
    PotentialBounds(max, cs[|ins|]);
  }
}
