/**
 How long runs with human reviews are, exactly. A review renews all counters, but the gates before the planning are
 never executed again once passed, so a renewal is worth less than a fresh budget.
 */
module ReviewBudget {
  import opened Wrappers
  import opened DeliveryState
  import opened DeliveryGraph
  import opened MainLine
  import opened Budget
  import opened GateSafety
  import Escalation

  // ---- what is still reachable ----

  /** The cycles left to a gate that a run standing at this rank can still execute. */
  function Ahead(max: nat, s: State, gate: Gate, rank: nat): int {
    if rank <= GateRank(gate) then Left(max, s, gate) else 0
  }

  /** The gates from the code review on can be executed again from everywhere, the three before the planning cannot. */
  function Reachable(max: nat, s: State, rank: nat): int {
    2 * Ahead(max, s, IntakeGate, rank) + 4 * Ahead(max, s, ScopeGate, rank) + 2 * Ahead(max, s, ArchitectureGate, rank)
    + 3 * Left(max, s, CodeReviewGate) + 4 * Left(max, s, TestsGate) + 5 * Left(max, s, QaGate)
    + 6 * Left(max, s, SecurityGate) + 8 * Left(max, s, OperationalGate) + 10 * Left(max, s, ReleaseGate)
  }

  /** Nodes that may still execute, less what further approved reviews add. */
  function Worth(max: nat, c: Config): int {
    match c.node
    case End => 0
    case Cancelled => 1
    case HumanReview =>
      (match c.state.escalatedGate
       case Some(gate) => Reachable(max, c.state, GateRank(gate)) + GateDistance(gate)
       case None => 0)
    case Escalate(gate) => Reachable(max, c.state, GateRank(gate)) + GateDistance(gate) + 1
    case _ => Reachable(max, c.state, NodeRank(c.node)) + Distance(c.node) + 2
  }

  /** A gate that the run has not reached yet has not cycled. */
  ghost predicate Untouched(c: Config) {
    Going(c) ==>
      && (Rank(c) < 2 ==> Count(c.state, ScopeGate) == 0)
      && (Rank(c) < 5 ==> Count(c.state, ArchitectureGate) == 0)
  }

  lemma UntouchedStep(max: nat, c: Config, inp: Input)
    requires WellFormed(max, c) && c.node != End && Untouched(c)
    ensures Untouched(Step(max, c, inp))
  {
    hide Step, WellFormed, Count, Rank;
    var d := Step(max, c, inp);
    if Going(d) {
      if Rank(d) < 5 {
        BelowFloor(max, c, inp, 5);
        Escalation.CountersOnlyReset(max, c, inp, ArchitectureGate);
      }
      if Rank(d) < 2 {
        BelowFloor(max, c, inp, 2);
        Escalation.CountersOnlyReset(max, c, inp, ScopeGate);
      }
    }
  }

  /** Below a point of no return a run stands at no gate beyond it, and stood below it before. */
  lemma BelowFloor(max: nat, c: Config, inp: Input, floor: nat)
    requires WellFormed(max, c) && c.node != End && (floor == 2 || floor == 5)
    requires Going(Step(max, c, inp)) && Rank(Step(max, c, inp)) < floor
    ensures Going(c) && Rank(c) < floor
    ensures c.node != CycleNode(ArchitectureGate) && (floor == 2 ==> c.node != CycleNode(ScopeGate))
  {
    hide Step, WellFormed;
    if Rank(c) >= floor {
      FloorStep(max, c, inp, floor);
    }
    if c.node == Cancelled {
      FinalStep(max, c, inp);
    }
  }

  lemma ReachableBounds(max: nat, s: State, rank: nat)
    requires forall gate :: Count(s, gate) <= max
    ensures 0 <= Reachable(max, s, rank)
    ensures rank == 0 && (forall gate :: Count(s, gate) == 0) ==> Reachable(max, s, rank) == 44 * max
  {
  }

  lemma WorthBounds(max: nat, c: Config)
    requires WellFormed(max, c)
    ensures Worth(max, c) >= 0
    ensures c.node == HumanReview ==> Worth(max, c) >= 2
  {
    hide Count, Reachable;
    match c.node
    case HumanReview => ReachableBounds(max, c.state, GateRank(c.state.escalatedGate.value));
    case Escalate(gate) => ReachableBounds(max, c.state, GateRank(gate));
    case _ => ReachableBounds(max, c.state, NodeRank(c.node));
  }

  // ---- what one step costs, and what a review is worth ----

  lemma SameCountsSameReachable(max: nat, s: State, t: State, before: nat, after: nat)
    requires s.cycles == t.cycles && before <= after && forall gate :: Count(s, gate) <= max
    ensures Reachable(max, t, after) <= Reachable(max, s, before)
    ensures before == after ==> Reachable(max, t, after) == Reachable(max, s, before)
  {
    SameCounts(s, t);
    hide Count;
  }

  lemma GateCosts(max: nat, c: Config, inp: Input, gate: Gate)
    requires WellFormed(max, c) && c.node == GateNode(gate)
    ensures Worth(max, Step(max, c, inp)) <= Worth(max, c) - 1
  {
    hide Step, Count, Passes, Reachable;
    var d := Step(max, c, inp);
    GateStep(max, c, inp, gate);
    ControlFrame(max, c, inp);
    GateRanks(gate);
    GateDistances(gate);
    CostIsTheWayBack(gate);
    SameCountsSameReachable(max, c.state, d.state, GateRank(gate), GateRank(gate));
    SameCountsSameReachable(max, c.state, d.state, GateRank(gate), GateRank(gate) + 1);
    SideDistance(gate);
  }

  lemma SideDistance(gate: Gate)
    ensures Distance(CycleNode(gate)) == GateDistance(gate) - 1 && !CycleNode(gate).Escalate?
    ensures !ResumeAfter(gate).Escalate? && !GateNode(gate).Escalate?
    ensures !CycleTarget(gate).Escalate?
  {
  }

  lemma CycleReachable(max: nat, s: State, t: State, gate: Gate)
    requires forall g :: Count(t, g) == Count(s, g) + if g == gate then 1 else 0
    ensures Reachable(max, t, NodeRank(CycleTarget(gate))) == Reachable(max, s, GateRank(gate)) - Cost(gate)
  {
    hide Count;
  }

  lemma CycleCosts(max: nat, c: Config, inp: Input, gate: Gate)
    requires c.node == CycleNode(gate)
    ensures Worth(max, Step(max, c, inp)) == Worth(max, c) - 1
  {
    hide Step, Count, Reachable;
    CycleStep(max, c, inp, gate);
    CycleReachable(max, c.state, Step(max, c, inp).state, gate);
    GateRanks(gate);
    GateDistances(gate);
    CostIsTheWayBack(gate);
    SideDistance(gate);
  }

  lemma ResumeReachable(max: nat, s: State, t: State, gate: Gate)
    requires (forall g :: Count(s, g) <= max) && (forall g :: Count(t, g) == 0)
    requires GateRank(gate) < 2 ==> Count(s, ScopeGate) == 0
    requires GateRank(gate) < 5 ==> Count(s, ArchitectureGate) == 0
    ensures Reachable(max, t, GateRank(gate) + 1) <= Reachable(max, s, GateRank(gate)) + 36 * max
  {
    hide Count;
  }

  /** An approved review adds at most 2 + 36 max. */
  lemma ReviewAdds(max: nat, c: Config, inp: Input)
    requires WellFormed(max, c) && Untouched(c) && c.node == HumanReview
    ensures Worth(max, Step(max, c, inp)) <= Worth(max, c) - 1 + if inp.decision == APPROVED then 2 + 36 * max else 0
  {
    hide Step, Count, Reachable;
    var gate := c.state.escalatedGate.value;
    HumanStep(max, c, inp);
    WorthBounds(max, c);
    if inp.decision == APPROVED {
      GateRanks(gate);
      GateDistances(gate);
      SideDistance(gate);
      ResumeReachable(max, c.state, Step(max, c, inp).state, gate);
    }
  }

  lemma StepCosts(max: nat, c: Config, inp: Input)
    requires WellFormed(max, c) && Untouched(c) && c.node != End
    ensures Worth(max, Step(max, c, inp)) <=
            Worth(max, c) - 1 + if c.node == HumanReview && inp.decision == APPROVED then 2 + 36 * max else 0
  {
    hide Step, Count, Worth, Untouched;
    NodeKinds(c.node);
    if IsGateNode(c.node) {
      GateCosts(max, c, inp, GateOf(c.node));
    } else if IsPlain(c.node) {
      PlainCosts(max, c, inp);
    } else if c.node.Escalate? {
      EscalateCosts(max, c, inp);
    } else if c.node == HumanReview {
      ReviewAdds(max, c, inp);
    } else {
      CycleCosts(max, c, inp, if c.node.Cycle? then c.node.gate else IntakeGate);
    }
  }

  lemma PlainCosts(max: nat, c: Config, inp: Input)
    requires WellFormed(max, c) && IsPlain(c.node)
    ensures Worth(max, Step(max, c, inp)) <= Worth(max, c) - 1
  {
    hide Step, Count, Reachable;
    var d := Step(max, c, inp);
    PlainStep(max, c, inp);
    WorthBounds(max, c);
    if c.node == Delivered {
      ReachableBounds(max, c.state, LAST);
    } else if c.node != Cancelled {
      PlainRanks(c.node);
      PlainDistance(c.node);
      SameCountsSameReachable(max, c.state, d.state, NodeRank(c.node), NodeRank(c.node) + 1);
    }
  }

  lemma PlainDistance(n: Node)
    requires IsPlain(n) && n != Delivered && n != Cancelled
    ensures Distance(PlainNext(n)) == Distance(n) - 1 && !PlainNext(n).Escalate?
  {
  }

  lemma EscalateCosts(max: nat, c: Config, inp: Input)
    requires WellFormed(max, c) && c.node.Escalate?
    ensures Worth(max, Step(max, c, inp)) == Worth(max, c) - 1
  {
    hide Step, Count, Reachable;
    EscalateStep(max, c, inp, c.node.gate);
    SameCountsSameReachable(max, c.state, Step(max, c, inp).state, GateRank(c.node.gate), GateRank(c.node.gate));
  }

  // ---- the bound ----

  lemma {:induction false} RunCosts(max: nat, cs: seq<Config>, ins: seq<Input>, k: nat)
    requires IsRun(max, cs, ins) && cs[0] == START && k <= |ins|
    ensures WellFormed(max, cs[k]) && Untouched(cs[k])
    ensures k + Worth(max, cs[k]) <= 18 + 44 * max + Reviews(cs, ins, k) * (2 + 36 * max)
  {
    hide Step, Worth, WellFormed, Untouched;
    if k == 0 {
      FreshWorth(max);
    } else {
      RunCosts(max, cs, ins, k - 1);
      StepIsWellFormed(max, cs[k - 1], ins[k - 1]);
      UntouchedStep(max, cs[k - 1], ins[k - 1]);
      StepCosts(max, cs[k - 1], ins[k - 1]);
      var n := Reviews(cs, ins, k - 1);
      assert (n + 1) * (2 + 36 * max) == n * (2 + 36 * max) + (2 + 36 * max);
    }
  }

  lemma FreshWorth(max: nat)
    ensures WellFormed(max, START) && Untouched(START) && Worth(max, START) == 18 + 44 * max
  {
    hide Reachable;
    ReachableBounds(max, INITIAL, 0);
  }

  /** A fresh run with k approved reviews executes at most 18 + 44 max + k (2 + 36 max) nodes. */
  lemma ReviewedRunBound(max: nat, cs: seq<Config>, ins: seq<Input>, k: nat)
    requires IsRun(max, cs, ins) && cs[0] == START && Reviews(cs, ins, |ins|) == k
    ensures |ins| <= 18 + 44 * max + k * (2 + 36 * max)
  {
    hide Step, Worth, WellFormed;
    RunCosts(max, cs, ins, |ins|);
    WorthBounds(max, cs[|ins|]);
  }

  // ---- the bound is attained ----

  predicate InRelease(n: Node) {
    n == Work(DocumentationRelease) || n == ReleaseApproval || n == Cycle(ReleaseGate)
  }

  /**
   A run that refuses wherever it can, from the rank `lo` on: the gates it left behind are spent, and it is past the
   operational validation only if the release may still be refused. The gates below `lo` are fresh.
   */
  ghost predicate Refusing(max: nat, c: Config, lo: nat) {
    && WellFormed(max, c) && OnTheWay(c.node) && c.node != Delivered && NodeRank(c.node) >= lo && (lo == 0 || lo == 6)
    && (forall gate :: GateRank(gate) < lo ==> Count(c.state, gate) == 0)
    && if InRelease(c.node)
       then Count(c.state, ReleaseGate) < max && forall gate :: lo <= GateRank(gate) < 6 ==> Count(c.state, gate) == max
       else forall gate ::
              GateRank(gate) >= lo && GateDistance(gate) > Standing(c.node) ==> Count(c.state, gate) == max
  }

  /** At the operational validation with every cycle from `lo` on spent. */
  ghost predicate Exhausted(max: nat, c: Config, lo: nat) {
    && WellFormed(max, c) && c.node == Work(OperationalValidation) && (lo == 0 || lo == 6)
    && forall gate :: Count(c.state, gate) == if GateRank(gate) < lo then 0 else max
  }

  lemma ExhaustedPotential(max: nat, c: Config, lo: nat)
    requires Exhausted(max, c, lo)
    ensures Potential(max, c) == 4 + if lo == 0 then 0 else 8 * max
  {
    hide Count;
  }

  lemma ReleaseNodes(gate: Gate)
    ensures InRelease(CycleNode(gate)) <==> gate == ReleaseGate
    ensures InRelease(GateNode(gate)) <==> gate == ReleaseGate
    ensures InRelease(ResumeAfter(gate)) <==> gate == OperationalGate
    ensures CycleNode(gate) != Delivered && (ResumeAfter(gate) == Delivered <==> gate == ReleaseGate)
    ensures GateNode(gate).Work? || GateNode(gate).ScopeApproval? || GateNode(gate).ReleaseApproval?
  {
  }

  lemma RefusingRefuses(max: nat, c: Config, gate: Gate, lo: nat)
    requires Refusing(max, c, lo) && c.node == GateNode(gate) && Count(c.state, gate) < max
    ensures Refusing(max, Step(max, c, REJECT), lo)
  {
    hide Step, Count, Passes, WellFormed, Standing, GateNode, CycleNode, InRelease, OnTheWay;
    StandingAtGate(gate);
    ReleaseNodes(gate);
    GateRanks(gate);
    PassAndReject();
    GateStep(max, c, REJECT, gate);
    ControlFrame(max, c, REJECT);
    SameCounts(c.state, Step(max, c, REJECT).state);
    StepIsWellFormed(max, c, REJECT);
  }

  lemma RefusingPasses(max: nat, c: Config, gate: Gate, lo: nat)
    requires Refusing(max, c, lo) && c.node == GateNode(gate) && Count(c.state, gate) == max
    requires !Exhausted(max, c, lo)
    ensures Refusing(max, Step(max, c, PASS), lo)
  {
    hide Step, Count, Passes, WellFormed;
    PassAndReject();
    GateStep(max, c, PASS, gate);
    ControlFrame(max, c, PASS);
    SameCounts(c.state, Step(max, c, PASS).state);
    StepIsWellFormed(max, c, PASS);
    Escalation.Within(max, c, ReleaseGate);
    StandingAtGate(gate);
    ReleaseNodes(gate);
    GateDistances(gate);
    GateRanks(gate);
  }

  lemma RefusingAtGate(max: nat, c: Config, gate: Gate, lo: nat)
    requires Refusing(max, c, lo) && c.node == GateNode(gate) && !Exhausted(max, c, lo)
    ensures Refusing(max, Step(max, c, GreedyInput(max, c)), lo)
  {
    hide Step, Refusing, Exhausted, WellFormed;
    RefusingIsOnTheWay(max, c, lo);
    Escalation.Within(max, c, gate);
    GateRanks(gate);
    if Count(c.state, gate) < max {
      RefusingRefuses(max, c, gate, lo);
    } else {
      RefusingPasses(max, c, gate, lo);
    }
  }

  lemma RefusingElsewhere(max: nat, c: Config, lo: nat)
    requires Refusing(max, c, lo) && !IsGateNode(c.node)
    ensures Refusing(max, Step(max, c, GreedyInput(max, c)), lo)
  {
    hide Step, Count, Passes, WellFormed;
    var inp := GreedyInput(max, c);
    var d := Step(max, c, inp);
    NodeKinds(c.node);
    StepIsWellFormed(max, c, inp);
    if IsPlain(c.node) {
      PlainStep(max, c, inp);
      SameCounts(c.state, d.state);
      PlainRanks(c.node);
    } else {
      Escalation.CycleIsReal(max, c);
      var gate := if c.node.Cycle? then c.node.gate else IntakeGate;
      CycleStep(max, c, inp, gate);
      GateDistances(gate);
    }
  }

  /** Refusing wherever a cycle is left spends every cycle that the run can still reach. */
  lemma {:induction false} Exhaust(max: nat, c: Config, lo: nat) returns (cs: seq<Config>, ins: seq<Input>)
    requires Refusing(max, c, lo)
    ensures IsRun(max, cs, ins) && cs[0] == c && ReviewFree(cs, |ins|)
    ensures Exhausted(max, cs[|ins|], lo) && |ins| == Potential(max, c) - Potential(max, cs[|ins|])
    decreases Potential(max, c)
  {
    hide Step, Unspent, WellFormed, Exhausted, Refusing, Potential;
    if Exhausted(max, c, lo) {
      cs, ins := [c], [];
    } else {
      var inp := GreedyInput(max, c);
      var d := Step(max, c, inp);
      RefusingIsOnTheWay(max, c, lo);
      if IsGateNode(c.node) {
        RefusingAtGate(max, c, GateOf(c.node), lo);
      } else {
        RefusingElsewhere(max, c, lo);
      }
      RefusingIsOnTheWay(max, d, lo);
      StepSpends(max, c, inp);
      PotentialBounds(max, c);
      var ds, js := Exhaust(max, d, lo);
      PrependRun(max, c, inp, ds, js);
      cs, ins := [c] + ds, [inp] + js;
      assert cs[|ins|] == ds[|js|];
    }
  }

  lemma RefusingIsOnTheWay(max: nat, c: Config, lo: nat)
    requires Refusing(max, c, lo)
    ensures WellFormed(max, c) && OnTheWay(c.node)
  {
  }

  lemma {:induction false} NoReviews(cs: seq<Config>, ins: seq<Input>, k: nat)
    requires |cs| == |ins| + 1 && k <= |ins| && ReviewFree(cs, k)
    ensures Reviews(cs, ins, k) == 0
  {
    if k > 0 {
      NoReviews(cs, ins, k - 1);
    }
  }

  lemma {:induction false} ReviewsJoin(cs: seq<Config>, ins: seq<Input>, ds: seq<Config>, js: seq<Input>, k: nat)
    requires |cs| == |ins| + 1 && |ds| == |js| + 1 && k <= |js|
    ensures Reviews(cs[..|ins|] + ds, ins + js, |ins| + k) == Reviews(cs, ins, |ins|) + Reviews(ds, js, k)
  {
    var es, ls := cs[..|ins|] + ds, ins + js;
    if k == 0 {
      ReviewsPrefix(cs, ins, es, ls, |ins|);
    } else {
      ReviewsJoin(cs, ins, ds, js, k - 1);
      assert es[|ins| + k - 1] == ds[k - 1] && ls[|ins| + k - 1] == js[k - 1];
    }
  }

  lemma {:induction false} ReviewsPrefix(cs: seq<Config>, ins: seq<Input>, ds: seq<Config>, js: seq<Input>, k: nat)
    requires |cs| == |ins| + 1 && |ds| == |js| + 1 && k <= |ins| && k <= |js|
    requires cs[..k] == ds[..k] && ins[..k] == js[..k]
    ensures Reviews(cs, ins, k) == Reviews(ds, js, k)
  {
    if k > 0 {
      assert cs[k - 1] == cs[..k][k - 1] && ds[k - 1] == ds[..k][k - 1];
      assert ins[k - 1] == ins[..k][k - 1] && js[k - 1] == js[..k][k - 1];
      assert cs[..k - 1] == cs[..k][..k - 1] && ds[..k - 1] == ds[..k][..k - 1];
      assert ins[..k - 1] == ins[..k][..k - 1] && js[..k - 1] == js[..k][..k - 1];
      ReviewsPrefix(cs, ins, ds, js, k - 1);
    }
  }

  /** The exhausted operational validation is refused, and its review approved: every counter is fresh again. */
  lemma Renewed(max: nat, c: Config, lo: nat) returns (cs: seq<Config>, ins: seq<Input>)
    requires Exhausted(max, c, lo) && max >= 1
    ensures IsRun(max, cs, ins) && cs[0] == c && |ins| == 3 && Reviews(cs, ins, 3) == 1
    ensures Refusing(max, cs[3], 6) && Potential(max, cs[3]) == 3 + 44 * max
  {
    hide Step, Count, WellFormed, Unspent;
    PassAndReject();
    var d := Step(max, c, REJECT);
    GateStep(max, c, REJECT, OperationalGate);
    var e := Step(max, d, PASS);
    EscalateStep(max, d, PASS, OperationalGate);
    var f := Step(max, e, PASS);
    StepIsWellFormed(max, c, REJECT);
    StepIsWellFormed(max, d, PASS);
    StepIsWellFormed(max, e, PASS);
    HumanStep(max, e, PASS);
    UnspentBounds(max, f.state);
    cs, ins := [c, d, e, f], [REJECT, PASS, PASS];
    assert Reviews(cs, ins, 0) == 0 && Reviews(cs, ins, 1) == 0 && Reviews(cs, ins, 2) == 0;
  }

  /** The exhausted run refuses the release once more, and its review is refused too. */
  lemma Ended(max: nat, c: Config, lo: nat) returns (cs: seq<Config>, ins: seq<Input>)
    requires Exhausted(max, c, lo)
    ensures IsRun(max, cs, ins) && cs[0] == c && |ins| == 6 && Reviews(cs, ins, 6) == 0
    ensures cs[6].node == End
  {
    hide Step, Count, WellFormed;
    PassAndReject();
    var rank := StageRank(OperationalValidation);
    var d := Step(max, c, PASS);
    PassOne(max, c, rank);
    var e := Step(max, d, PASS);
    PassOne(max, d, rank + 1);
    var f := Step(max, e, REJECT);
    GateStep(max, e, REJECT, ReleaseGate);
    var g := Step(max, f, PASS);
    EscalateStep(max, f, PASS, ReleaseGate);
    var h := Step(max, g, REJECT);
    HumanStep(max, g, REJECT);
    PlainStep(max, h, PASS);
    cs, ins := [c, d, e, f, g, h, Step(max, h, PASS)], [PASS, PASS, REJECT, PASS, REJECT, PASS];
    assert Reviews(cs, ins, 0) == 0 && Reviews(cs, ins, 1) == 0 && Reviews(cs, ins, 2) == 0;
    assert Reviews(cs, ins, 3) == 0 && Reviews(cs, ins, 4) == 0 && Reviews(cs, ins, 5) == 0;
  }

  lemma StartRefuses(max: nat)
    requires max >= 1
    ensures Refusing(max, START, 0) && Potential(max, START) == 16 + 44 * max
  {
    hide Unspent;
    FreshPotential(max);
    assert forall gate :: GateDistance(gate) < 16;
  }

  /** A fresh run that exhausts everything it can reach, k times over. */
  lemma {:induction false} LongestSoFar(max: nat, k: nat) returns (cs: seq<Config>, ins: seq<Input>, lo: nat)
    requires max >= 1
    ensures IsRun(max, cs, ins) && cs[0] == START && Reviews(cs, ins, |ins|) == k
    ensures Exhausted(max, cs[|ins|], lo) && |ins| == 12 + 44 * max + k * (2 + 36 * max)
  {
    hide Step, Potential, WellFormed, Refusing, Exhausted;
    if k == 0 {
      lo := 0;
      StartRefuses(max);
      cs, ins := Exhaust(max, START, 0);
      ExhaustedPotential(max, cs[|ins|], 0);
      NoReviews(cs, ins, |ins|);
    } else {
      var cs0, ins0, lo0 := LongestSoFar(max, k - 1);
      var cs1, ins1 := Renewed(max, cs0[|ins0|], lo0);
      var cs2, ins2 := Exhaust(max, cs1[3], 6);
      ExhaustedPotential(max, cs2[|ins2|], 6);
      NoReviews(cs2, ins2, |ins2|);
      JoinRuns(max, cs0, ins0, cs1, ins1);
      ReviewsJoin(cs0, ins0, cs1, ins1, 3);
      var cs3, ins3 := cs0[..|ins0|] + cs1, ins0 + ins1;
      JoinRuns(max, cs3, ins3, cs2, ins2);
      ReviewsJoin(cs3, ins3, cs2, ins2, |ins2|);
      cs, ins, lo := cs3[..|ins3|] + cs2, ins3 + ins2, 6;
      assert k * (2 + 36 * max) == (k - 1) * (2 + 36 * max) + (2 + 36 * max);
    }
  }

  /** With at least one cycle per gate the bound is attained, for every number of approved reviews. */
  lemma ReviewedBoundIsAttained(max: nat, k: nat) returns (cs: seq<Config>, ins: seq<Input>)
    requires max >= 1
    ensures IsRun(max, cs, ins) && cs[0] == START && Reviews(cs, ins, |ins|) == k
    ensures |ins| == 18 + 44 * max + k * (2 + 36 * max)
  {
    hide Step, Exhausted;
    var cs0, ins0, lo := LongestSoFar(max, k);
    var cs1, ins1 := Ended(max, cs0[|ins0|], lo);
    JoinRuns(max, cs0, ins0, cs1, ins1);
    ReviewsJoin(cs0, ins0, cs1, ins1, 6);
    cs, ins := cs0[..|ins0|] + cs1, ins0 + ins1;
  }

  /** A limit accommodates all fresh runs with k approved reviews exactly from this number on. */
  lemma ReviewedRunsFit(max: nat, k: nat, limit: nat)
    requires max >= 1
    ensures (forall cs, ins :: IsRun(max, cs, ins) && cs[0] == START && Reviews(cs, ins, |ins|) == k ==> |ins| <= limit)
            <==> 18 + 44 * max + k * (2 + 36 * max) <= limit
  {
    hide Step, WellFormed;
    var cs, ins := ReviewedBoundIsAttained(max, k);
    if 18 + 44 * max + k * (2 + 36 * max) <= limit {
      forall cs, ins | IsRun(max, cs, ins) && cs[0] == START && Reviews(cs, ins, |ins|) == k ensures |ins| <= limit {
        ReviewedRunBound(max, cs, ins, k);
      }
    }
  }
}
