/** What every run of the delivery graph keeps: no gate is bypassed and no stage is skipped. */
module GateSafety {
  import opened Wrappers
  import opened Agents
  import opened DeliveryState
  import opened DeliveryGraph
  import opened MainLine

  /**
   How far a configuration is along the main line; a side node counts as its gate, and an ended run by how
   it ended.
   */
  function Rank(c: Config): nat {
    if c.node == HumanReview || c.node == Cancelled then
      match c.state.escalatedGate
      case Some(gate) => GateRank(gate)
      case None => 0
    else if c.node == End then
      if c.state.currentStage == Some(AtDelivered) then LAST else 0
    else NodeRank(c.node)
  }

  /** `Delivered` and `Cancelled` record how the run ended. */
  lemma FinalStep(max: nat, c: Config, inp: Input)
    requires c.node == Delivered || c.node == Cancelled
    ensures Step(max, c, inp).node == End
    ensures Step(max, c, inp).state.currentStage == Some(if c.node == Delivered then AtDelivered else AtCancelled)
  {
  }

  /** The shape of one step as seen from the main line. */
  lemma RankStep(max: nat, c: Config, inp: Input)
    requires WellFormed(max, c) && c.node != End
    ensures Rank(Step(max, c, inp)) <= Rank(c) + 1 && Rank(Step(max, c, inp)) <= LAST
    ensures Rank(Step(max, c, inp)) == Rank(c) + 1 ==> Step(max, c, inp).node == MAIN_LINE[Rank(c) + 1]
  {
    hide Step;
    var d := Step(max, c, inp);
    NodeKinds(c.node);
    if IsGateNode(c.node) {
      var gate := GateOf(c.node);
      GateStep(max, c, inp, gate);
      GateRanks(gate);
    } else if c.node == Delivered || c.node == Cancelled {
      FinalStep(max, c, inp);
    } else if IsPlain(c.node) {
      PlainStep(max, c, inp);
      PlainRanks(c.node);
    } else if c.node.Escalate? {
      EscalateStep(max, c, inp, c.node.gate);
      GateRanks(c.node.gate);
    } else if c.node == HumanReview {
      HumanStep(max, c, inp);
      GateRanks(c.state.escalatedGate.value);
    } else {
      var gate := if c.node.Cycle? then c.node.gate else IntakeGate;
      CycleStep(max, c, inp, gate);
      GateRanks(gate);
    }
  }

  /**
   No stage is skipped: whoever stands at rank r has executed, or is about to execute, every main-line node
   up to r.
   */
  lemma {:induction false} NoStageSkipped(max: nat, cs: seq<Config>, ins: seq<Input>, k: nat, r: nat)
    requires IsRun(max, cs, ins) && IsStart(max, cs[0]) && k <= |ins| && r <= Rank(cs[k])
    ensures r <= LAST && exists i :: 0 <= i <= k && cs[i].node == MAIN_LINE[r]
  {
    hide Step, Rank;
    if k == 0 {
      StartRank(max, cs[0]);
      assert cs[0].node == MAIN_LINE[0];
    } else {
      StartIsWellFormed(max, cs[0]);
      RunIsWellFormed(max, cs, ins, k - 1);
      RankStep(max, cs[k - 1], ins[k - 1]);
      if r <= Rank(cs[k - 1]) {
        NoStageSkipped(max, cs, ins, k - 1, r);
      } else {
        assert cs[k].node == MAIN_LINE[r];
      }
    }
  }

  lemma StartRank(max: nat, c: Config)
    requires IsStart(max, c)
    ensures Rank(c) == 0
  {
  }

  // ---- points of no return ----

  /** Ranks below which a run that reached them never falls again while it is not cancelled. */
  predicate IsFloor(r: nat) {
    r == 0 || r == 1 || r == 2 || r == 5 || r == 6 || r == LAST
  }

  predicate Going(c: Config) {
    c.node != Cancelled && !(c.node == End && c.state.currentStage != Some(AtDelivered))
  }

  lemma CycleFloor(gate: Gate, floor: nat)
    requires IsFloor(floor) && GateRank(gate) >= floor
    ensures NodeRank(CycleTarget(gate)) >= floor
  {
  }

  lemma FloorStep(max: nat, c: Config, inp: Input, floor: nat)
    requires WellFormed(max, c) && c.node != End && IsFloor(floor) && Going(Step(max, c, inp))
    requires Rank(c) >= floor
    ensures Rank(Step(max, c, inp)) >= floor
  {
    hide Step;
    NodeKinds(c.node);
    if IsGateNode(c.node) {
      var gate := GateOf(c.node);
      GateStep(max, c, inp, gate);
      GateRanks(gate);
    } else if c.node == Delivered || c.node == Cancelled {
      FinalStep(max, c, inp);
    } else if IsPlain(c.node) {
      PlainStep(max, c, inp);
      PlainRanks(c.node);
    } else if c.node.Escalate? {
      EscalateStep(max, c, inp, c.node.gate);
    } else if c.node == HumanReview {
      HumanStep(max, c, inp);
      GateRanks(c.state.escalatedGate.value);
    } else {
      var gate := if c.node.Cycle? then c.node.gate else IntakeGate;
      CycleStep(max, c, inp, gate);
      GateRanks(gate);
      CycleFloor(gate, floor);
    }
  }

  /** Once the architecture (or planning, or discovery) has been entered, nothing before it runs again. */
  lemma {:induction false} NeverReturns(max: nat, cs: seq<Config>, ins: seq<Input>, i: nat, j: nat, floor: nat)
    requires IsRun(max, cs, ins) && IsStart(max, cs[0]) && i <= j <= |ins| && IsFloor(floor)
    requires Rank(cs[i]) >= floor && (forall m :: i <= m <= j ==> Going(cs[m]))
    ensures Rank(cs[j]) >= floor
  {
    hide Step, Rank, Going;
    if i < j {
      NeverReturns(max, cs, ins, i, j - 1, floor);
      StartIsWellFormed(max, cs[0]);
      RunIsWellFormed(max, cs, ins, j - 1);
      assert Going(cs[j]);
      FloorStep(max, cs[j - 1], ins[j - 1], floor);
    }
  }

  /** A run from START falls from the i-th rank, at least r, below r, and is not cancelled meanwhile. */
  ghost predicate Falls(max: nat, cs: seq<Config>, ins: seq<Input>, i: nat, j: nat, r: nat) {
    && IsRun(max, cs, ins) && cs[0] == START && i <= j <= |ins|
    && Rank(cs[i]) >= r && Rank(cs[j]) < r && forall m :: i <= m <= j ==> Going(cs[m])
  }

  /** Refusing a gate once, after passing all before it, sends the run back to where the gate cycles to. */
  lemma FallsBack(max: nat, gate: Gate, r: nat) returns (cs: seq<Config>, ins: seq<Input>)
    requires max >= 1 && gate != IntakeGate && NodeRank(CycleTarget(gate)) < r <= GateRank(gate)
    ensures Falls(max, cs, ins, GateRank(gate), GateRank(gate) + 2, r)
  {
    hide Step, Rank, Going;
    var k := GateRank(gate);
    GateRanks(gate);
    cs, ins := PassTo(max, k);
    var c := cs[k];
    var d := Step(max, c, REJECT);
    var e := Step(max, d, PASS);
    RefuseOnce(max, c, gate);
    OnMainLine(c);
    OnMainLine(d);
    OnMainLine(e);
    ExtendRun(max, cs, ins, REJECT);
    ExtendRun(max, cs + [d], ins + [REJECT], PASS);
    cs, ins := cs + [d] + [e], ins + [REJECT] + [PASS];
    assert cs[k] == c && cs[k + 1] == d && cs[k + 2] == e;
  }

  lemma OnMainLine(c: Config)
    requires c.node != HumanReview && c.node != Cancelled && c.node != End
    ensures Rank(c) == NodeRank(c.node) && Going(c)
  {
  }

  /** These ranks, and no other, are points of no return of the runs (when a gate may cycle at all). */
  lemma FloorsAreExact(max: nat, r: nat)
    requires max >= 1 && r <= LAST
    ensures IsFloor(r) <==> forall cs, ins, i: nat, j: nat :: !Falls(max, cs, ins, i, j, r)
  {
    hide Step, Rank, Going;
    if IsFloor(r) {
      forall cs, ins, i: nat, j: nat ensures !Falls(max, cs, ins, i, j, r) {
        if IsRun(max, cs, ins) && cs[0] == START && i <= j <= |ins|
           && Rank(cs[i]) >= r && forall m :: i <= m <= j ==> Going(cs[m]) {
          FreshIsStart(max);
          NeverReturns(max, cs, ins, i, j, r);
        }
      }
    } else {
      var gate := if r <= 4 then ScopeGate else ReleaseGate;
      var cs, ins := FallsBack(max, gate, r);
    }
  }

  lemma FreshIsStart(max: nat)
    ensures IsStart(max, START)
  {
  }

  // ---- gates ----

  /** The i-th execution is the last execution of the gate's node among the first k. */
  ghost predicate LastAt(cs: seq<Config>, k: nat, gate: Gate, i: nat)
    requires k <= |cs|
  {
    i < k && cs[i].node == GateNode(gate) && forall j :: i < j < k ==> cs[j].node != GateNode(gate)
  }

  /** After the i-th execution a human approved the review that this gate raised. */
  ghost predicate Overridden(cs: seq<Config>, ins: seq<Input>, k: nat, gate: Gate, i: nat)
    requires k <= |ins| <= |cs|
  {
    exists j :: i < j < k && cs[j].node == HumanReview && ins[j].decision == APPROVED
                && cs[j].state.escalatedGate == Some(gate)
  }

  /** The gate's last execution passed, or a human let the run continue after it. */
  ghost predicate Passed(cs: seq<Config>, ins: seq<Input>, k: nat, gate: Gate)
    requires k <= |ins| <= |cs|
  {
    exists i: nat :: LastAt(cs, k, gate, i) && (Passes(gate, ins[i]) || Overridden(cs, ins, k, gate, i))
  }

  ghost predicate Executed(cs: seq<Config>, k: nat, gate: Gate)
    requires k <= |cs|
  {
    exists i: nat :: LastAt(cs, k, gate, i)
  }

  lemma StaysPassed(cs: seq<Config>, ins: seq<Input>, k: nat, gate: Gate)
    requires k < |ins| <= |cs| && cs[k].node != GateNode(gate) && Passed(cs, ins, k, gate)
    ensures Passed(cs, ins, k + 1, gate)
  {
    var i: nat :| LastAt(cs, k, gate, i) && (Passes(gate, ins[i]) || Overridden(cs, ins, k, gate, i));
    assert LastAt(cs, k + 1, gate, i);
    if Overridden(cs, ins, k, gate, i) {
      var j :| i < j < k && cs[j].node == HumanReview && ins[j].decision == APPROVED
               && cs[j].state.escalatedGate == Some(gate);
      assert Overridden(cs, ins, k + 1, gate, i);
    }
  }

  lemma StaysExecuted(cs: seq<Config>, k: nat, gate: Gate)
    requires k < |cs| && (cs[k].node == GateNode(gate) || Executed(cs, k, gate))
    ensures Executed(cs, k + 1, gate)
  {
    if cs[k].node == GateNode(gate) {
      assert LastAt(cs, k + 1, gate, k);
    } else {
      var i: nat :| LastAt(cs, k, gate, i);
      assert LastAt(cs, k + 1, gate, i);
    }
  }

  lemma PassesNow(cs: seq<Config>, ins: seq<Input>, k: nat, gate: Gate)
    requires k < |ins| <= |cs| && cs[k].node == GateNode(gate) && Passes(gate, ins[k])
    ensures Passed(cs, ins, k + 1, gate)
  {
    assert LastAt(cs, k + 1, gate, k);
  }

  lemma OverriddenNow(cs: seq<Config>, ins: seq<Input>, k: nat, gate: Gate)
    requires k < |ins| <= |cs| && cs[k].node == HumanReview && ins[k].decision == APPROVED
    requires cs[k].state.escalatedGate == Some(gate) && Executed(cs, k, gate)
    ensures Passed(cs, ins, k + 1, gate)
  {
    var i: nat :| LastAt(cs, k, gate, i);
    assert LastAt(cs, k + 1, gate, i);
    assert Overridden(cs, ins, k + 1, gate, i);
  }

  /** The side node stands for an execution of its gate. */
  predicate Raised(c: Config, gate: Gate) {
    c.node == CycleNode(gate) || c.node == Escalate(gate)
    || (c.node == HumanReview && c.state.escalatedGate == Some(gate))
  }

  lemma RaisedStep(max: nat, c: Config, inp: Input, gate: Gate)
    requires WellFormed(max, c) && c.node != End && Raised(Step(max, c, inp), gate)
    ensures c.node == GateNode(gate) || Raised(c, gate)
  {
    hide Step;
    NodeKinds(c.node);
    if IsGateNode(c.node) {
      GateStep(max, c, inp, GateOf(c.node));
      GateRanks(GateOf(c.node));
    } else if IsPlain(c.node) {
      PlainStep(max, c, inp);
    } else if c.node.Escalate? {
      EscalateStep(max, c, inp, c.node.gate);
    } else if c.node == HumanReview {
      HumanStep(max, c, inp);
      GateRanks(c.state.escalatedGate.value);
    } else {
      var g := if c.node.Cycle? then c.node.gate else IntakeGate;
      CycleStep(max, c, inp, g);
      GateRanks(g);
    }
  }

  lemma {:induction false} RaisedMeansExecuted(max: nat, cs: seq<Config>, ins: seq<Input>, k: nat, gate: Gate)
    requires IsRun(max, cs, ins) && IsStart(max, cs[0]) && k <= |ins| && Raised(cs[k], gate)
    ensures Executed(cs, k, gate)
  {
    hide Step, Raised, Executed;
    if k == 0 {
      StartIsNotRaised(max, cs[0], gate);
    } else {
      StartIsWellFormed(max, cs[0]);
      RunIsWellFormed(max, cs, ins, k - 1);
      RaisedStep(max, cs[k - 1], ins[k - 1], gate);
      if cs[k - 1].node != GateNode(gate) {
        RaisedMeansExecuted(max, cs, ins, k - 1, gate);
      }
      StaysExecuted(cs, k - 1, gate);
    }
  }

  lemma StartIsNotRaised(max: nat, c: Config, gate: Gate)
    requires IsStart(max, c)
    ensures !Raised(c, gate)
  {
  }

  /** Where the gates newly below the rank come from. */
  lemma NewlyBelow(max: nat, c: Config, inp: Input, gate: Gate)
    requires WellFormed(max, c) && c.node != End && GateRank(gate) < Rank(Step(max, c, inp))
    ensures c.node == GateNode(gate) ==> Passes(gate, inp)
    ensures || GateRank(gate) < Rank(c)
            || (c.node == GateNode(gate) && Passes(gate, inp))
            || (c.node == HumanReview && inp.decision == APPROVED && c.state.escalatedGate == Some(gate))
  {
    hide Step;
    NodeKinds(c.node);
    GateRanks(gate);
    if IsGateNode(c.node) {
      GateStep(max, c, inp, GateOf(c.node));
      GateRanks(GateOf(c.node));
    } else if c.node == Delivered || c.node == Cancelled {
      FinalStep(max, c, inp);
    } else if IsPlain(c.node) {
      PlainStep(max, c, inp);
      PlainRanks(c.node);
    } else if c.node.Escalate? {
      EscalateStep(max, c, inp, c.node.gate);
    } else if c.node == HumanReview {
      HumanStep(max, c, inp);
      GateRanks(c.state.escalatedGate.value);
    } else {
      var g := if c.node.Cycle? then c.node.gate else IntakeGate;
      CycleStep(max, c, inp, g);
      GateRanks(g);
    }
  }

  /** No gate is bypassed: at rank r, every gate of lower rank is passed. */
  lemma {:induction false} GatesBelowArePassed(max: nat, cs: seq<Config>, ins: seq<Input>, k: nat, gate: Gate)
    requires IsRun(max, cs, ins) && IsStart(max, cs[0]) && k <= |ins| && GateRank(gate) < Rank(cs[k])
    ensures Passed(cs, ins, k, gate)
  {
    hide Step, Rank, Passed, Passes;
    if k == 0 {
      StartRank(max, cs[0]);
    } else {
      var c, inp := cs[k - 1], ins[k - 1];
      StartIsWellFormed(max, cs[0]);
      RunIsWellFormed(max, cs, ins, k - 1);
      NewlyBelow(max, c, inp, gate);
      if c.node == GateNode(gate) {
        PassesNow(cs, ins, k - 1, gate);
      } else if GateRank(gate) < Rank(c) {
        GatesBelowArePassed(max, cs, ins, k - 1, gate);
        StaysPassed(cs, ins, k - 1, gate);
      } else {
        RaisedMeansExecuted(max, cs, ins, k - 1, gate);
        OverriddenNow(cs, ins, k - 1, gate);
      }
    }
  }

  /** A run that ends as delivered has passed all nine gates. */
  lemma DeliveredPassedEveryGate(max: nat, cs: seq<Config>, ins: seq<Input>, gate: Gate)
    requires IsRun(max, cs, ins) && IsStart(max, cs[0])
    requires cs[|ins|].node == End && cs[|ins|].state.currentStage == Some(AtDelivered)
    ensures Passed(cs, ins, |ins|, gate)
  {
    GateRanks(gate);
    GatesBelowArePassed(max, cs, ins, |ins|, gate);
  }

  /** For a gate decided by agents, passing means that each of them approved and none reported a critical finding. */
  lemma PassingAnAgentGate(gate: Gate, inp: Input)
    requires gate != ScopeGate && gate != ReleaseGate
    ensures Passes(gate, inp) <==>
            forall r :: r in inp.results ==>
                          r.status == Approved && forall f :: f in r.findings ==> f.severity != Critical
  {
    ApprovedMeansEveryone(inp.results);
  }
}
