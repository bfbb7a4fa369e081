/** The sixteen nodes every delivery goes through, and where each gate stands among them. */
module MainLine {
  import opened Agents
  import opened DeliveryState
  import opened DeliveryGraph

  const MAIN_LINE: seq<Node> := [
    Work(Triage), Work(IntakeAnalysis), Work(ProductDiscovery), Work(Requirements), ScopeApproval,
    Work(Architecture), Work(TechnicalPlanning), Work(Development), Work(CodeReview), Work(AutomatedTests),
    Work(FunctionalQa), Work(SecurityCompliance), Work(OperationalValidation), Work(DocumentationRelease),
    ReleaseApproval, Delivered]

  const LAST := 15

  function GateRank(gate: Gate): nat {
    match gate
    case IntakeGate => 1
    case ScopeGate => 4
    case ArchitectureGate => 5
    case CodeReviewGate => 8
    case TestsGate => 9
    case QaGate => 10
    case SecurityGate => 11
    case OperationalGate => 12
    case ReleaseGate => 14
  }

  function StageRank(stage: Stage): nat {
    match stage
    case Triage => 0
    case IntakeAnalysis => 1
    case ProductDiscovery => 2
    case Requirements => 3
    case Architecture => 5
    case TechnicalPlanning => 6
    case Development => 7
    case CodeReview => 8
    case AutomatedTests => 9
    case FunctionalQa => 10
    case SecurityCompliance => 11
    case OperationalValidation => 12
    case DocumentationRelease => 13
  }

  function NodeRank(n: Node): nat {
    match n
    case Work(stage) => StageRank(stage)
    case IntakeClarification => 1
    case ScopeApproval => 4
    case ReleaseApproval => 14
    case Cycle(gate) => GateRank(gate)
    case Escalate(gate) => GateRank(gate)
    case Delivered => LAST
    case HumanReview => 0
    case Cancelled => 0
    case End => 0
  }

  lemma GateRanks(gate: Gate)
    ensures NodeRank(GateNode(gate)) == GateRank(gate) && NodeRank(CycleNode(gate)) == GateRank(gate)
    ensures NodeRank(ResumeAfter(gate)) == GateRank(gate) + 1
    ensures NodeRank(CycleTarget(gate)) <= GateRank(gate) <= 14
    ensures MAIN_LINE[GateRank(gate)] == GateNode(gate)
    ensures MAIN_LINE[GateRank(gate) + 1] == ResumeAfter(gate)
    ensures forall g :: GateRank(g) == GateRank(gate) ==> g == gate
    ensures ResumeAfter(gate) != HumanReview && ResumeAfter(gate) != Cancelled && ResumeAfter(gate) != End
    ensures CycleTarget(gate) != HumanReview && CycleTarget(gate) != Cancelled && CycleTarget(gate) != End
    ensures GateNode(gate) != HumanReview && GateNode(gate) != Cancelled && GateNode(gate) != End
    ensures CycleNode(gate) != HumanReview && CycleNode(gate) != Cancelled && CycleNode(gate) != End
    ensures forall g :: GateNode(g) != CycleNode(gate)
  {
  }

  lemma PlainRanks(n: Node)
    requires IsPlain(n) && n != Delivered && n != Cancelled
    ensures NodeRank(PlainNext(n)) == NodeRank(n) + 1 <= 14
    ensures MAIN_LINE[NodeRank(n) + 1] == PlainNext(n)
    ensures PlainNext(n) != HumanReview && PlainNext(n) != Cancelled && PlainNext(n) != End
    ensures forall g :: GateRank(g) != NodeRank(n)
  {
  }

  // ---- answers that pass and refuse every gate ----

  const PASS := Input([], APPROVED, "")
  const REJECT := Input([AgentResult("", ChangesRequested, "", [], [], [])], REJECTED, "")

  lemma PassAndReject()
    ensures forall gate :: Passes(gate, PASS) && !Passes(gate, REJECT)
  {
    NoAgentsApprove();
    ApprovedMeansEveryone(REJECT.results);
    assert REJECT.results[0] in REJECT.results;
  }

  lemma MainLineKinds(r: nat)
    requires r < LAST
    ensures IsGateNode(MAIN_LINE[r]) || IsPlain(MAIN_LINE[r])
    ensures IsGateNode(MAIN_LINE[r]) ==> ResumeAfter(GateOf(MAIN_LINE[r])) == MAIN_LINE[r + 1]
    ensures IsPlain(MAIN_LINE[r]) ==> PlainNext(MAIN_LINE[r]) == MAIN_LINE[r + 1]
    ensures MAIN_LINE[r] != End && NodeRank(MAIN_LINE[r]) == r
  {
  }

  lemma PassOne(max: nat, c: Config, r: nat)
    requires r < LAST && c.node == MAIN_LINE[r]
    ensures Step(max, c, PASS).node == MAIN_LINE[r + 1]
    ensures forall gate :: Count(Step(max, c, PASS).state, gate) == Count(c.state, gate)
  {
    hide Step, Count, Passes;
    PassAndReject();
    MainLineKinds(r);
    if IsGateNode(c.node) {
      GateStep(max, c, PASS, GateOf(c.node));
      ControlFrame(max, c, PASS);
    } else {
      PlainStep(max, c, PASS);
    }
    SameCounts(c.state, Step(max, c, PASS).state);
  }

  /** Passing every gate, a fresh run goes straight to any node of the main line, with all counters at zero. */
  lemma {:induction false} PassTo(max: nat, r: nat) returns (cs: seq<Config>, ins: seq<Input>)
    requires r <= LAST
    ensures IsRun(max, cs, ins) && cs[0] == START && |ins| == r && cs[r].node == MAIN_LINE[r]
    ensures forall gate :: Count(cs[r].state, gate) == 0
  {
    hide Step;
    if r == 0 {
      cs, ins := [START], [];
    } else {
      cs, ins := PassTo(max, r - 1);
      var c := cs[r - 1];
      MainLineKinds(r - 1);
      PassOne(max, c, r - 1);
      ExtendRun(max, cs, ins, PASS);
      cs, ins := cs + [Step(max, c, PASS)], ins + [PASS];
    }
  }

  /** Refusing a gate that may still cycle: two nodes, and the run is back where the gate cycles to. */
  lemma RefuseOnce(max: nat, c: Config, gate: Gate)
    requires c.node == GateNode(gate) && Count(c.state, gate) < max
    ensures var d := Step(max, c, REJECT);
            d.node == CycleNode(gate) && Step(max, d, PASS).node == CycleTarget(gate)
  {
    hide Step, Count, Passes;
    PassAndReject();
    GateStep(max, c, REJECT, gate);
    CycleStep(max, Step(max, c, REJECT), PASS, gate);
  }
}
