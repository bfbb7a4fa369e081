/**
 The delivery graph: its nodes, the update each node returns, the routers of the
 conditional edges, and one step of a run (execute the node, merge its update,
 follow the edge).
 */
module DeliveryGraph {
  import opened Wrappers
  import opened OrderedDict
  import opened Agents
  import opened DeliveryState

  /** `Cycle(IntakeGate)` does not exist: `IntakeClarification` counts the intake cycles. */
  datatype Node =
    | Work(stage: Stage)
    | IntakeClarification
    | ScopeApproval
    | ReleaseApproval
    | Cycle(gate: Gate)
    | Escalate(gate: Gate)
    | HumanReview
    | Delivered
    | Cancelled
    | End

  datatype ApprovalStatus = REQUESTED | APPROVED | REJECTED | EXPIRED | CANCELLED

  /** What `_wait_for_approval` can return. */
  type Decision = a: ApprovalStatus | a != REQUESTED witness APPROVED

  /** What the environment answers while a node executes: a stage reads `results`, an approval the rest. */
  datatype Input = Input(results: seq<AgentResult>, decision: Decision, rationale: string)

  // ---- nodes ----

  /** An empty `results` means that the stage has no enabled agent. */
  function RunStage(stage: Stage, results: seq<AgentResult>): Update {
    if results == [] then
      NO_UPDATE.(currentStage := Some(AtStage(stage)), stageResult := Some((stage, Approved)))
    else
      NO_UPDATE.(
        currentStage := Some(AtStage(stage)),
        stageResult := Some((stage, StageStatus(results))),
        findings := Some(Entry(stage, AllFindings(results))),
        artifacts := AllArtifacts(results),
        codeFiles := Some(AllCodeFiles(results)))
  }

  function Count(s: State, gate: Gate): nat {
    if gate in s.cycles then s.cycles[gate] else 0
  }

  function ClarificationUpdate(s: State, decision: Decision, rationale: string): Update {
    var counted := NO_UPDATE.(cycles := map[IntakeGate := Count(s, IntakeGate) + 1]);
    if decision == REJECTED then counted.(humanReviewRequired := Some(true))
    else if rationale != "" then counted.(clarificationNotes := [rationale])
    else counted
  }

  function HumanReviewUpdate(decision: Decision): Update {
    var asked := NO_UPDATE.(humanReviewRequired := Some(decision != APPROVED));
    if decision == APPROVED then asked.(cycles := map gate | gate in ALL_GATES :: 0) else asked
  }

  function Execute(n: Node, s: State, inp: Input): Update {
    match n
    case Work(stage) => RunStage(stage, inp.results)
    case IntakeClarification => ClarificationUpdate(s, inp.decision, inp.rationale)
    case ScopeApproval => NO_UPDATE.(scopeApproved := Some(inp.decision == APPROVED))
    case ReleaseApproval => NO_UPDATE.(releaseApproved := Some(inp.decision == APPROVED))
    case Cycle(gate) => NO_UPDATE.(cycles := map[gate := Count(s, gate) + 1])
    case Escalate(gate) => NO_UPDATE.(escalatedGate := Some(gate))
    case HumanReview => HumanReviewUpdate(inp.decision)
    case Delivered => NO_UPDATE.(currentStage := Some(AtDelivered))
    case Cancelled => NO_UPDATE.(currentStage := Some(AtCancelled))
    case End => NO_UPDATE
  }

  // ---- routers and edges ----

  /** `_stage_status`: a stage without a result reads as approved. */
  function StatusOf(s: State, stage: Stage): Status {
    if stage in s.stageResults then s.stageResults[stage] else Approved
  }

  predicate CyclesExceeded(max: nat, s: State, gate: Gate) {
    Count(s, gate) >= max
  }

  function RouteIntakeAnalysis(max: nat, s: State): Node {
    if StatusOf(s, IntakeAnalysis) == Approved then Work(ProductDiscovery)
    else if CyclesExceeded(max, s, IntakeGate) then Escalate(IntakeGate)
    else IntakeClarification
  }

  function RouteScope(max: nat, s: State): Node {
    if s.scopeApproved then Work(Architecture)
    else if CyclesExceeded(max, s, ScopeGate) then Escalate(ScopeGate)
    else Cycle(ScopeGate)
  }

  function RouteArchitectureGate(max: nat, s: State): Node {
    if StatusOf(s, Architecture) == Approved then Work(TechnicalPlanning)
    else if CyclesExceeded(max, s, ArchitectureGate) then Escalate(ArchitectureGate)
    else Cycle(ArchitectureGate)
  }

  function RouteCodeReview(max: nat, s: State): Node {
    if StatusOf(s, CodeReview) == Approved then Work(AutomatedTests)
    else if CyclesExceeded(max, s, CodeReviewGate) then Escalate(CodeReviewGate)
    else Cycle(CodeReviewGate)
  }

  function RouteTests(max: nat, s: State): Node {
    if StatusOf(s, AutomatedTests) == Approved then Work(FunctionalQa)
    else if CyclesExceeded(max, s, TestsGate) then Escalate(TestsGate)
    else Cycle(TestsGate)
  }

  function RouteQa(max: nat, s: State): Node {
    if StatusOf(s, FunctionalQa) == Approved then Work(SecurityCompliance)
    else if CyclesExceeded(max, s, QaGate) then Escalate(QaGate)
    else Cycle(QaGate)
  }

  function RouteSecurity(max: nat, s: State): Node {
    if StatusOf(s, SecurityCompliance) == Approved then Work(OperationalValidation)
    else if CyclesExceeded(max, s, SecurityGate) then Escalate(SecurityGate)
    else Cycle(SecurityGate)
  }

  function RouteOperational(max: nat, s: State): Node {
    if StatusOf(s, OperationalValidation) == Approved then Work(DocumentationRelease)
    else if CyclesExceeded(max, s, OperationalGate) then Escalate(OperationalGate)
    else Cycle(OperationalGate)
  }

  function RouteRelease(max: nat, s: State): Node {
    if s.releaseApproved then Delivered
    else if CyclesExceeded(max, s, ReleaseGate) then Escalate(ReleaseGate)
    else Cycle(ReleaseGate)
  }

  /** RESUME_AFTER_GATE. */
  function ResumeAfter(gate: Gate): Node {
    match gate
    case IntakeGate => Work(ProductDiscovery)
    case ScopeGate => Work(Architecture)
    case ArchitectureGate => Work(TechnicalPlanning)
    case CodeReviewGate => Work(AutomatedTests)
    case TestsGate => Work(FunctionalQa)
    case QaGate => Work(SecurityCompliance)
    case SecurityGate => Work(OperationalValidation)
    case OperationalGate => Work(DocumentationRelease)
    case ReleaseGate => Delivered
  }

  function RouteHumanReview(s: State): Node {
    if s.humanReviewRequired then Cancelled
    else match s.escalatedGate
      case Some(gate) => ResumeAfter(gate)
      case None => Work(TechnicalPlanning)
  }

  /** Where the edge leaving a `*_cycle` node leads. */
  function CycleTarget(gate: Gate): Node {
    match gate
    case IntakeGate => Work(IntakeAnalysis)
    case ScopeGate => Work(ProductDiscovery)
    case ArchitectureGate => Work(Architecture)
    case CodeReviewGate => Work(Development)
    case TestsGate => Work(Development)
    case QaGate => Work(Development)
    case SecurityGate => Work(Development)
    case OperationalGate => Work(TechnicalPlanning)
    case ReleaseGate => Work(TechnicalPlanning)
  }

  /** The edge table: the node that follows `n`, given the state after `n`. */
  function Next(max: nat, s: State, n: Node): Node {
    match n
    case Work(stage) => (
      match stage
      case Triage => Work(IntakeAnalysis)
      case IntakeAnalysis => RouteIntakeAnalysis(max, s)
      case ProductDiscovery => Work(Requirements)
      case Requirements => ScopeApproval
      case Architecture => RouteArchitectureGate(max, s)
      case TechnicalPlanning => Work(Development)
      case Development => Work(CodeReview)
      case CodeReview => RouteCodeReview(max, s)
      case AutomatedTests => RouteTests(max, s)
      case FunctionalQa => RouteQa(max, s)
      case SecurityCompliance => RouteSecurity(max, s)
      case OperationalValidation => RouteOperational(max, s)
      case DocumentationRelease => ReleaseApproval)
    case IntakeClarification => Work(IntakeAnalysis)
    case ScopeApproval => RouteScope(max, s)
    case ReleaseApproval => RouteRelease(max, s)
    case Cycle(gate) => CycleTarget(gate)
    case Escalate(_) => HumanReview
    case HumanReview => RouteHumanReview(s)
    case Delivered => End
    case Cancelled => End
    case End => End
  }

  // ---- runs ----

  /** The node about to execute, and the state it will read. */
  datatype Config = Config(node: Node, state: State)

  function Step(max: nat, c: Config, inp: Input): Config {
    var s := Apply(c.state, Execute(c.node, c.state, inp));
    Config(Next(max, s, c.node), s)
  }

  /** `cs[i]` is the configuration before the i-th node execution, `ins[i]` what the environment answers to it. */
  ghost predicate IsRun(max: nat, cs: seq<Config>, ins: seq<Input>) {
    && |cs| == |ins| + 1
    && forall i :: 0 <= i < |ins| ==> cs[i].node != End && cs[i + 1] == Step(max, cs[i], ins[i])
  }

  /** A fresh run. */
  const START := Config(Work(Triage), INITIAL)

  /** A triage configuration: a fresh run, or a retried one that kept the counters of the previous attempt. */
  ghost predicate IsStart(max: nat, c: Config) {
    c.node == Work(Triage) && forall gate :: Count(c.state, gate) <= max
  }

  // ---- gates ----

  /** The node whose router is the gate. */
  function GateNode(gate: Gate): Node {
    match gate
    case IntakeGate => Work(IntakeAnalysis)
    case ScopeGate => ScopeApproval
    case ArchitectureGate => Work(Architecture)
    case CodeReviewGate => Work(CodeReview)
    case TestsGate => Work(AutomatedTests)
    case QaGate => Work(FunctionalQa)
    case SecurityGate => Work(SecurityCompliance)
    case OperationalGate => Work(OperationalValidation)
    case ReleaseGate => ReleaseApproval
  }

  /** The answer of the environment that passes a gate. */
  predicate Passes(gate: Gate, inp: Input) {
    match gate
    case ScopeGate => inp.decision == APPROVED
    case ReleaseGate => inp.decision == APPROVED
    case _ => StageStatus(inp.results) == Approved
  }

  function CycleNode(gate: Gate): Node {
    if gate == IntakeGate then IntakeClarification else Cycle(gate)
  }

  /** Only a counter and an approved human review change counters; only `Escalate` changes the escalated gate. */
  lemma ControlFrame(max: nat, c: Config, inp: Input)
    requires !c.node.Cycle? && !c.node.IntakeClarification? && !c.node.Escalate? && !c.node.HumanReview?
    ensures Step(max, c, inp).state.cycles == c.state.cycles
    ensures Step(max, c, inp).state.escalatedGate == c.state.escalatedGate
  {
    assert c.state.cycles + map[] == c.state.cycles;
  }

  lemma NoAgentsApprove()
    ensures StageStatus([]) == Approved
  {
    StatusIsWorstOf([], []);
  }

  /** The router after a gate's node reads what the node has just written. */
  lemma GateReads(max: nat, c: Config, inp: Input, gate: Gate)
    requires c.node == GateNode(gate)
    ensures var s := Step(max, c, inp).state;
            match c.node
            case Work(stage) => StatusOf(s, stage) == StageStatus(inp.results)
            case ScopeApproval => s.scopeApproved == (inp.decision == APPROVED)
            case _ => s.releaseApproved == (inp.decision == APPROVED)
    ensures Count(Step(max, c, inp).state, gate) == Count(c.state, gate)
  {
    ControlFrame(max, c, inp);
    NoAgentsApprove();
  }

  /** One execution of a gate's node, in one line. */
  lemma GateStep(max: nat, c: Config, inp: Input, gate: Gate)
    requires c.node == GateNode(gate)
    ensures Step(max, c, inp).node ==
            if Passes(gate, inp) then ResumeAfter(gate)
            else if Count(c.state, gate) >= max then Escalate(gate)
            else CycleNode(gate)
  {
    hide Apply, Execute, StatusOf, Count;
    GateReads(max, c, inp, gate);
  }

  predicate IsGateNode(n: Node) {
    n == Work(IntakeAnalysis) || n == ScopeApproval || n == Work(Architecture) || n == Work(CodeReview)
    || n == Work(AutomatedTests) || n == Work(FunctionalQa) || n == Work(SecurityCompliance)
    || n == Work(OperationalValidation) || n == ReleaseApproval
  }

  function GateOf(n: Node): (gate: Gate)
    requires IsGateNode(n)
    ensures GateNode(gate) == n
  {
    match n
    case Work(IntakeAnalysis) => IntakeGate
    case ScopeApproval => ScopeGate
    case Work(Architecture) => ArchitectureGate
    case Work(CodeReview) => CodeReviewGate
    case Work(AutomatedTests) => TestsGate
    case Work(FunctionalQa) => QaGate
    case Work(SecurityCompliance) => SecurityGate
    case Work(OperationalValidation) => OperationalGate
    case ReleaseApproval => ReleaseGate
  }

  // ---- the other kinds of step, one lemma each ----

  /** Nodes left by an unconditional edge, other than the counters and `Escalate`. */
  predicate IsPlain(n: Node) {
    n == Work(Triage) || n == Work(ProductDiscovery) || n == Work(Requirements) || n == Work(TechnicalPlanning)
    || n == Work(Development) || n == Work(DocumentationRelease) || n == Delivered || n == Cancelled
  }

  function PlainNext(n: Node): Node
    requires IsPlain(n)
  {
    match n
    case Work(Triage) => Work(IntakeAnalysis)
    case Work(ProductDiscovery) => Work(Requirements)
    case Work(Requirements) => ScopeApproval
    case Work(TechnicalPlanning) => Work(Development)
    case Work(Development) => Work(CodeReview)
    case Work(DocumentationRelease) => ReleaseApproval
    case _ => End
  }

  lemma PlainStep(max: nat, c: Config, inp: Input)
    requires IsPlain(c.node)
    ensures Step(max, c, inp).node == PlainNext(c.node)
    ensures Step(max, c, inp).state.cycles == c.state.cycles
    ensures Step(max, c, inp).state.escalatedGate == c.state.escalatedGate
  {
    hide Apply, Execute;
    ControlFrame(max, c, inp);
  }

  lemma CycleStep(max: nat, c: Config, inp: Input, gate: Gate)
    requires c.node == CycleNode(gate)
    ensures Step(max, c, inp).node == CycleTarget(gate)
    ensures forall g :: Count(Step(max, c, inp).state, g) == Count(c.state, g) + if g == gate then 1 else 0
    ensures Step(max, c, inp).state.escalatedGate == c.state.escalatedGate
  {
    var u := Execute(c.node, c.state, inp);
    assert u.cycles == map[gate := Count(c.state, gate) + 1];
  }

  lemma EscalateStep(max: nat, c: Config, inp: Input, gate: Gate)
    requires c.node == Escalate(gate)
    ensures Step(max, c, inp).node == HumanReview
    ensures Step(max, c, inp).state.cycles == c.state.cycles
    ensures Step(max, c, inp).state.escalatedGate == Some(gate)
  {
    assert c.state.cycles + map[] == c.state.cycles;
  }

  /** An approved review resumes after the escalated gate and restores every budget; any other answer cancels. */
  lemma HumanStep(max: nat, c: Config, inp: Input)
    requires c.node == HumanReview && c.state.escalatedGate.Some?
    ensures Step(max, c, inp).node ==
            if inp.decision == APPROVED then ResumeAfter(c.state.escalatedGate.value) else Cancelled
    ensures inp.decision == APPROVED ==> forall g :: Count(Step(max, c, inp).state, g) == 0
    ensures inp.decision != APPROVED ==> Step(max, c, inp).state.cycles == c.state.cycles
    ensures Step(max, c, inp).state.escalatedGate == c.state.escalatedGate
  {
    if inp.decision == APPROVED {
      AllGatesListed();
    } else {
      assert c.state.cycles + map[] == c.state.cycles;
    }
  }

  lemma AllGatesListed()
    ensures forall gate: Gate :: gate in ALL_GATES
  {
    forall gate: Gate ensures gate in ALL_GATES {
      match gate
      case IntakeGate | ScopeGate | ArchitectureGate | CodeReviewGate | TestsGate | QaGate => {}
      case SecurityGate | OperationalGate | ReleaseGate => {}
    }
  }

  // ---- well-formed configurations ----

  /**
   What every reachable configuration satisfies: counters within budget, and each side node entered for its
   reason.
   */
  ghost predicate WellFormed(max: nat, c: Config) {
    && (forall gate :: Count(c.state, gate) <= max)
    && (forall gate :: c.node == CycleNode(gate) ==> Count(c.state, gate) < max)
    && c.node != Cycle(IntakeGate)
    && (c.node.Escalate? ==> Count(c.state, c.node.gate) == max)
    && (c.node == HumanReview ==>
          c.state.escalatedGate.Some? && Count(c.state, c.state.escalatedGate.value) == max)
  }

  lemma NodeKinds(n: Node)
    ensures || IsGateNode(n) || IsPlain(n) || n.Cycle? || n.Escalate?
            || n == IntakeClarification || n == HumanReview || n == End
  {
    match n
    case Work(stage) => {
      match stage
      case Triage | ProductDiscovery | Requirements | TechnicalPlanning | Development | DocumentationRelease => {}
      case IntakeAnalysis | Architecture | CodeReview | AutomatedTests | FunctionalQa => {}
      case SecurityCompliance | OperationalValidation => {}
    }
    case _ => {}
  }

  lemma SameCounts(s: State, t: State)
    requires s.cycles == t.cycles
    ensures forall gate :: Count(s, gate) == Count(t, gate)
  {
  }

  lemma GateStepIsWellFormed(max: nat, c: Config, inp: Input, gate: Gate)
    requires WellFormed(max, c) && c.node == GateNode(gate)
    ensures WellFormed(max, Step(max, c, inp))
  {
    hide Step, Count, Passes;
    GateStep(max, c, inp, gate);
    ControlFrame(max, c, inp);
    SameCounts(c.state, Step(max, c, inp).state);
  }

  lemma PlainStepIsWellFormed(max: nat, c: Config, inp: Input)
    requires WellFormed(max, c) && IsPlain(c.node)
    ensures WellFormed(max, Step(max, c, inp))
  {
    hide Step, Count;
    PlainStep(max, c, inp);
    SameCounts(c.state, Step(max, c, inp).state);
  }

  lemma StepIsWellFormed(max: nat, c: Config, inp: Input)
    requires WellFormed(max, c) && c.node != End
    ensures WellFormed(max, Step(max, c, inp))
  {
    hide Step, Count, IsPlain;
    NodeKinds(c.node);
    if IsGateNode(c.node) {
      GateStepIsWellFormed(max, c, inp, GateOf(c.node));
    } else if IsPlain(c.node) {
      PlainStepIsWellFormed(max, c, inp);
    } else if c.node.Escalate? {
      EscalateStep(max, c, inp, c.node.gate);
      SameCounts(c.state, Step(max, c, inp).state);
    } else if c.node == HumanReview {
      HumanStepIsWellFormed(max, c, inp);
    } else {
      CycleStep(max, c, inp, if c.node.Cycle? then c.node.gate else IntakeGate);
    }
  }

  lemma HumanStepIsWellFormed(max: nat, c: Config, inp: Input)
    requires WellFormed(max, c) && c.node == HumanReview
    ensures WellFormed(max, Step(max, c, inp))
  {
    hide Step, Count;
    HumanStep(max, c, inp);
    if inp.decision != APPROVED {
      SameCounts(c.state, Step(max, c, inp).state);
    }
  }

  lemma StartIsWellFormed(max: nat, c: Config)
    requires IsStart(max, c)
    ensures WellFormed(max, c)
  {
  }

  lemma {:induction false} RunIsWellFormed(max: nat, cs: seq<Config>, ins: seq<Input>, k: nat)
    requires IsRun(max, cs, ins) && WellFormed(max, cs[0]) && k <= |ins|
    ensures WellFormed(max, cs[k])
  {
    if k > 0 {
      RunIsWellFormed(max, cs, ins, k - 1);
      StepIsWellFormed(max, cs[k - 1], ins[k - 1]);
    }
  }

  // ---- building runs ----

  lemma ExtendRun(max: nat, cs: seq<Config>, ins: seq<Input>, inp: Input)
    requires IsRun(max, cs, ins) && cs[|ins|].node != End
    ensures IsRun(max, cs + [Step(max, cs[|ins|], inp)], ins + [inp])
  {
  }

  lemma PrependRun(max: nat, c: Config, inp: Input, cs: seq<Config>, ins: seq<Input>)
    requires c.node != End && IsRun(max, cs, ins) && cs[0] == Step(max, c, inp)
    ensures IsRun(max, [c] + cs, [inp] + ins)
  {
    hide Step;
    var ds, js := [c] + cs, [inp] + ins;
    forall i | 0 <= i < |js| ensures ds[i].node != End && ds[i + 1] == Step(max, ds[i], js[i]) {
      if i > 0 {
        assert ds[i] == cs[i - 1] && ds[i + 1] == cs[i] && js[i] == ins[i - 1];
      }
    }
  }

  lemma JoinRuns(max: nat, cs: seq<Config>, ins: seq<Input>, ds: seq<Config>, js: seq<Input>)
    requires IsRun(max, cs, ins) && IsRun(max, ds, js) && cs[|ins|] == ds[0]
    ensures IsRun(max, cs[..|ins|] + ds, ins + js)
  {
    hide Step;
    var es, ks := cs[..|ins|] + ds, ins + js;
    forall i | 0 <= i < |ks| ensures es[i].node != End && es[i + 1] == Step(max, es[i], ks[i]) {
      if i < |ins| {
        assert es[i] == cs[i] && es[i + 1] == cs[i + 1];
      } else {
        assert es[i] == ds[i - |ins|] && es[i + 1] == ds[i - |ins| + 1] && ks[i] == js[i - |ins|];
      }
    }
  }
}
