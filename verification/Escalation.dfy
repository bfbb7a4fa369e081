/**
 When a gate escalates, what the routers read, and which findings a run carries:
 statements about every position of every run.
 */
module Escalation {
  import opened Wrappers
  import opened OrderedDict
  import opened Agents
  import opened DeliveryState
  import opened DeliveryGraph
  import opened MainLine
  import GateSafety

  // ---- a gate escalates on its (max + 1)-th rejection ----

  /** Rejections of the gate among the first k executions, since the last approved human review. */
  ghost function Rejections(cs: seq<Config>, ins: seq<Input>, k: nat, gate: Gate): nat
    requires k <= |ins| <= |cs|
  {
    if k == 0 then 0
    else if cs[k - 1].node == HumanReview && ins[k - 1].decision == APPROVED then 0
    else Rejections(cs, ins, k - 1, gate)
         + if cs[k - 1].node == GateNode(gate) && !Passes(gate, ins[k - 1]) then 1 else 0
  }

  /** A rejection that the counter has not recorded yet, or never will because it escalated. */
  function Unrecorded(c: Config, gate: Gate): (n: nat)
    ensures n <= 1
  {
    if GateSafety.Raised(c, gate) then 1 else 0
  }

  /** A node on the main line raises no gate. */
  lemma SideNodes(n: Node, gate: Gate)
    requires n.Work? || n == Delivered
    ensures n != CycleNode(gate) && n != Escalate(gate) && n != HumanReview
  {
  }

  lemma GateNodesRaiseNothing(c: Config, gate: Gate, here: Gate)
    requires c.node == GateNode(here)
    ensures Unrecorded(c, gate) == 0
    ensures c.node == GateNode(gate) <==> gate == here
  {
  }

  lemma SideNodeRaisesItsGate(d: Config, gate: Gate, here: Gate)
    requires d.node == CycleNode(here) || d.node == Escalate(here)
    ensures Unrecorded(d, gate) == if gate == here then 1 else 0
  {
  }

  lemma MainLineRaisesNothing(d: Config, gate: Gate, here: Gate)
    requires d.node == ResumeAfter(here)
    ensures Unrecorded(d, gate) == 0
  {
  }

  lemma RejectionAtGate(max: nat, c: Config, inp: Input, gate: Gate, here: Gate)
    requires c.node == GateNode(here)
    ensures var d := Step(max, c, inp);
            && Count(d.state, gate) == Count(c.state, gate)
            && Unrecorded(c, gate) == 0
            && Unrecorded(d, gate) == (if gate == here && !Passes(gate, inp) then 1 else 0)
            && (c.node == GateNode(gate) <==> gate == here)
  {
    hide Step, Passes, Unrecorded, Count, ResumeAfter, CycleNode;
    var d := Step(max, c, inp);
    GateStep(max, c, inp, here);
    GateKeepsCounts(max, c, inp, here, gate);
    GateNodesRaiseNothing(c, gate, here);
    if Passes(here, inp) {
      MainLineRaisesNothing(d, gate, here);
    } else {
      SideNodeRaisesItsGate(d, gate, here);
    }
  }

  lemma GateKeepsCounts(max: nat, c: Config, inp: Input, here: Gate, gate: Gate)
    requires c.node == GateNode(here)
    ensures Count(Step(max, c, inp).state, gate) == Count(c.state, gate)
  {
    hide Step;
    ControlFrame(max, c, inp);
    SameCounts(c.state, Step(max, c, inp).state);
  }

  lemma CancelledEnds(max: nat, c: Config, inp: Input)
    requires c.node == Cancelled || (WellFormed(max, c) && c.node == HumanReview && inp.decision != APPROVED)
    ensures Step(max, c, inp).node == Cancelled || Step(max, c, inp).node == End
  {
    if c.node == HumanReview {
      HumanStep(max, c, inp);
    }
  }

  lemma PlainRaisesNothing(max: nat, c: Config, inp: Input, gate: Gate)
    requires IsPlain(c.node) && c.node != Cancelled
    ensures Unrecorded(c, gate) == 0 && Unrecorded(Step(max, c, inp), gate) == 0
    ensures Count(Step(max, c, inp).state, gate) == Count(c.state, gate) && c.node != GateNode(gate)
  {
    hide Step, Count;
    PlainStep(max, c, inp);
    SameCounts(c.state, Step(max, c, inp).state);
  }

  /** An escalation passes the unrecorded rejection on to the review. */
  lemma EscalationRaises(max: nat, c: Config, inp: Input, gate: Gate)
    requires c.node.Escalate?
    ensures Unrecorded(Step(max, c, inp), gate) == Unrecorded(c, gate)
    ensures Count(Step(max, c, inp).state, gate) == Count(c.state, gate) && c.node != GateNode(gate)
  {
    hide Step, Count;
    EscalateStep(max, c, inp, c.node.gate);
    SameCounts(c.state, Step(max, c, inp).state);
  }

  lemma ReviewClears(max: nat, c: Config, inp: Input, gate: Gate)
    requires WellFormed(max, c) && c.node == HumanReview && inp.decision == APPROVED
    ensures Unrecorded(Step(max, c, inp), gate) == 0 && Count(Step(max, c, inp).state, gate) == 0
  {
    hide Step, Count;
    HumanStep(max, c, inp);
    MainLineRaisesNothing(Step(max, c, inp), gate, c.state.escalatedGate.value);
  }

  /** A counter node records the rejection that led to it. */
  lemma CycleRecords(max: nat, c: Config, inp: Input, gate: Gate, here: Gate)
    requires c.node == CycleNode(here)
    ensures Unrecorded(Step(max, c, inp), gate) == 0 && Unrecorded(c, gate) == (if gate == here then 1 else 0)
    ensures Count(Step(max, c, inp).state, gate) == Count(c.state, gate) + if gate == here then 1 else 0
    ensures c.node != GateNode(gate)
  {
    hide Step, Count;
    CycleStep(max, c, inp, here);
    SideNodes(CycleTarget(here), gate);
    SideNodeRaisesItsGate(c, gate, here);
    GateRanks(gate);
  }

  lemma RejectionStep(max: nat, c: Config, inp: Input, gate: Gate)
    requires WellFormed(max, c) && c.node != End && c.node != Cancelled
    requires c.node == HumanReview ==> inp.decision == APPROVED
    ensures var d := Step(max, c, inp);
            Count(d.state, gate) + Unrecorded(d, gate) ==
            if c.node == HumanReview then 0
            else Count(c.state, gate) + Unrecorded(c, gate)
                 + if c.node == GateNode(gate) && !Passes(gate, inp) then 1 else 0
  {
    hide Step, Count, Unrecorded, Passes, GateNode, CycleNode;
    NodeKinds(c.node);
    if IsGateNode(c.node) {
      RejectionAtGate(max, c, inp, gate, GateOf(c.node));
    } else if IsPlain(c.node) {
      PlainRaisesNothing(max, c, inp, gate);
    } else if c.node.Escalate? {
      EscalationRaises(max, c, inp, gate);
    } else if c.node == HumanReview {
      ReviewClears(max, c, inp, gate);
    } else {
      CycleIsReal(max, c);
      CounterNode(c.node);
      CycleRecords(max, c, inp, gate, if c.node.Cycle? then c.node.gate else IntakeGate);
    }
  }

  lemma CounterNode(n: Node)
    requires (n.Cycle? && n.gate != IntakeGate) || n == IntakeClarification
    ensures n == CycleNode(if n.Cycle? then n.gate else IntakeGate)
  {
  }

  /** In a run from empty counters the counter is the number of rejections, less the one still unrecorded. */
  lemma {:induction false} CounterCountsRejections(max: nat, cs: seq<Config>, ins: seq<Input>, k: nat, gate: Gate)
    requires IsRun(max, cs, ins) && k <= |ins| && cs[k].node != Cancelled && cs[k].node != End
    requires cs[0].node == Work(Triage) && forall g :: Count(cs[0].state, g) == 0
    ensures Rejections(cs, ins, k, gate) == Count(cs[k].state, gate) + Unrecorded(cs[k], gate)
    ensures WellFormed(max, cs[k]) && Rejections(cs, ins, k, gate) <= max + 1
  {
    hide Step, Unrecorded, WellFormed;
    StartIsWellFormed(max, cs[0]);
    RunIsWellFormed(max, cs, ins, k);
    Within(max, cs[k], gate);
    if k == 0 {
      GateSafety.StartIsNotRaised(max, cs[0], gate);
      NotRaised(cs[0], gate);
    } else {
      var c, inp := cs[k - 1], ins[k - 1];
      RunIsWellFormed(max, cs, ins, k - 1);
      if c.node == Cancelled || (c.node == HumanReview && inp.decision != APPROVED) {
        CancelledEnds(max, c, inp);
      } else {
        CounterCountsRejections(max, cs, ins, k - 1, gate);
        RejectionStep(max, c, inp, gate);
      }
    }
  }

  lemma Within(max: nat, c: Config, gate: Gate)
    requires WellFormed(max, c)
    ensures Count(c.state, gate) <= max
  {
  }

  lemma NotRaised(c: Config, gate: Gate)
    requires !GateSafety.Raised(c, gate)
    ensures Unrecorded(c, gate) == 0
  {
  }

  /** A rejected gate escalates exactly on its (max + 1)-th rejection since the start or the last approved review. */
  lemma EscalatesOnTheNextRejection(max: nat, cs: seq<Config>, ins: seq<Input>, k: nat, gate: Gate)
    requires IsRun(max, cs, ins) && k < |ins|
    requires cs[0].node == Work(Triage) && forall g :: Count(cs[0].state, g) == 0
    requires cs[k].node == GateNode(gate)
    ensures cs[k + 1].node ==
            if Passes(gate, ins[k]) then ResumeAfter(gate)
            else if Rejections(cs, ins, k + 1, gate) == max + 1 then Escalate(gate)
            else CycleNode(gate)
  {
    hide Step, WellFormed;
    GateRanks(gate);
    CounterCountsRejections(max, cs, ins, k, gate);
    Within(max, cs[k], gate);
    GateStep(max, cs[k], ins[k], gate);
  }

  /** Counters stay within the budget, only their own node raises them and only an approved review lowers them. */
  lemma CountersOnlyReset(max: nat, c: Config, inp: Input, gate: Gate)
    requires WellFormed(max, c) && c.node != End
    ensures Count(Step(max, c, inp).state, gate) <= max
    ensures Count(Step(max, c, inp).state, gate) ==
            if c.node == HumanReview && inp.decision == APPROVED then 0
            else Count(c.state, gate) + if c.node == CycleNode(gate) then 1 else 0
  {
    hide Step, WellFormed, Count;
    StepIsWellFormed(max, c, inp);
    Within(max, Step(max, c, inp), gate);
    if c.node == HumanReview {
      EscalatedIsKnown(max, c);
      HumanStep(max, c, inp);
      SameCountsIf(c.state, Step(max, c, inp).state);
    } else if c.node.Cycle? || c.node == IntakeClarification {
      CycleIsReal(max, c);
      CycleStep(max, c, inp, if c.node.Cycle? then c.node.gate else IntakeGate);
    } else if c.node.Escalate? {
      EscalateStep(max, c, inp, c.node.gate);
      SameCounts(c.state, Step(max, c, inp).state);
    } else {
      ControlFrame(max, c, inp);
      SameCounts(c.state, Step(max, c, inp).state);
    }
  }

  lemma SameCountsIf(s: State, t: State)
    ensures s.cycles == t.cycles ==> forall gate :: Count(s, gate) == Count(t, gate)
  {
  }

  lemma CycleIsReal(max: nat, c: Config)
    requires WellFormed(max, c)
    ensures c.node != Cycle(IntakeGate)
  {
  }

  // ---- routers read only what was just written ----

  lemma EscalatedIsKnown(max: nat, c: Config)
    requires WellFormed(max, c) && c.node == HumanReview
    ensures c.state.escalatedGate.Some?
  {
  }

  /**
   At a human review the recorded gate is the one whose `Escalate` node executed just before, and whose own node
   was rejected just before that. So the review resumes after that gate: the default resume point is never used.
   */
  lemma {:induction false} EscalatedIsTheOneThatRaised(max: nat, cs: seq<Config>, ins: seq<Input>, k: nat)
    requires IsRun(max, cs, ins) && IsStart(max, cs[0]) && k <= |ins| && cs[k].node == HumanReview
    ensures k >= 2 && cs[k - 1].node.Escalate?
    ensures cs[k].state.escalatedGate == Some(cs[k - 1].node.gate)
    ensures cs[k - 2].node == GateNode(cs[k - 1].node.gate) && !Passes(cs[k - 1].node.gate, ins[k - 2])
    ensures k < |ins| ==>
              cs[k + 1].node == if ins[k].decision == APPROVED then ResumeAfter(cs[k - 1].node.gate) else Cancelled
  {
    hide Step, WellFormed;
    StartIsWellFormed(max, cs[0]);
    EnteredFrom(max, cs, ins, k);
    EnteredFrom(max, cs, ins, k - 1);
    if k < |ins| {
      HumanStep(max, cs[k], ins[k]);
    }
  }

  /** The only ways into a human review and into an escalation. */
  lemma EnteredFrom(max: nat, cs: seq<Config>, ins: seq<Input>, k: nat)
    requires IsRun(max, cs, ins) && WellFormed(max, cs[0]) && cs[0].node == Work(Triage) && k <= |ins|
    requires cs[k].node == HumanReview || cs[k].node.Escalate?
    ensures k >= 1
    ensures cs[k].node == HumanReview ==>
              cs[k - 1].node.Escalate? && cs[k].state.escalatedGate == Some(cs[k - 1].node.gate)
    ensures cs[k].node.Escalate? ==>
              cs[k - 1].node == GateNode(cs[k].node.gate) && !Passes(cs[k].node.gate, ins[k - 1])
  {
    hide Step;
    var c, inp := cs[k - 1], ins[k - 1];
    RunIsWellFormed(max, cs, ins, k - 1);
    NodeKinds(c.node);
    if IsGateNode(c.node) {
      GateStep(max, c, inp, GateOf(c.node));
      GateRanks(GateOf(c.node));
    } else if IsPlain(c.node) {
      PlainStep(max, c, inp);
    } else if c.node.Escalate? {
      EscalateStep(max, c, inp, c.node.gate);
    } else if c.node == HumanReview {
      HumanStep(max, c, inp);
      GateRanks(c.state.escalatedGate.value);
    } else {
      CycleStep(max, c, inp, if c.node.Cycle? then c.node.gate else IntakeGate);
    }
  }

  /** The result a gate's router looks up has been written by the node it leaves: the default is never used. */
  lemma RouterReadsFreshStatus(max: nat, c: Config, inp: Input, stage: Stage)
    requires c.node == Work(stage)
    ensures stage in Step(max, c, inp).state.stageResults
    ensures StatusOf(Step(max, c, inp).state, stage) == StageStatus(inp.results)
  {
    NoAgentsApprove();
  }

  /** Two configurations that agree on the node, the counters and, at a review only, the escalated gate. */
  ghost predicate SameControl(c: Config, d: Config) {
    && c.node == d.node
    && (forall gate :: Count(c.state, gate) == Count(d.state, gate))
    && (c.node == HumanReview ==> c.state.escalatedGate == d.state.escalatedGate)
  }

  lemma SameControlStep(max: nat, c: Config, d: Config, inp: Input)
    requires SameControl(c, d) && WellFormed(max, c) && c.node != End
    ensures SameControl(Step(max, c, inp), Step(max, d, inp))
  {
    hide Step;
    NodeKinds(c.node);
    if IsGateNode(c.node) {
      GateStep(max, c, inp, GateOf(c.node));
      GateStep(max, d, inp, GateOf(c.node));
      ControlFrame(max, c, inp);
      ControlFrame(max, d, inp);
      SameCounts(c.state, Step(max, c, inp).state);
      SameCounts(d.state, Step(max, d, inp).state);
      GateRanks(GateOf(c.node));
    } else if IsPlain(c.node) {
      PlainStep(max, c, inp);
      PlainStep(max, d, inp);
      SameCounts(c.state, Step(max, c, inp).state);
      SameCounts(d.state, Step(max, d, inp).state);
    } else if c.node.Escalate? {
      EscalateStep(max, c, inp, c.node.gate);
      EscalateStep(max, d, inp, c.node.gate);
      SameCounts(c.state, Step(max, c, inp).state);
      SameCounts(d.state, Step(max, d, inp).state);
    } else if c.node == HumanReview {
      HumanStep(max, c, inp);
      HumanStep(max, d, inp);
      GateRanks(c.state.escalatedGate.value);
      SameCounts(c.state, c.state);
      if inp.decision != APPROVED {
        SameCounts(c.state, Step(max, c, inp).state);
        SameCounts(d.state, Step(max, d, inp).state);
      }
    } else {
      var g := if c.node.Cycle? then c.node.gate else IntakeGate;
      CycleStep(max, c, inp, g);
      CycleStep(max, d, inp, g);
      GateRanks(g);
    }
  }

  /**
   Noninterference: two runs fed the same answers visit the same nodes for ever, whatever else their states
   hold. In particular the `human_review_required` flag left by a rejected clarification never changes a route.
   */
  lemma {:induction false} RoutesDependOnCountersOnly(
    max: nat, cs: seq<Config>, ds: seq<Config>, ins: seq<Input>, k: nat)
    requires IsRun(max, cs, ins) && |ds| == |cs| && k <= |ins|
    requires forall i :: 0 <= i < |ins| ==> ds[i + 1] == Step(max, ds[i], ins[i])
    requires WellFormed(max, cs[0]) && SameControl(cs[0], ds[0])
    ensures cs[k].node == ds[k].node && SameControl(cs[k], ds[k])
  {
    hide Step;
    if k > 0 {
      RoutesDependOnCountersOnly(max, cs, ds, ins, k - 1);
      RunIsWellFormed(max, cs, ins, k - 1);
      SameControlStep(max, cs[k - 1], ds[k - 1], ins[k - 1]);
    }
  }

  // ---- findings ----

  /** A round of the stage that dispatched agents replaces its findings; every other execution leaves them alone. */
  lemma FindingsStep(max: nat, c: Config, inp: Input, stage: Stage)
    ensures Lookup(Step(max, c, inp).state.findingsByStage, stage) ==
            if c.node == Work(stage) && inp.results != [] then Some(AllFindings(inp.results))
            else Lookup(c.state.findingsByStage, stage)
  {
    if c.node.Work? && inp.results != [] {
      LookupAfterPut(c.state.findingsByStage, Entry(c.node.stage, AllFindings(inp.results)), stage);
    }
  }

  /** The i-th execution is, among the first k, the last round of the stage that dispatched agents. */
  ghost predicate LastRound(cs: seq<Config>, ins: seq<Input>, k: nat, stage: Stage, i: nat)
    requires k <= |ins| <= |cs|
  {
    && i < k && cs[i].node == Work(stage) && ins[i].results != []
    && forall j :: i < j < k ==> cs[j].node != Work(stage) || ins[j].results == []
  }

  /** The findings a run carries for a stage are those of the last round of the stage that dispatched agents. */
  lemma {:induction false} FindingsAreOfTheLastRound(
    max: nat, cs: seq<Config>, ins: seq<Input>, k: nat, stage: Stage, i: nat)
    requires IsRun(max, cs, ins) && k <= |ins| && LastRound(cs, ins, k, stage, i)
    ensures Lookup(cs[k].state.findingsByStage, stage) == Some(AllFindings(ins[i].results))
  {
    hide Step;
    FindingsStep(max, cs[k - 1], ins[k - 1], stage);
    if i < k - 1 {
      FindingsAreOfTheLastRound(max, cs, ins, k - 1, stage, i);
    }
  }

  /** A stage none of whose rounds dispatched agents has none. */
  lemma {:induction false} FindingsByRounds(max: nat, cs: seq<Config>, ins: seq<Input>, k: nat, stage: Stage)
    requires IsRun(max, cs, ins) && k <= |ins| && cs[0] == START
    ensures Lookup(cs[k].state.findingsByStage, stage) == None || exists i: nat :: LastRound(cs, ins, k, stage, i)
  {
    hide Step;
    if k > 0 {
      var m: nat := k - 1;
      FindingsStep(max, cs[m], ins[m], stage);
      FindingsByRounds(max, cs, ins, m, stage);
      if cs[m].node == Work(stage) && ins[m].results != [] {
        assert LastRound(cs, ins, k, stage, m);
      } else if i: nat :| LastRound(cs, ins, m, stage, i) {
        assert LastRound(cs, ins, k, stage, i);
      }
    }
  }

  lemma {:induction false} FindingsStayDistinct(max: nat, cs: seq<Config>, ins: seq<Input>, k: nat)
    requires IsRun(max, cs, ins) && k <= |ins| && cs[0] == START
    ensures Distinct(cs[k].state.findingsByStage)
  {
    hide Next;
    if k > 0 {
      FindingsStayDistinct(max, cs, ins, k - 1);
      var c, u := cs[k - 1], Execute(cs[k - 1].node, cs[k - 1].state, ins[k - 1]);
      if u.findings.Some? {
        PutShape(c.state.findingsByStage, u.findings.value);
      }
    }
  }

  /**
   A finding is pending exactly if the last round of some stage that dispatched agents reported it: nothing
   stale stays.
   */
  lemma PendingAreOfTheLastRounds(max: nat, cs: seq<Config>, ins: seq<Input>, k: nat, f: Finding)
    requires IsRun(max, cs, ins) && k <= |ins| && cs[0] == START
    ensures f in PendingFindings(cs[k].state.findingsByStage) <==>
            exists stage, i: nat :: LastRound(cs, ins, k, stage, i) && ReportedBy(ins[i].results, f)
  {
    hide Step, LastRound;
    var d := cs[k].state.findingsByStage;
    FindingsStayDistinct(max, cs, ins, k);
    PendingByStage(d, f);
    if stage :| Reports(d, stage, f) {
      FindingsByRounds(max, cs, ins, k, stage);
      var i: nat :| LastRound(cs, ins, k, stage, i);
      LastRoundBefore(cs, ins, k, stage, i);
      FindingOfOne(ins[i].results, f);
      FindingsAreOfTheLastRound(max, cs, ins, k, stage, i);
    }
    forall stage, i: nat | LastRound(cs, ins, k, stage, i)
      ensures i < k && Lookup(d, stage) == Some(AllFindings(ins[i].results))
      ensures Reports(d, stage, f) <==> ReportedBy(ins[i].results, f)
    {
      LastRoundBefore(cs, ins, k, stage, i);
      FindingOfOne(ins[i].results, f);
      FindingsAreOfTheLastRound(max, cs, ins, k, stage, i);
    }
  }

  lemma LastRoundBefore(cs: seq<Config>, ins: seq<Input>, k: nat, stage: Stage, i: nat)
    requires k <= |ins| <= |cs| && LastRound(cs, ins, k, stage, i)
    ensures i < k
  {
  }

  // ---- answers of the requester ----

  /** The i-th execution is a clarification that the requester answered with this note. */
  ghost predicate Answered(cs: seq<Config>, ins: seq<Input>, i: nat, note: string)
    requires i < |ins| <= |cs|
  {
    cs[i].node == IntakeClarification && ins[i].decision != REJECTED && ins[i].rationale == note != ""
  }

  lemma NotesStep(max: nat, c: Config, inp: Input, note: string)
    ensures c.state.clarificationNotes <= Step(max, c, inp).state.clarificationNotes
    ensures note in Step(max, c, inp).state.clarificationNotes <==>
            || note in c.state.clarificationNotes
            || (c.node == IntakeClarification && inp.decision != REJECTED && inp.rationale == note != "")
  {
    hide Execute, MergedCodeFiles, MergedFindings, Next;
    NotesUpdate(c, inp);
    ExtendMultiplicity(c.state.clarificationNotes, Execute(c.node, c.state, inp).clarificationNotes, note);
  }

  lemma NotesUpdate(c: Config, inp: Input)
    ensures Execute(c.node, c.state, inp).clarificationNotes ==
            if c.node == IntakeClarification && inp.decision != REJECTED && inp.rationale != "" then [inp.rationale]
            else []
  {
  }

  /** What the agents read as clarifications is exactly what the requester answered, whatever cycles lie between. */
  lemma {:induction false} NotesAreTheAnswers(max: nat, cs: seq<Config>, ins: seq<Input>, k: nat, note: string)
    requires IsRun(max, cs, ins) && k <= |ins| && cs[0] == START
    ensures note in cs[k].state.clarificationNotes <==> exists i: nat :: i < k && Answered(cs, ins, i, note)
  {
    hide Step;
    if k > 0 {
      NotesAreTheAnswers(max, cs, ins, k - 1, note);
      NotesStep(max, cs[k - 1], ins[k - 1], note);
      assert note in cs[k].state.clarificationNotes <==>
        note in cs[k - 1].state.clarificationNotes || Answered(cs, ins, k - 1, note);
    }
  }

  // ---- what the agents are shown of both ----

  /** A shown finding is of the last round of its stage; all such findings are shown while there are at most twenty. */
  lemma ShownFindingsAreCurrent(max: nat, cs: seq<Config>, ins: seq<Input>, k: nat, f: Finding)
    requires IsRun(max, cs, ins) && k <= |ins| && cs[0] == START
    ensures var pending := PendingFindings(cs[k].state.findingsByStage);
            && |ContextFindings(pending)| == (if |pending| <= 20 then |pending| else 20)
            && (exists older :: pending == older + ContextFindings(pending))
            && (f in ContextFindings(pending) ==>
                  exists stage, i: nat :: LastRound(cs, ins, k, stage, i) && ReportedBy(ins[i].results, f))
            && (|pending| <= 20 ==>
                  (f in ContextFindings(pending) <==>
                     exists stage, i: nat :: LastRound(cs, ins, k, stage, i) && ReportedBy(ins[i].results, f)))
  {
    hide Step, LastRound, PendingFindings;
    PendingAreOfTheLastRounds(max, cs, ins, k, f);
  }

  /**
   Every answer of the requester stands in the text that the agents are shown, if its place lies within the first
   4000 characters; of a longer text exactly these are shown, with the mark.
   */
  lemma ShownNotesAreTheAnswers(max: nat, cs: seq<Config>, ins: seq<Input>, k: nat, i: nat, note: string)
    returns (at: nat)
    requires IsRun(max, cs, ins) && cs[0] == START && i < k <= |ins| && Answered(cs, ins, i, note)
    ensures var text, shown := Joined(cs[k].state.clarificationNotes), ContextNotes(cs[k].state.clarificationNotes);
            && StandsAt(text, note, at)
            && (at + |note| <= 4000 ==> StandsAt(shown, note, at))
            && (|text| <= 4000 ==> shown == text)
            && (|text| > 4000 ==>
                  text[..4000] <= shown && shown[4000..] == TRUNCATION_MARK)
  {
    hide Step, Joined;
    NotesAreTheAnswers(max, cs, ins, k, note);
    var notes := cs[k].state.clarificationNotes;
    var n :| 0 <= n < |notes| && notes[n] == note;
    at := NoteStands(notes, n);
    var text, shown := Joined(notes), ContextNotes(notes);
    if |text| > 4000 && at + |note| <= 4000 {
      assert shown[at..at + |note|] == text[..4000][at..at + |note|] == text[at..at + |note|];
    }
  }
}
