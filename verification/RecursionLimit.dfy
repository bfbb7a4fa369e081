/**
 One invocation of the graph may execute at most `recursion_limit` nodes, human
 reviews included, because a review is a node that polls. When does every run fit?
 */
module RecursionLimit {
  import opened Wrappers
  import opened DeliveryState
  import opened DeliveryGraph
  import opened MainLine
  import opened Budget

  // ---- without cycles every run is short ----

  /** Gates still ahead at a given distance. */
  function Ahead(distance: nat): nat {
    if distance >= 15 then 9
    else if distance >= 12 then 8
    else if distance == 11 then 7
    else if distance >= 8 then 6
    else if distance >= 4 then distance - 2
    else if distance >= 2 then 1
    else 0
  }

  function Forward(n: Node): nat {
    Distance(n) + 2 * Ahead(Distance(n))
  }

  /** Nodes still to execute if every gate escalates and every review approves. */
  function Measure(c: Config): nat {
    if c.node.Escalate? then 2 + Forward(ResumeAfter(c.node.gate))
    else if c.node == HumanReview && c.state.escalatedGate.Some? then
      1 + Forward(ResumeAfter(c.state.escalatedGate.value))
    else if c.node == Cancelled then 1
    else if c.node == End then 0
    else Forward(c.node)
  }

  lemma GateAhead(gate: Gate)
    ensures Forward(GateNode(gate)) == Forward(ResumeAfter(gate)) + 3
  {
  }

  lemma ForwardSteps(n: Node)
    requires IsPlain(n)
    ensures PlainNext(n) != End ==> Forward(PlainNext(n)) == Forward(n) - 1
    ensures PlainNext(n) == End ==> n == Delivered || n == Cancelled
    ensures !PlainNext(n).Escalate? && PlainNext(n) != HumanReview && PlainNext(n) != Cancelled
    ensures Forward(Delivered) == 1
  {
  }

  /** With a zero budget every step shortens the rest of the run, by one if gates refuse and reviews approve. */
  lemma StraightStep(c: Config, inp: Input)
    requires WellFormed(0, c) && c.node != End
    ensures Measure(Step(0, c, inp)) <= Measure(c) - 1
    ensures (if IsGateNode(c.node) then inp == REJECT else inp == PASS)
            ==> Measure(Step(0, c, inp)) == Measure(c) - 1 && Step(0, c, inp).node != Cancelled
  {
    hide Step, Forward;
    NodeKinds(c.node);
    NoCycles(c);
    if IsGateNode(c.node) {
      var gate := GateOf(c.node);
      PassAndReject();
      GateStep(0, c, inp, gate);
      GateAhead(gate);
      GateDistances(gate);
      ResumeIsForward(gate);
    } else if IsPlain(c.node) {
      PlainStep(0, c, inp);
      ForwardSteps(c.node);
    } else if c.node.Escalate? {
      EscalateStep(0, c, inp, c.node.gate);
    } else if c.node == HumanReview {
      HumanStep(0, c, inp);
      ResumeIsForward(c.state.escalatedGate.value);
    }
  }

  lemma NoCycles(c: Config)
    requires WellFormed(0, c)
    ensures !c.node.Cycle? && c.node != IntakeClarification
  {
    assert CycleNode(IntakeGate) == IntakeClarification;
    assert forall gate :: gate != IntakeGate ==> CycleNode(gate) == Cycle(gate);
  }

  lemma ResumeIsForward(gate: Gate)
    ensures OnTheWay(ResumeAfter(gate)) && Forward(ResumeAfter(gate)) >= 1
  {
  }

  lemma {:induction false} StraightRun(cs: seq<Config>, ins: seq<Input>, k: nat)
    requires IsRun(0, cs, ins) && WellFormed(0, cs[0]) && k <= |ins|
    ensures k + Measure(cs[k]) <= Measure(cs[0])
  {
    hide Step, Measure, WellFormed;
    if k > 0 {
      StraightRun(cs, ins, k - 1);
      RunIsWellFormed(0, cs, ins, k - 1);
      StraightStep(cs[k - 1], ins[k - 1]);
    }
  }

  lemma {:induction false} EveryGateEscalates(c: Config) returns (cs: seq<Config>, ins: seq<Input>)
    requires WellFormed(0, c) && c.node != Cancelled
    ensures IsRun(0, cs, ins) && cs[0] == c && |ins| == Measure(c)
    decreases Measure(c)
  {
    hide Step, WellFormed, Forward;
    if c.node == End {
      cs, ins := [c], [];
    } else {
      var inp := if IsGateNode(c.node) then REJECT else PASS;
      StraightStep(c, inp);
      StepIsWellFormed(0, c, inp);
      cs, ins := EveryGateEscalates(Step(0, c, inp));
      PrependRun(0, c, inp, cs, ins);
      cs, ins := [c] + cs, [inp] + ins;
    }
  }

  // ---- with cycles, approved reviews renew the budget for ever ----

  predicate OnApproach(n: Node) {
    || (4 <= Distance(n) <= 10 && OnTheWay(n) && !n.Cycle?)
    || n == Cycle(OperationalGate)
  }

  lemma ApproachStep(max: nat, c: Config)
    requires WellFormed(max, c) && OnApproach(c.node)
    ensures var d := Step(max, c, if c.node == Work(OperationalValidation) then REJECT else PASS);
            OnApproach(d.node) || d.node == Escalate(OperationalGate)
  {
    hide Step, Count, Passes;
    var inp := if c.node == Work(OperationalValidation) then REJECT else PASS;
    PassAndReject();
    NodeKinds(c.node);
    if IsGateNode(c.node) {
      GateStep(max, c, inp, GateOf(c.node));
    } else if IsPlain(c.node) {
      PlainStep(max, c, inp);
    } else {
      CycleStep(max, c, inp, OperationalGate);
    }
  }

  /** From planning on, refusing every operational validation leads to a review of that gate. */
  lemma {:induction false} ToOperationalReview(max: nat, c: Config) returns (cs: seq<Config>, ins: seq<Input>)
    requires WellFormed(max, c) && (OnApproach(c.node) || c.node == Escalate(OperationalGate))
    ensures IsRun(max, cs, ins) && cs[0] == c && WellFormed(max, cs[|ins|])
    ensures cs[|ins|].node == HumanReview && cs[|ins|].state.escalatedGate == Some(OperationalGate)
    decreases Potential(max, c)
  {
    hide Step, WellFormed, Unspent;
    if c.node == Escalate(OperationalGate) {
      EscalateStep(max, c, PASS, OperationalGate);
      StepIsWellFormed(max, c, PASS);
      cs, ins := [c, Step(max, c, PASS)], [PASS];
    } else {
      var inp := if c.node == Work(OperationalValidation) then REJECT else PASS;
      ApproachStep(max, c);
      StepSpends(max, c, inp);
      StepIsWellFormed(max, c, inp);
      PotentialBounds(max, c);
      var ds, js := ToOperationalReview(max, Step(max, c, inp));
      PrependRun(max, c, inp, ds, js);
      cs, ins := [c] + ds, [inp] + js;
      assert cs[|ins|] == ds[|js|];
    }
  }

  /** The review is approved, and the release refused once: back at planning. */
  lemma BackToPlanning(max: nat, c: Config) returns (cs: seq<Config>, ins: seq<Input>)
    requires WellFormed(max, c) && max >= 1
    requires c.node == HumanReview && c.state.escalatedGate == Some(OperationalGate)
    ensures IsRun(max, cs, ins) && cs[0] == c && |ins| == 4
    ensures WellFormed(max, cs[4]) && cs[4].node == Work(TechnicalPlanning)
  {
    hide Step, WellFormed, Count;
    var d := Step(max, c, PASS);
    HumanStep(max, c, PASS);
    var e := Step(max, d, PASS);
    PlainStep(max, d, PASS);
    SameCounts(d.state, e.state);
    var f := Step(max, e, REJECT);
    RefuseOnce(max, e, ReleaseGate);
    cs, ins := [c, d, e, f, Step(max, f, PASS)], [PASS, PASS, REJECT, PASS];
    RunIsWellFormed(max, cs, ins, 4);
  }

  /** With at least one cycle per gate there are runs longer than any number. */
  lemma {:induction false} LongRun(max: nat, n: nat) returns (cs: seq<Config>, ins: seq<Input>)
    requires max >= 1
    ensures IsRun(max, cs, ins) && cs[0] == START && |ins| >= n
    ensures WellFormed(max, cs[|ins|]) && cs[|ins|].node == Work(TechnicalPlanning)
  {
    hide Step, WellFormed;
    if n == 0 {
      cs, ins := PassTo(max, StageRank(TechnicalPlanning));
      StartIsWellFormed(max, START);
      RunIsWellFormed(max, cs, ins, |ins|);
    } else {
      var cs0, ins0 := LongRun(max, n - 1);
      var cs1, ins1 := ToOperationalReview(max, cs0[|ins0|]);
      JoinRuns(max, cs0, ins0, cs1, ins1);
      var cs2, ins2 := cs0[..|ins0|] + cs1, ins0 + ins1;
      var cs3, ins3 := BackToPlanning(max, cs2[|ins2|]);
      JoinRuns(max, cs2, ins2, cs3, ins3);
      cs, ins := cs2[..|ins2|] + cs3, ins2 + ins3;
    }
  }

  /** Every run, reviews included, fits a limit exactly when no gate may cycle and the limit is at least 34. */
  lemma EveryRunFits(max: nat, limit: nat)
    ensures (forall cs, ins :: IsRun(max, cs, ins) && cs[0] == START ==> |ins| <= limit)
            <==> max == 0 && 34 <= limit
  {
    hide Step, WellFormed, Measure;
    StartIsWellFormed(max, START);
    FreshMeasure();
    if max == 0 {
      if 34 <= limit {
        forall cs, ins | IsRun(max, cs, ins) && cs[0] == START ensures |ins| <= limit {
          StraightRun(cs, ins, |ins|);
        }
      } else {
        var cs, ins := EveryGateEscalates(START);
      }
    } else {
      var cs, ins := LongRun(max, limit + 1);
    }
  }

  lemma FreshMeasure()
    ensures Measure(START) == 34
  {
  }
}
