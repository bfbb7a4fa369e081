/** The state carried by the delivery graph, and the reducers that merge a node's update into it. */
module DeliveryState {
  import opened Wrappers
  import opened OrderedDict
  import opened Agents

  datatype Stage =
    | Triage | IntakeAnalysis | ProductDiscovery | Requirements | Architecture | TechnicalPlanning
    | Development | CodeReview | AutomatedTests | FunctionalQa | SecurityCompliance
    | OperationalValidation | DocumentationRelease

  datatype Gate =
    | IntakeGate | ScopeGate | ArchitectureGate | CodeReviewGate | TestsGate | QaGate
    | SecurityGate | OperationalGate | ReleaseGate

  const ALL_GATES: set<Gate> := {
    IntakeGate, ScopeGate, ArchitectureGate, CodeReviewGate, TestsGate, QaGate,
    SecurityGate, OperationalGate, ReleaseGate
  }

  datatype Place = AtStage(stage: Stage) | AtDelivered | AtCancelled

  /** Fields absent from the source's dictionary are None, or the falsy value its readers see. */
  datatype State = State(
    currentStage: Option<Place>,
    stageResults: map<Stage, Status>,
    findingsByStage: seq<Entry<Stage, seq<Finding>>>,
    artifacts: seq<string>,
    codeFiles: seq<CodeFile>,
    clarificationNotes: seq<string>,
    cycles: map<Gate, nat>,
    scopeApproved: bool,
    releaseApproved: bool,
    humanReviewRequired: bool,
    escalatedGate: Option<Gate>)

  /** The input of a fresh invocation. */
  const INITIAL := State(None, map[], [], [], [], [], map[], false, false, false, None)

  /** The dictionary a node returns: only the fields it mentions are changed. */
  datatype Update = Update(
    currentStage: Option<Place>,
    stageResult: Option<(Stage, Status)>,
    findings: Option<Entry<Stage, seq<Finding>>>,
    artifacts: seq<string>,
    codeFiles: Option<seq<CodeFile>>,
    clarificationNotes: seq<string>,
    cycles: map<Gate, nat>,
    scopeApproved: Option<bool>,
    releaseApproved: Option<bool>,
    humanReviewRequired: Option<bool>,
    escalatedGate: Option<Gate>)

  const NO_UPDATE := Update(None, None, None, [], None, [], map[], None, None, None, None)

  // ---- reducers ----

  /** `left` followed by the items of `right` that `left` does not contain. */
  function Extend<T(==)>(left: seq<T>, right: seq<T>): seq<T> {
    if right == [] then left
    else
      var shorter := Extend(left, right[..|right| - 1]);
      var item := right[|right| - 1];
      if item in left then shorter else shorter + [item]
  }

  /**
   Nothing is lost, new items are added behind, an item of `left` is not repeated, and a repeated round
   changes nothing.
   */
  lemma {:induction false} ExtendReading<T>(left: seq<T>, right: seq<T>, item: T)
    ensures left <= Extend(left, right)
    ensures multiset(Extend(left, right))[item] == if item in left then multiset(left)[item] else multiset(right)[item]
    ensures Extend(Extend(left, right), right) == Extend(left, right)
    ensures exists at :: IsExtension(left, right, |right|, Extend(left, right), at)
  {
    ExtendMultiplicity(left, right, item);
    var at := ExtendPicks(left, right, |right|);
    assert right[..|right|] == right;
    forall i | 0 <= i < |right| ensures right[i] in Extend(left, right) {
      ExtendMultiplicity(left, right, right[i]);
      assert right[i] in multiset(right);
    }
    ExtendAbsorbs(Extend(left, right), right);
  }

  predicate IsNew<T(==)>(left: seq<T>, right: seq<T>, i: nat) {
    i < |right| && right[i] !in left
  }

  /** `left`, then those of the first n items of `right` that `left` does not contain, in order. */
  ghost predicate IsExtension<T>(left: seq<T>, right: seq<T>, n: nat, extended: seq<T>, at: seq<nat>) {
    && Picks(at, n, (i: nat) => IsNew(left, right, i))
    && |extended| == |left| + |at| && left <= extended
    && forall a :: 0 <= a < |at| ==> at[a] < |right| && extended[|left| + a] == right[at[a]]
  }

  lemma NextExtension<T>(left: seq<T>, right: seq<T>, n: nat, extended: seq<T>, at: seq<nat>)
    requires n < |right| && IsExtension(left, right, n, extended, at)
    ensures right[n] in left ==> IsExtension(left, right, n + 1, extended, at)
    ensures right[n] !in left ==> IsExtension(left, right, n + 1, extended + [right[n]], at + [n])
  {
    PicksNext(at, n, (i: nat) => IsNew(left, right, i));
  }

  lemma {:induction false} ExtendPicks<T>(left: seq<T>, right: seq<T>, n: nat) returns (at: seq<nat>)
    requires n <= |right|
    ensures IsExtension(left, right, n, Extend(left, right[..n]), at)
  {
    if n == 0 {
      at := [];
    } else {
      hide IsExtension;
      at := ExtendPicks(left, right, n - 1);
      assert right[..n][..n - 1] == right[..n - 1];
      NextExtension(left, right, n - 1, Extend(left, right[..n - 1]), at);
      at := if right[n - 1] in left then at else at + [n - 1];
    }
  }

  lemma {:induction false} ExtendMultiplicity<T>(left: seq<T>, right: seq<T>, item: T)
    ensures left <= Extend(left, right)
    ensures multiset(Extend(left, right))[item] == if item in left then multiset(left)[item] else multiset(right)[item]
    ensures item in Extend(left, right) <==> item in left || item in right
  {
    if right != [] {
      var init, last := right[..|right| - 1], right[|right| - 1];
      ExtendMultiplicity(left, init, item);
      assert right == init + [last];
    }
  }

  lemma {:induction false} ExtendAbsorbs<T>(left: seq<T>, right: seq<T>)
    requires forall i :: 0 <= i < |right| ==> right[i] in left
    ensures Extend(left, right) == left
  {
    if right != [] {
      ExtendAbsorbs(left, right[..|right| - 1]);
    }
  }

  /** Code files merged by path: a dictionary filled from `left`, then from `right`. */
  function MergedCodeFiles(left: seq<CodeFile>, right: seq<CodeFile>): seq<CodeFile> {
    Normal(left + right)
  }

  method MergeCodeFiles(left: seq<CodeFile>, right: seq<CodeFile>) returns (merged: seq<CodeFile>)
    ensures merged == MergedCodeFiles(left, right)
    ensures |merged| == |FirstKeys(left + right)|
    ensures forall i :: 0 <= i < |merged| ==>
                          && merged[i].key == FirstKeys(left + right)[i]
                          && Has(left + right, merged[i].key)
                          && merged[i].value == Latest(left + right, merged[i].key)
  {
    var byPath: seq<CodeFile> := [];
    for i := 0 to |left|
      invariant byPath == Normal(left[..i])
    {
      byPath := Put(byPath, left[i]);
      assert left[..i + 1][..|left[..i + 1]| - 1] == left[..i];
    }
    assert left[..|left|] == left && left + right[..0] == left;
    for i := 0 to |right|
      invariant byPath == Normal(left + right[..i])
    {
      byPath := Put(byPath, right[i]);
      ghost var history := left + right[..i + 1];
      assert history[..|history| - 1] == left + right[..i];
    }
    assert right[..|right|] == right;
    NormalIsReference(left + right);
    return byPath;
  }

  /** A round's findings replace those of the same stage, also when the round found nothing. */
  function MergedFindings(left: seq<Entry<Stage, seq<Finding>>>, right: Option<Entry<Stage, seq<Finding>>>)
    : seq<Entry<Stage, seq<Finding>>>
  {
    if right.Some? then Put(left, right.value) else left
  }

  function Lookup(d: seq<Entry<Stage, seq<Finding>>>, stage: Stage): Option<seq<Finding>> {
    if d == [] then None
    else if d[0].key == stage then Some(d[0].value)
    else Lookup(d[1..], stage)
  }

  lemma {:induction false} LookupAfterPut(
    d: seq<Entry<Stage, seq<Finding>>>, e: Entry<Stage, seq<Finding>>, stage: Stage)
    ensures Lookup(Put(d, e), stage) == if stage == e.key then Some(e.value) else Lookup(d, stage)
  {
    if d != [] && d[0].key != e.key {
      LookupAfterPut(d[1..], e, stage);
      assert Put(d, e)[1..] == Put(d[1..], e);
    } else if d != [] {
      assert Put(d, e)[1..] == d[1..];
    }
  }

  /** `all_findings`: the findings of all stages, in the order of the dictionary. */
  function PendingFindings(d: seq<Entry<Stage, seq<Finding>>>): seq<Finding> {
    if d == [] then [] else d[0].value + PendingFindings(d[1..])
  }

  /** The stage's entry reports the finding. */
  predicate Reports(d: seq<Entry<Stage, seq<Finding>>>, stage: Stage, f: Finding) {
    Lookup(d, stage).Some? && f in Lookup(d, stage).value
  }

  lemma {:induction false} PendingByStage(d: seq<Entry<Stage, seq<Finding>>>, f: Finding)
    requires Distinct(d)
    ensures f in PendingFindings(d) <==> exists stage :: Reports(d, stage, f)
  {
    if d != [] {
      var rest := d[1..];
      PendingByStage(rest, f);
      LookupOfKey(rest, d[0].key);
      assert Reports(d, d[0].key, f) <==> f in d[0].value;
      forall stage | stage != d[0].key ensures Reports(d, stage, f) <==> Reports(rest, stage, f) {
      }
      assert !Reports(rest, d[0].key, f);
    }
  }

  lemma {:induction false} LookupOfKey(d: seq<Entry<Stage, seq<Finding>>>, stage: Stage)
    ensures Lookup(d, stage).Some? <==> exists i :: 0 <= i < |d| && d[i].key == stage
  {
    if d != [] {
      LookupOfKey(d[1..], stage);
      if i :| 0 <= i < |d| && d[i].key == stage {
        if i > 0 {
          assert d[1..][i - 1].key == stage;
        }
      }
    }
  }

  /** A node's update merged into the state, field by field. */
  function Apply(s: State, u: Update): State {
    State(
      if u.currentStage.Some? then u.currentStage else s.currentStage,
      if u.stageResult.Some? then s.stageResults[u.stageResult.value.0 := u.stageResult.value.1] else s.stageResults,
      MergedFindings(s.findingsByStage, u.findings),
      Extend(s.artifacts, u.artifacts),
      if u.codeFiles.Some? then MergedCodeFiles(s.codeFiles, u.codeFiles.value) else s.codeFiles,
      Extend(s.clarificationNotes, u.clarificationNotes),
      s.cycles + u.cycles,
      u.scopeApproved.GetOr(s.scopeApproved),
      u.releaseApproved.GetOr(s.releaseApproved),
      u.humanReviewRequired.GetOr(s.humanReviewRequired),
      if u.escalatedGate.Some? then u.escalatedGate else s.escalatedGate)
  }

  // ---- code files over a history of rounds ----

  /** The code files after a history of rounds, merged one round at a time. */
  function AfterRounds(rounds: seq<seq<CodeFile>>): seq<CodeFile> {
    if rounds == [] then []
    else MergedCodeFiles(AfterRounds(rounds[..|rounds| - 1]), rounds[|rounds| - 1])
  }

  function Concat(rounds: seq<seq<CodeFile>>): seq<CodeFile> {
    if rounds == [] then [] else Concat(rounds[..|rounds| - 1]) + rounds[|rounds| - 1]
  }

  lemma {:induction false} RoundsAreOneNormalForm(rounds: seq<seq<CodeFile>>)
    ensures AfterRounds(rounds) == Normal(Concat(rounds))
  {
    if rounds != [] {
      RoundsAreOneNormalForm(rounds[..|rounds| - 1]);
      NormalLeft(Concat(rounds[..|rounds| - 1]), rounds[|rounds| - 1]);
    }
  }

  /** Merging is associative... */
  lemma MergeIsAssociative(a: seq<CodeFile>, b: seq<CodeFile>, c: seq<CodeFile>)
    ensures MergedCodeFiles(MergedCodeFiles(a, b), c) == MergedCodeFiles(a, MergedCodeFiles(b, c))
  {
    NormalLeft(a + b, c);
    NormalRight(a, b + c);
    assert a + b + c == a + (b + c);
  }

  /** ... and a repeated round changes nothing. */
  lemma MergeAbsorbsRepeat(s: seq<CodeFile>, round: seq<CodeFile>)
    ensures MergedCodeFiles(MergedCodeFiles(s, round), round) == MergedCodeFiles(s, round)
  {
    NormalLeft(s + round, round);
    forall i | 0 <= i < |round| ensures Has(s + round, round[i].key) {
      assert (s + round)[|s| + i].key == round[i].key;
    }
    FirstKeysAbsorb(s + round, round);
    forall k | Has(s + round + round, k) && Has(s + round, k)
      ensures Latest(s + round + round, k) == Latest(s + round, k)
    {
      LatestAppend(s + round, round, k);
      HasAppend(s, round, k);
      LatestAppend(s, round, k);
    }
    SameReading(s + round + round, s + round);
  }

  // ---- what an agent is shown ----

  const MAX_CODE_FILES := 15
  const MAX_CODE_FILE_CHARS := 8000
  const TRUNCATION_MARK := "\n[conteúdo truncado pelo context builder]"

  /** A short text stays as it is; of a long one the beginning is shown, with a mark. */
  function Truncate(text: string, limit: nat): (shown: string)
    ensures |shown| <= limit + |TRUNCATION_MARK|
    ensures |text| <= limit ==> shown == text
    ensures |text| > limit ==> text[..limit] <= shown && shown[limit..] == TRUNCATION_MARK
  {
    if |text| <= limit then text else text[..limit] + TRUNCATION_MARK
  }

  function ContextCodeFiles(files: seq<CodeFile>): seq<CodeFile> {
    var shown := if |files| <= MAX_CODE_FILES then files else files[..MAX_CODE_FILES];
    seq(|shown|, i requires 0 <= i < |shown| =>
      shown[i].(value := shown[i].value.(content := Truncate(shown[i].value.content, MAX_CODE_FILE_CHARS))))
  }

  /** After any history of rounds an agent sees the first 15 distinct paths, each in its latest version. */
  lemma ContextShowsLatestVersions(rounds: seq<seq<CodeFile>>)
    ensures
      var history := Concat(rounds);
      var shown := ContextCodeFiles(AfterRounds(rounds));
      && |shown| == (if |FirstKeys(history)| <= MAX_CODE_FILES then |FirstKeys(history)| else MAX_CODE_FILES)
      && (forall i :: 0 <= i < |shown| ==>
                        && shown[i].key == FirstKeys(history)[i]
                        && Has(history, shown[i].key)
                        && shown[i].value.content
                           == Truncate(Latest(history, shown[i].key).content, MAX_CODE_FILE_CHARS))
      && (forall i, j :: 0 <= i < j < |shown| ==> shown[i].key != shown[j].key)
  {
    RoundsAreOneNormalForm(rounds);
    NormalIsReference(Concat(rounds));
  }

  const MAX_ARTIFACTS := 20

  /** `relevant_artifacts[:20]`. */
  function ContextArtifacts(artifacts: seq<string>): (shown: seq<string>)
    ensures |artifacts| <= MAX_ARTIFACTS ==> shown == artifacts
    ensures |artifacts| >= MAX_ARTIFACTS ==> |shown| == MAX_ARTIFACTS && shown <= artifacts
  {
    if |artifacts| <= MAX_ARTIFACTS then artifacts else artifacts[..MAX_ARTIFACTS]
  }

  const MAX_FINDINGS := 20
  const MAX_FIELD_CHARS := 4000

  /** `pending_findings[-20:]`. */
  function ContextFindings(findings: seq<Finding>): (shown: seq<Finding>)
    ensures |shown| <= MAX_FINDINGS && (|findings| >= MAX_FINDINGS ==> |shown| == MAX_FINDINGS)
    ensures |findings| <= MAX_FINDINGS ==> shown == findings
    ensures exists older :: findings == older + shown
  {
    var from := if |findings| <= MAX_FINDINGS then 0 else |findings| - MAX_FINDINGS;
    assert findings == findings[..from] + findings[from..];
    findings[from..]
  }

  /** The notes, one per line. */
  function Joined(notes: seq<string>): string {
    if notes == [] then "" else if |notes| == 1 then notes[0] else notes[0] + "\n" + Joined(notes[1..])
  }

  function ContextNotes(notes: seq<string>): string {
    Truncate(Joined(notes), MAX_FIELD_CHARS)
  }

  /** The note stands in the text, from `at` on. */
  predicate StandsAt(text: string, note: string, at: nat) {
    at + |note| <= |text| && text[at..at + |note|] == note
  }

  /** One note is its own text; of more, any split stands on both sides of a line break. */
  lemma {:induction false} JoinedByLines(notes: seq<string>, n: nat)
    requires 0 < n < |notes|
    ensures Joined(notes) == Joined(notes[..n]) + "\n" + Joined(notes[n..])
    ensures Joined([notes[0]]) == notes[0]
  {
    if n == 1 {
      assert notes[..1] == [notes[0]];
    } else {
      JoinedByLines(notes[1..], n - 1);
      assert notes[..n][1..] == notes[1..][..n - 1] && notes[1..][n - 1..] == notes[n..];
    }
  }

  /** Where the n-th note stands: after the ones before it, with a line break between. */
  lemma NoteStands(notes: seq<string>, n: nat) returns (at: nat)
    requires n < |notes|
    ensures at == if n == 0 then 0 else |Joined(notes[..n])| + 1
    ensures StandsAt(Joined(notes), notes[n], at)
  {
    hide Joined;
    at := if n == 0 then 0 else |Joined(notes[..n])| + 1;
    if n > 0 {
      JoinedByLines(notes, n);
    }
    assert n == 0 ==> notes[n..] == notes;
    StartsWithFirst(notes[n..]);
    assert Joined(notes)[at..] == Joined(notes[n..]);
    assert Joined(notes)[at..at + |notes[n]|] == Joined(notes[n..])[..|notes[n]|];
  }

  lemma StartsWithFirst(notes: seq<string>)
    requires notes != []
    ensures notes[0] <= Joined(notes)
  {
  }
}
