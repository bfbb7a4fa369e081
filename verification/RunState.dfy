/** What a run carries along, told from the nodes it visited and the answers they got. */
module RunState {
  import opened Wrappers
  import opened OrderedDict
  import opened Agents
  import opened DeliveryState
  import opened DeliveryGraph

  // ---- code files ----

  /** The m-th code file of the j-th result of the i-th execution. */
  datatype Origin = Origin(i: nat, j: nat, m: nat)

  predicate Earlier(a: Origin, b: Origin) {
    a.i < b.i || (a.i == b.i && (a.j < b.j || (a.j == b.j && a.m < b.m)))
  }

  /** An agent of one of the first k executions wrote this file. */
  predicate Wrote(cs: seq<Config>, ins: seq<Input>, k: nat, o: Origin)
    requires k <= |ins| <= |cs|
  {
    o.i < k && cs[o.i].node.Work? && o.j < |ins[o.i].results| && o.m < |ins[o.i].results[o.j].codeFiles|
  }

  function FileAt(ins: seq<Input>, o: Origin): CodeFile
    requires o.i < |ins| && o.j < |ins[o.i].results| && o.m < |ins[o.i].results[o.j].codeFiles|
  {
    ins[o.i].results[o.j].codeFiles[o.m]
  }

  ghost predicate FirstWrite(cs: seq<Config>, ins: seq<Input>, k: nat, o: Origin)
    requires k <= |ins| <= |cs|
  {
    && Wrote(cs, ins, k, o)
    && forall p :: Wrote(cs, ins, k, p) && FileAt(ins, p).key == FileAt(ins, o).key ==> !Earlier(p, o)
  }

  ghost predicate LastWrite(cs: seq<Config>, ins: seq<Input>, k: nat, o: Origin)
    requires k <= |ins| <= |cs|
  {
    && Wrote(cs, ins, k, o)
    && forall p :: Wrote(cs, ins, k, p) && FileAt(ins, p).key == FileAt(ins, o).key ==> !Earlier(o, p)
  }

  predicate AreWrites(cs: seq<Config>, ins: seq<Input>, k: nat, ws: seq<Origin>)
    requires k <= |ins| <= |cs|
  {
    forall p :: 0 <= p < |ws| ==> Wrote(cs, ins, k, ws[p])
  }

  /** All writes of the first k executions, in order. */
  ghost predicate Listing(cs: seq<Config>, ins: seq<Input>, k: nat, ws: seq<Origin>)
    requires k <= |ins| <= |cs|
  {
    && AreWrites(cs, ins, k, ws)
    && (forall p, q :: 0 <= p < q < |ws| ==> Earlier(ws[p], ws[q]))
    && (forall o :: Wrote(cs, ins, k, o) ==> o in ws)
  }

  function Files(cs: seq<Config>, ins: seq<Input>, k: nat, ws: seq<Origin>): (fs: seq<CodeFile>)
    requires k <= |ins| <= |cs| && AreWrites(cs, ins, k, ws)
    ensures |fs| == |ws|
  {
    seq(|ws|, p requires 0 <= p < |ws| => assert Wrote(cs, ins, k, ws[p]); FileAt(ins, ws[p]))
  }

  /** The writes of one round, in the order of its results. */
  function RoundWrites(i: nat, results: seq<AgentResult>): seq<Origin> {
    if results == [] then []
    else
      var j: nat := |results| - 1;
      RoundWrites(i, results[..j]) + seq(|results[j].codeFiles|, m requires 0 <= m => Origin(i, j, m))
  }

  lemma {:induction false} AllCodeFilesSnoc(results: seq<AgentResult>, last: AgentResult)
    ensures AllCodeFiles(results + [last]) == AllCodeFiles(results) + last.codeFiles
  {
    if results == [] {
      assert results + [last] == [last];
    } else {
      AllCodeFilesSnoc(results[1..], last);
      assert (results + [last])[1..] == results[1..] + [last];
    }
  }

  predicate InRound(i: nat, results: seq<AgentResult>, o: Origin) {
    o.i == i && o.j < |results| && o.m < |results[o.j].codeFiles|
  }

  lemma {:induction false} RoundListed(i: nat, results: seq<AgentResult>)
    ensures var ws := RoundWrites(i, results);
            && |ws| == |AllCodeFiles(results)|
            && (forall p :: 0 <= p < |ws| ==>
                              InRound(i, results, ws[p])
                              && results[ws[p].j].codeFiles[ws[p].m] == AllCodeFiles(results)[p])
            && (forall p, q :: 0 <= p < q < |ws| ==> Earlier(ws[p], ws[q]))
            && (forall o :: InRound(i, results, o) ==> o in ws)
  {
    if results != [] {
      var j: nat := |results| - 1;
      var init := results[..j];
      RoundListed(i, init);
      AllCodeFilesSnoc(init, results[j]);
      assert init + [results[j]] == results;
      var before := RoundWrites(i, init);
      var added := seq(|results[j].codeFiles|, m requires 0 <= m => Origin(i, j, m));
      forall o | InRound(i, results, o) ensures o in before + added {
        if o.j < j {
          assert InRound(i, init, o);
        } else {
          assert added[o.m] == o;
        }
      }
    }
  }

  lemma CodeFilesStep(max: nat, c: Config, inp: Input)
    ensures Step(max, c, inp).state.codeFiles ==
            if c.node.Work? && inp.results != [] then MergedCodeFiles(c.state.codeFiles, AllCodeFiles(inp.results))
            else c.state.codeFiles
  {
    hide Next, MergedCodeFiles, MergedFindings, Extend, StageStatus;
  }

  lemma RoundJoins(cs: seq<Config>, ins: seq<Input>, k: nat, ws: seq<Origin>)
    requires k < |ins| <= |cs| && cs[k].node.Work? && Listing(cs, ins, k, ws) && AreWrites(cs, ins, k, ws)
    ensures var longer := ws + RoundWrites(k, ins[k].results);
            && Listing(cs, ins, k + 1, longer) && AreWrites(cs, ins, k + 1, longer)
            && Files(cs, ins, k + 1, longer) == Files(cs, ins, k, ws) + AllCodeFiles(ins[k].results)
  {
    var round := RoundWrites(k, ins[k].results);
    var longer := ws + round;
    RoundListed(k, ins[k].results);
    forall p | 0 <= p < |longer| ensures Wrote(cs, ins, k + 1, longer[p]) {
      assert p < |ws| ==> Wrote(cs, ins, k, ws[p]);
      assert p >= |ws| ==> InRound(k, ins[k].results, round[p - |ws|]);
    }
    forall o | Wrote(cs, ins, k + 1, o) ensures o in longer {
      assert if o.i < k then Wrote(cs, ins, k, o) else InRound(k, ins[k].results, o);
    }
    assert Files(cs, ins, k + 1, longer) == Files(cs, ins, k, ws) + AllCodeFiles(ins[k].results);
  }

  lemma NoRoundJoins(cs: seq<Config>, ins: seq<Input>, k: nat, ws: seq<Origin>)
    requires k < |ins| <= |cs| && !cs[k].node.Work? && Listing(cs, ins, k, ws) && AreWrites(cs, ins, k, ws)
    ensures Listing(cs, ins, k + 1, ws) && AreWrites(cs, ins, k + 1, ws)
    ensures Files(cs, ins, k + 1, ws) == Files(cs, ins, k, ws)
  {
    forall p | 0 <= p < |ws| ensures Wrote(cs, ins, k + 1, ws[p]) {
      assert Wrote(cs, ins, k, ws[p]);
    }
    forall o | Wrote(cs, ins, k + 1, o) ensures o in ws {
      assert Wrote(cs, ins, k, o);
    }
  }

  /** The code files of a run are the dictionary filled by all its writes in order. */
  lemma {:induction false} CodeFilesAreTheWrites(max: nat, cs: seq<Config>, ins: seq<Input>, k: nat)
    returns (ws: seq<Origin>)
    requires IsRun(max, cs, ins) && cs[0] == START && k <= |ins|
    ensures Listing(cs, ins, k, ws) && AreWrites(cs, ins, k, ws)
    ensures cs[k].state.codeFiles == Normal(Files(cs, ins, k, ws))
  {
    hide Step, Listing, AreWrites, RoundWrites, AllCodeFiles, Files;
    if k == 0 {
      ws := [];
      NothingListed(cs, ins);
    } else {
      ws := CodeFilesAreTheWrites(max, cs, ins, k - 1);
      CodeFilesStep(max, cs[k - 1], ins[k - 1]);
      if cs[k - 1].node.Work? {
        RoundJoins(cs, ins, k - 1, ws);
        NormalLeft(Files(cs, ins, k - 1, ws), AllCodeFiles(ins[k - 1].results));
        if ins[k - 1].results == [] {
          NoFilesWithoutResults(Files(cs, ins, k - 1, ws));
        }
        ws := ws + RoundWrites(k - 1, ins[k - 1].results);
      } else {
        NoRoundJoins(cs, ins, k - 1, ws);
      }
    }
  }

  lemma NothingListed(cs: seq<Config>, ins: seq<Input>)
    requires |ins| <= |cs|
    ensures Listing(cs, ins, 0, []) && AreWrites(cs, ins, 0, []) && Files(cs, ins, 0, []) == []
  {
  }

  lemma NoFilesWithoutResults(files: seq<CodeFile>)
    ensures files + AllCodeFiles([]) == files
  {
  }

  /**
   `first` and `last` are, for each entry, the first and the last write of its path: every path ever written has one
   entry, with the content last written, in the order in which the paths were first written.
   */
  ghost predicate LatestFiles(cs: seq<Config>, ins: seq<Input>, k: nat, files: seq<CodeFile>,
                              first: seq<Origin>, last: seq<Origin>)
    requires k <= |ins| <= |cs|
  {
    && |first| == |last| == |files|
    && (forall a :: 0 <= a < |files| ==>
                      FirstWrite(cs, ins, k, first[a]) && FileAt(ins, first[a]).key == files[a].key)
    && (forall a :: 0 <= a < |files| ==> LastWrite(cs, ins, k, last[a]) && FileAt(ins, last[a]) == files[a])
    && (forall a, b :: 0 <= a < b < |files| ==> Earlier(first[a], first[b]))
    && (forall o :: Wrote(cs, ins, k, o) ==> Has(files, FileAt(ins, o).key))
  }

  /** The code files that a run carries, told from the results of its executions. */
  lemma CodeFilesAreTheLatest(max: nat, cs: seq<Config>, ins: seq<Input>, k: nat)
    returns (first: seq<Origin>, last: seq<Origin>)
    requires IsRun(max, cs, ins) && cs[0] == START && k <= |ins|
    ensures LatestFiles(cs, ins, k, cs[k].state.codeFiles, first, last)
  {
    hide Step;
    var ws := CodeFilesAreTheWrites(max, cs, ins, k);
    var history := Files(cs, ins, k, ws);
    var f, l := NormalByPosition(history);
    first := seq(|f|, a requires 0 <= a < |f| => assert FirstAt(history, f[a]); ws[f[a]]);
    last := seq(|l|, a requires 0 <= a < |l| => assert LastAt(history, l[a]); ws[l[a]]);
    ByOrigins(cs, ins, k, ws, f, l, first, last);
  }

  lemma ByOrigins(cs: seq<Config>, ins: seq<Input>, k: nat, ws: seq<Origin>, f: seq<nat>, l: seq<nat>,
                  first: seq<Origin>, last: seq<Origin>)
    requires k <= |ins| <= |cs| && Listing(cs, ins, k, ws)
    requires var history := Files(cs, ins, k, ws);
             && Positions(history, Normal(history), f, l) && |first| == |f| && |last| == |l|
             && (forall a :: 0 <= a < |f| ==> FirstAt(history, f[a]) && first[a] == ws[f[a]])
             && (forall a :: 0 <= a < |l| ==> LastAt(history, l[a]) && last[a] == ws[l[a]])
             && (forall p :: 0 <= p < |history| ==> Has(Normal(history), history[p].key))
    ensures LatestFiles(cs, ins, k, Normal(Files(cs, ins, k, ws)), first, last)
  {
    hide Normal;
    var history := Files(cs, ins, k, ws);
    forall a | 0 <= a < |f| ensures FirstWrite(cs, ins, k, first[a]) {
      FirstInListing(cs, ins, k, ws, f[a]);
    }
    forall a | 0 <= a < |l| ensures LastWrite(cs, ins, k, last[a]) {
      LastInListing(cs, ins, k, ws, l[a]);
    }
    forall o | Wrote(cs, ins, k, o) ensures Has(Normal(history), FileAt(ins, o).key) {
      var p :| 0 <= p < |ws| && ws[p] == o;
      assert history[p] == FileAt(ins, o);
    }
  }

  lemma FirstInListing(cs: seq<Config>, ins: seq<Input>, k: nat, ws: seq<Origin>, p: nat)
    requires k <= |ins| <= |cs| && Listing(cs, ins, k, ws) && FirstAt(Files(cs, ins, k, ws), p)
    ensures FirstWrite(cs, ins, k, ws[p])
  {
    var history := Files(cs, ins, k, ws);
    assert Wrote(cs, ins, k, ws[p]);
    forall o | Wrote(cs, ins, k, o) && FileAt(ins, o).key == FileAt(ins, ws[p]).key ensures !Earlier(o, ws[p]) {
      var q :| 0 <= q < |ws| && ws[q] == o;
      assert history[q].key == history[p].key;
      assert p < q ==> Earlier(ws[p], ws[q]);
    }
  }

  lemma LastInListing(cs: seq<Config>, ins: seq<Input>, k: nat, ws: seq<Origin>, p: nat)
    requires k <= |ins| <= |cs| && Listing(cs, ins, k, ws) && LastAt(Files(cs, ins, k, ws), p)
    ensures LastWrite(cs, ins, k, ws[p])
  {
    var history := Files(cs, ins, k, ws);
    assert Wrote(cs, ins, k, ws[p]);
    forall o | Wrote(cs, ins, k, o) && FileAt(ins, o).key == FileAt(ins, ws[p]).key ensures !Earlier(ws[p], o) {
      var q :| 0 <= q < |ws| && ws[q] == o;
      assert history[q].key == history[p].key;
      assert q < p ==> Earlier(ws[q], ws[p]);
    }
  }

  // ---- the code files that agents are shown ----

  lemma ShownFile(files: seq<CodeFile>, a: nat)
    requires a < |files|
    ensures |ContextCodeFiles(files)| == if |files| <= 15 then |files| else 15
    ensures a < 15 ==>
              var shown := ContextCodeFiles(files);
              && shown[a].key == files[a].key && Has(shown, files[a].key)
              && shown[a].value.language == files[a].value.language
              && shown[a].value.content == Truncate(files[a].value.content, 8000)
  {
    if a < 15 {
      assert ContextCodeFiles(files)[a].key == files[a].key;
    }
  }

  lemma ShownAtMost(files: seq<CodeFile>)
    ensures |ContextCodeFiles(files)| <= 15 && |ContextCodeFiles(files)| <= |files|
  {
  }

  /** A path that is not shown was first written after all that are. */
  lemma HiddenIsLater(cs: seq<Config>, ins: seq<Input>, k: nat, files: seq<CodeFile>,
                      first: seq<Origin>, last: seq<Origin>, o: Origin)
    requires k <= |ins| <= |cs| && LatestFiles(cs, ins, k, files, first, last) && Wrote(cs, ins, k, o)
    requires !Has(ContextCodeFiles(files), FileAt(ins, o).key)
    ensures |ContextCodeFiles(files)| == 15 <= |first|
    ensures forall a :: 0 <= a < 15 ==> Earlier(first[a], o)
  {
    hide FirstWrite, LastWrite, ContextCodeFiles;
    var b :| 0 <= b < |files| && files[b].key == FileAt(ins, o).key;
    ShownFile(files, b);
    NotBeforeFirst(cs, ins, k, first[b], o);
  }

  /**
   An agent is shown, of the paths ever written, the first fifteen in the order in which they were first written,
   each with the content last written, cut after 8000 characters.
   */
  lemma ShownCodeIsTheLatest(max: nat, cs: seq<Config>, ins: seq<Input>, k: nat)
    returns (first: seq<Origin>, last: seq<Origin>)
    requires IsRun(max, cs, ins) && cs[0] == START && k <= |ins|
    ensures
      var shown := ContextCodeFiles(cs[k].state.codeFiles);
      && |first| == |last| == |shown| <= 15
      && (forall a :: 0 <= a < |shown| ==>
            && FirstWrite(cs, ins, k, first[a]) && LastWrite(cs, ins, k, last[a])
            && FileAt(ins, first[a]).key == FileAt(ins, last[a]).key == shown[a].key
            && shown[a].value.language == FileAt(ins, last[a]).value.language
            && shown[a].value.content == Truncate(FileAt(ins, last[a]).value.content, 8000))
      && (forall a, b :: 0 <= a < b < |shown| ==> Earlier(first[a], first[b]))
      && (forall o :: Wrote(cs, ins, k, o) && !Has(shown, FileAt(ins, o).key) ==>
            |shown| == 15 && forall a :: 0 <= a < |shown| ==> Earlier(first[a], o))
  {
    hide Step, FirstWrite, LastWrite, Truncate, ContextCodeFiles, Has;
    var files := cs[k].state.codeFiles;
    var firsts, lasts := CodeFilesAreTheLatest(max, cs, ins, k);
    var shown := ContextCodeFiles(files);
    ShownAtMost(files);
    first, last := firsts[..|shown|], lasts[..|shown|];
    forall a | 0 <= a < |shown|
      ensures shown[a].key == files[a].key && shown[a].value.language == files[a].value.language
      ensures shown[a].value.content == Truncate(files[a].value.content, 8000)
    {
      ShownFile(files, a);
    }
    forall o | Wrote(cs, ins, k, o) && !Has(shown, FileAt(ins, o).key)
      ensures |shown| == 15 && forall a :: 0 <= a < |shown| ==> Earlier(first[a], o)
    {
      HiddenIsLater(cs, ins, k, files, firsts, lasts, o);
    }
  }

  lemma NotBeforeFirst(cs: seq<Config>, ins: seq<Input>, k: nat, first: Origin, o: Origin)
    requires k <= |ins| <= |cs| && FirstWrite(cs, ins, k, first) && Wrote(cs, ins, k, o)
    requires FileAt(ins, o).key == FileAt(ins, first).key
    ensures o == first || Earlier(first, o)
  {
  }

  lemma {:induction false} KeysGrow(left: seq<CodeFile>, right: seq<CodeFile>)
    requires Distinct(left)
    ensures Distinct(Normal(left + right)) && |left| <= |Normal(left + right)|
    ensures forall a :: 0 <= a < |left| ==> Normal(left + right)[a].key == left[a].key
  {
    if right == [] {
      assert left + right == left;
      NormalFixed(left);
    } else {
      var init, e := right[..|right| - 1], right[|right| - 1];
      assert (left + right)[..|left + right| - 1] == left + init;
      KeysGrow(left, init);
      PutShape(Normal(left + init), e);
      if Has(Normal(left + init), e.key) {
        var a :| 0 <= a < |Normal(left + init)| && Normal(left + init)[a].key == e.key;
        assert Normal(left + right) == Normal(left + init)[a := e];
      }
    }
  }

  /** The paths of a run keep their places. */
  lemma {:induction false} PathsStay(max: nat, cs: seq<Config>, ins: seq<Input>, k: nat, l: nat)
    requires IsRun(max, cs, ins) && cs[0] == START && k <= l <= |ins|
    ensures Distinct(cs[l].state.codeFiles) && |cs[k].state.codeFiles| <= |cs[l].state.codeFiles|
    ensures forall a :: 0 <= a < |cs[k].state.codeFiles| ==>
                          cs[l].state.codeFiles[a].key == cs[k].state.codeFiles[a].key
    decreases l
  {
    hide Step;
    if l > 0 {
      var m: nat := if k < l then k else l - 1;
      PathsStay(max, cs, ins, m, l - 1);
      CodeFilesStep(max, cs[l - 1], ins[l - 1]);
      KeysGrow(cs[l - 1].state.codeFiles, AllCodeFiles(ins[l - 1].results));
    }
  }

  /** So once fifteen paths are shown, a path that is not among them is never shown again, however often rewritten. */
  lemma LaterPathsStayHidden(max: nat, cs: seq<Config>, ins: seq<Input>, k: nat, l: nat, path: string)
    requires IsRun(max, cs, ins) && cs[0] == START && k <= l <= |ins|
    requires |ContextCodeFiles(cs[k].state.codeFiles)| == 15 && !Has(ContextCodeFiles(cs[k].state.codeFiles), path)
    ensures |ContextCodeFiles(cs[l].state.codeFiles)| == 15 && !Has(ContextCodeFiles(cs[l].state.codeFiles), path)
  {
    hide Step;
    PathsStay(max, cs, ins, k, l);
    var before, after := ContextCodeFiles(cs[k].state.codeFiles), ContextCodeFiles(cs[l].state.codeFiles);
    forall a | 0 <= a < |after| ensures after[a].key != path {
      assert after[a].key == before[a].key;
    }
  }

  // ---- artifacts and findings ----

  /** The j-th result of the i-th execution, by an agent that a stage dispatched. */
  predicate Reported(cs: seq<Config>, ins: seq<Input>, k: nat, i: nat, j: nat)
    requires k <= |ins| <= |cs|
  {
    i < k && cs[i].node.Work? && j < |ins[i].results|
  }

  lemma {:induction false} ArtifactOfOne(results: seq<AgentResult>, a: string)
    ensures a in AllArtifacts(results) <==> exists j: nat :: j < |results| && a in results[j].artifacts
  {
    if results != [] {
      var rest := results[1..];
      ArtifactOfOne(rest, a);
      if j: nat :| j < |rest| && a in rest[j].artifacts {
        assert results[j + 1] == rest[j];
      }
      if j: nat :| j < |results| && a in results[j].artifacts {
        assert j > 0 ==> rest[j - 1] == results[j];
      }
    }
  }

  lemma ArtifactsExtend(max: nat, c: Config, inp: Input) returns (at: seq<nat>)
    requires c.node.Work?
    ensures var reported := AllArtifacts(inp.results);
            IsExtension(c.state.artifacts, reported, |reported|, Step(max, c, inp).state.artifacts, at)
  {
    hide IsExtension, Next, Extend, MergedCodeFiles, MergedFindings;
    ArtifactsUpdate(c, inp);
    var reported := AllArtifacts(inp.results);
    at := ExtendPicks(c.state.artifacts, reported, |reported|);
    assert reported[..|reported|] == reported;
  }

  lemma ArtifactsUpdate(c: Config, inp: Input)
    ensures Execute(c.node, c.state, inp).artifacts == if c.node.Work? then AllArtifacts(inp.results) else []
  {
  }

  lemma ArtifactsStep(max: nat, c: Config, inp: Input, a: string)
    ensures c.state.artifacts <= Step(max, c, inp).state.artifacts
    ensures a in Step(max, c, inp).state.artifacts <==>
            || a in c.state.artifacts
            || (c.node.Work? && exists j: nat :: j < |inp.results| && a in inp.results[j].artifacts)
  {
    hide Next, MergedCodeFiles, MergedFindings, AllArtifacts, Extend;
    ArtifactsUpdate(c, inp);
    ArtifactOfOne(inp.results, a);
    ExtendMultiplicity(c.state.artifacts, Execute(c.node, c.state, inp).artifacts, a);
  }

  /** The artifacts of a run are those its agents reported; they keep their places. */
  lemma {:induction false} ArtifactsAreTheReported(max: nat, cs: seq<Config>, ins: seq<Input>, k: nat, a: string)
    requires IsRun(max, cs, ins) && cs[0] == START && k <= |ins|
    ensures a in cs[k].state.artifacts <==>
            exists i: nat, j: nat :: Reported(cs, ins, k, i, j) && a in ins[i].results[j].artifacts
    ensures k > 0 ==> cs[k - 1].state.artifacts <= cs[k].state.artifacts
  {
    hide Step;
    if k > 0 {
      ArtifactsAreTheReported(max, cs, ins, k - 1, a);
      ArtifactsStep(max, cs[k - 1], ins[k - 1], a);
      if i: nat, j: nat :| Reported(cs, ins, k - 1, i, j) && a in ins[i].results[j].artifacts {
        assert Reported(cs, ins, k, i, j);
      }
      if cs[k - 1].node.Work? {
        var results := ins[k - 1].results;
        if j: nat :| j < |results| && a in results[j].artifacts {
          assert Reported(cs, ins, k, k - 1, j);
        }
      }
      if i: nat, j: nat :| Reported(cs, ins, k, i, j) && a in ins[i].results[j].artifacts {
        assert i < k - 1 ==> Reported(cs, ins, k - 1, i, j);
      }
    }
  }

  lemma {:induction false} ArtifactsGrow(max: nat, cs: seq<Config>, ins: seq<Input>, k: nat, l: nat)
    requires IsRun(max, cs, ins) && cs[0] == START && k <= l <= |ins|
    ensures cs[k].state.artifacts <= cs[l].state.artifacts
    decreases l
  {
    hide Step;
    if k < l {
      ArtifactsGrow(max, cs, ins, k, l - 1);
      ArtifactsStep(max, cs[l - 1], ins[l - 1], "");
    }
  }

  /** Agents are shown the first twenty artifacts reported; once there are twenty, the same for ever. */
  lemma ShownArtifactsStay(max: nat, cs: seq<Config>, ins: seq<Input>, k: nat, l: nat, a: string)
    requires IsRun(max, cs, ins) && cs[0] == START && k <= l <= |ins|
    ensures var shown := ContextArtifacts(cs[k].state.artifacts);
            && |shown| <= 20
            && (a in shown ==> exists i: nat, j: nat :: Reported(cs, ins, k, i, j) && a in ins[i].results[j].artifacts)
            && (|shown| < 20 ==>
                  (a in shown <==>
                     exists i: nat, j: nat :: Reported(cs, ins, k, i, j) && a in ins[i].results[j].artifacts))
            && (|shown| == 20 ==> ContextArtifacts(cs[l].state.artifacts) == shown)
  {
    hide Step, Reported;
    ArtifactsAreTheReported(max, cs, ins, k, a);
    ArtifactsGrow(max, cs, ins, k, l);
  }

  // ---- the order of the pending findings ----

  /** The i-th execution is a round that dispatched agents. */
  predicate Dispatches(cs: seq<Config>, ins: seq<Input>, i: nat) {
    i < |ins| && i < |cs| && cs[i].node.Work? && ins[i].results != []
  }

  predicate AreRounds(cs: seq<Config>, ins: seq<Input>, rounds: seq<nat>) {
    forall p :: 0 <= p < |rounds| ==> Dispatches(cs, ins, rounds[p])
  }

  /** The findings reported by these rounds, as assignments to their stages. */
  function Assigned(cs: seq<Config>, ins: seq<Input>, rounds: seq<nat>): (es: seq<Entry<Stage, seq<Finding>>>)
    requires AreRounds(cs, ins, rounds)
    ensures |es| == |rounds|
  {
    seq(|rounds|, p requires 0 <= p < |rounds| =>
      assert Dispatches(cs, ins, rounds[p]);
      Entry(cs[rounds[p]].node.stage, AllFindings(ins[rounds[p]].results)))
  }

  lemma FindingsStep(max: nat, c: Config, inp: Input)
    ensures Step(max, c, inp).state.findingsByStage ==
            if c.node.Work? && inp.results != []
            then Put(c.state.findingsByStage, Entry(c.node.stage, AllFindings(inp.results)))
            else c.state.findingsByStage
  {
    hide Next, MergedCodeFiles, Extend, StageStatus;
  }

  lemma {:induction false} FindingsAreAssigned(max: nat, cs: seq<Config>, ins: seq<Input>, k: nat)
    returns (rounds: seq<nat>)
    requires IsRun(max, cs, ins) && cs[0] == START && k <= |ins|
    ensures AreRounds(cs, ins, rounds) && Picks(rounds, k, (i: nat) => Dispatches(cs, ins, i))
    ensures cs[k].state.findingsByStage == Normal(Assigned(cs, ins, rounds))
  {
    hide Step, Picks, Put, AllFindings;
    if k == 0 {
      rounds := [];
      NothingPicked((i: nat) => Dispatches(cs, ins, i));
    } else {
      rounds := FindingsAreAssigned(max, cs, ins, k - 1);
      FindingsStep(max, cs[k - 1], ins[k - 1]);
      PicksNext(rounds, k - 1, (i: nat) => Dispatches(cs, ins, i));
      if Dispatches(cs, ins, k - 1) {
        RoundAssigned(cs, ins, rounds, k - 1);
        rounds := rounds + [k - 1];
      }
    }
  }

  lemma RoundAssigned(cs: seq<Config>, ins: seq<Input>, rounds: seq<nat>, i: nat)
    requires AreRounds(cs, ins, rounds) && Dispatches(cs, ins, i)
    ensures AreRounds(cs, ins, rounds + [i])
    ensures Normal(Assigned(cs, ins, rounds + [i])) ==
            Put(Normal(Assigned(cs, ins, rounds)), Entry(cs[i].node.stage, AllFindings(ins[i].results)))
  {
    hide Put, AllFindings;
    assert Assigned(cs, ins, rounds + [i])[..|rounds|] == Assigned(cs, ins, rounds);
  }

  lemma NothingPicked(chosen: nat -> bool)
    ensures Picks([], 0, chosen)
  {
  }

  /** The findings of these rounds, one round after the other. */
  function FindingsOf(ins: seq<Input>, rounds: seq<nat>): seq<Finding>
    requires forall p :: 0 <= p < |rounds| ==> rounds[p] < |ins|
  {
    if rounds == [] then [] else AllFindings(ins[rounds[0]].results) + FindingsOf(ins, rounds[1..])
  }

  lemma {:induction false} PendingIsFlat(ins: seq<Input>, d: seq<Entry<Stage, seq<Finding>>>, last: seq<nat>)
    requires |d| == |last| && forall a :: 0 <= a < |last| ==> last[a] < |ins|
    requires forall a :: 0 <= a < |last| ==> d[a].value == AllFindings(ins[last[a]].results)
    ensures PendingFindings(d) == FindingsOf(ins, last)
  {
    if d != [] {
      PendingIsFlat(ins, d[1..], last[1..]);
    }
  }

  /**
   The a-th stage to dispatch agents did so first in `first[a]` and last in `last[a]`, among the first k executions.
   */
  ghost predicate StagesInOrder(cs: seq<Config>, ins: seq<Input>, k: nat, first: seq<nat>, last: seq<nat>) {
    && |first| == |last|
    && (forall a, b :: 0 <= a < b < |first| ==> first[a] < first[b])
    && (forall a :: 0 <= a < |first| ==>
          && first[a] <= last[a] < k && Dispatches(cs, ins, first[a]) && Dispatches(cs, ins, last[a])
          && cs[first[a]].node == cs[last[a]].node
          && (forall i: nat :: i < first[a] && Dispatches(cs, ins, i) ==> cs[i].node != cs[first[a]].node)
          && (forall i: nat :: last[a] < i < k && Dispatches(cs, ins, i) ==> cs[i].node != cs[last[a]].node))
    && (forall i: nat :: i < k && Dispatches(cs, ins, i) ==>
          exists a :: 0 <= a < |first| && cs[first[a]].node == cs[i].node)
  }

  /**
   The pending findings are those of each stage's last round, the stages in the order in which they first dispatched.
   */
  lemma PendingInOrder(max: nat, cs: seq<Config>, ins: seq<Input>, k: nat) returns (first: seq<nat>, last: seq<nat>)
    requires IsRun(max, cs, ins) && cs[0] == START && k <= |ins|
    ensures StagesInOrder(cs, ins, k, first, last) && forall a :: 0 <= a < |last| ==> last[a] < |ins|
    ensures PendingFindings(cs[k].state.findingsByStage) == FindingsOf(ins, last)
  {
    hide Step, StagesInOrder, PendingFindings, FindingsOf, Normal, Put;
    var rounds := FindingsAreAssigned(max, cs, ins, k);
    var history := Assigned(cs, ins, rounds);
    var f, l := NormalByPosition(history);
    first := seq(|f|, a requires 0 <= a < |f| => assert FirstAt(history, f[a]); rounds[f[a]]);
    last := seq(|l|, a requires 0 <= a < |l| => assert LastAt(history, l[a]); rounds[l[a]]);
    forall a | 0 <= a < |l| ensures last[a] < |ins| && Normal(history)[a].value == AllFindings(ins[last[a]].results) {
      assert LastAt(history, l[a]) && history[l[a]] == Normal(history)[a] && Dispatches(cs, ins, rounds[l[a]]);
    }
    PendingIsFlat(ins, Normal(history), last);
    RoundsInOrder(cs, ins, k, rounds, f, l, first, last);
  }

  /** The positions in the history of assignments that the rounds stand for. */
  ghost predicate Placed(cs: seq<Config>, ins: seq<Input>, k: nat, rounds: seq<nat>, f: seq<nat>, l: seq<nat>,
                         first: seq<nat>, last: seq<nat>)
  {
    && AreRounds(cs, ins, rounds) && Picks(rounds, k, (i: nat) => Dispatches(cs, ins, i))
    && var history := Assigned(cs, ins, rounds);
       && Positions(history, Normal(history), f, l) && |first| == |f| && |last| == |l|
       && (forall a :: 0 <= a < |f| ==> FirstAt(history, f[a]) && first[a] == rounds[f[a]])
       && (forall a :: 0 <= a < |l| ==> LastAt(history, l[a]) && last[a] == rounds[l[a]])
       && (forall p :: 0 <= p < |history| ==> Has(Normal(history), history[p].key))
  }

  lemma RoundsInOrder(cs: seq<Config>, ins: seq<Input>, k: nat, rounds: seq<nat>, f: seq<nat>, l: seq<nat>,
                      first: seq<nat>, last: seq<nat>)
    requires Placed(cs, ins, k, rounds, f, l, first, last)
    ensures StagesInOrder(cs, ins, k, first, last)
  {
    assert |first| == |last|;
    forall a, b | 0 <= a < b < |first| ensures first[a] < first[b] {
      assert f[a] < f[b] < |rounds|;
    }
    hide Placed, Dispatches;
    forall a | 0 <= a < |first|
      ensures first[a] <= last[a] < k && Dispatches(cs, ins, first[a]) && Dispatches(cs, ins, last[a])
      ensures cs[first[a]].node == cs[last[a]].node
      ensures forall i: nat :: i < first[a] && Dispatches(cs, ins, i) ==> cs[i].node != cs[first[a]].node
      ensures forall i: nat :: last[a] < i < k && Dispatches(cs, ins, i) ==> cs[i].node != cs[last[a]].node
    {
      FirstAndLastRound(cs, ins, k, rounds, f, l, first, last, a);
      NoRoundBeside(cs, ins, k, rounds, f, l, first, last, a);
    }
    forall i: nat | i < k && Dispatches(cs, ins, i)
      ensures exists a :: 0 <= a < |first| && cs[first[a]].node == cs[i].node
    {
      var a := StageOfRound(cs, ins, k, rounds, f, l, first, last, i);
    }
  }

  lemma FirstAndLastRound(cs: seq<Config>, ins: seq<Input>, k: nat, rounds: seq<nat>, f: seq<nat>, l: seq<nat>,
                          first: seq<nat>, last: seq<nat>, a: nat)
    requires Placed(cs, ins, k, rounds, f, l, first, last) && a < |first|
    ensures |last| == |first| && first[a] <= last[a] < k
    ensures Dispatches(cs, ins, first[a]) && Dispatches(cs, ins, last[a]) && cs[first[a]].node == cs[last[a]].node
  {
    hide Normal;
    var history := Assigned(cs, ins, rounds);
    assert history[f[a]].key == history[l[a]].key;
    assert Dispatches(cs, ins, rounds[f[a]]) && Dispatches(cs, ins, rounds[l[a]]);
    assert FirstAt(history, f[a]) && LastAt(history, l[a]);
    assert f[a] <= l[a] && rounds[l[a]] in rounds;
  }

  lemma NoRoundBeside(cs: seq<Config>, ins: seq<Input>, k: nat, rounds: seq<nat>, f: seq<nat>, l: seq<nat>,
                      first: seq<nat>, last: seq<nat>, a: nat)
    requires Placed(cs, ins, k, rounds, f, l, first, last) && a < |first| && |last| == |first| && last[a] < k
    requires Dispatches(cs, ins, first[a]) && Dispatches(cs, ins, last[a]) && first[a] <= last[a]
    ensures forall i: nat :: i < first[a] && Dispatches(cs, ins, i) ==> cs[i].node != cs[first[a]].node
    ensures forall i: nat :: last[a] < i < k && Dispatches(cs, ins, i) ==> cs[i].node != cs[last[a]].node
  {
    hide Normal;
    var history := Assigned(cs, ins, rounds);
    forall i: nat | i < k && Dispatches(cs, ins, i)
      ensures i < first[a] ==> cs[i].node != cs[first[a]].node
      ensures last[a] < i ==> cs[i].node != cs[last[a]].node
    {
      assert i in rounds;
      var p :| 0 <= p < |rounds| && rounds[p] == i;
      assert FirstAt(history, f[a]) && LastAt(history, l[a]);
      assert history[p].key == cs[i].node.stage;
      assert history[f[a]].key == cs[first[a]].node.stage && history[l[a]].key == cs[last[a]].node.stage;
    }
  }

  lemma StageOfRound(cs: seq<Config>, ins: seq<Input>, k: nat, rounds: seq<nat>, f: seq<nat>, l: seq<nat>,
                     first: seq<nat>, last: seq<nat>, i: nat) returns (a: nat)
    requires Placed(cs, ins, k, rounds, f, l, first, last) && i < k && Dispatches(cs, ins, i)
    ensures a < |first| && first[a] < |cs| && cs[first[a]].node == cs[i].node
  {
    hide Normal;
    var history := Assigned(cs, ins, rounds);
    assert i in rounds;
    var p :| 0 <= p < |rounds| && rounds[p] == i;
    a :| a < |Normal(history)| && Normal(history)[a].key == history[p].key;
    assert history[f[a]].key == history[p].key && Dispatches(cs, ins, rounds[f[a]]);
  }

  // ---- what the last node of a kind left ----

  /** Nodes that record where the run is. */
  predicate Places(n: Node) {
    n.Work? || n == Delivered || n == Cancelled
  }

  /** The place of a run is that of its last stage or end. */
  lemma {:induction false} PlaceIsTheLast(max: nat, cs: seq<Config>, ins: seq<Input>, k: nat, i: nat)
    requires IsRun(max, cs, ins) && k <= |ins| && i < k && Places(cs[i].node)
    requires forall l :: i < l < k ==> !Places(cs[l].node)
    ensures cs[k].state.currentStage ==
            Some(if cs[i].node.Work? then AtStage(cs[i].node.stage)
                 else if cs[i].node == Delivered then AtDelivered else AtCancelled)
  {
    if i < k - 1 {
      PlaceIsTheLast(max, cs, ins, k - 1, i);
      PlaceStep(max, cs[k - 1], ins[k - 1]);
    }
  }

  lemma PlaceStep(max: nat, c: Config, inp: Input)
    requires !Places(c.node)
    ensures Step(max, c, inp).state.currentStage == c.state.currentStage
  {
  }

  /** The result of a stage is the status of its last round. */
  lemma {:induction false} StatusIsOfTheLastRound(
    max: nat, cs: seq<Config>, ins: seq<Input>, k: nat, stage: Stage, i: nat)
    requires IsRun(max, cs, ins) && k <= |ins| && i < k && cs[i].node == Work(stage)
    requires forall l :: i < l < k ==> cs[l].node != Work(stage)
    ensures stage in cs[k].state.stageResults && cs[k].state.stageResults[stage] == StageStatus(ins[i].results)
  {
    hide StageStatus, Step;
    StatusStep(max, cs[k - 1], ins[k - 1], stage);
    if i < k - 1 {
      StatusIsOfTheLastRound(max, cs, ins, k - 1, stage, i);
    }
  }

  lemma StatusStep(max: nat, c: Config, inp: Input, stage: Stage)
    ensures c.node == Work(stage) ==>
              && stage in Step(max, c, inp).state.stageResults
              && Step(max, c, inp).state.stageResults[stage] == StageStatus(inp.results)
    ensures c.node != Work(stage) && stage in c.state.stageResults ==>
              && stage in Step(max, c, inp).state.stageResults
              && Step(max, c, inp).state.stageResults[stage] == c.state.stageResults[stage]
  {
    NoAgentsApprove();
  }

  /** The i-th execution is the last of this node among the first k, and the human approved there. */
  ghost predicate LastApproved(cs: seq<Config>, ins: seq<Input>, k: nat, n: Node, i: nat)
    requires k <= |ins| <= |cs|
  {
    i < k && cs[i].node == n && ins[i].decision == APPROVED && forall l :: i < l < k ==> cs[l].node != n
  }

  /** The i-th execution asked for a human review, and no later review among the first k was approved. */
  ghost predicate StillAsked(cs: seq<Config>, ins: seq<Input>, k: nat, i: nat)
    requires k <= |ins| <= |cs|
  {
    && i < k
    && ((cs[i].node == IntakeClarification && ins[i].decision == REJECTED)
        || (cs[i].node == HumanReview && ins[i].decision != APPROVED))
    && forall l :: i < l < k ==> cs[l].node != HumanReview || ins[l].decision != APPROVED
  }

  lemma FlagsStep(max: nat, c: Config, inp: Input)
    ensures var s, t := c.state, Step(max, c, inp).state;
            && t.scopeApproved == (if c.node == ScopeApproval then inp.decision == APPROVED else s.scopeApproved)
            && t.releaseApproved == (if c.node == ReleaseApproval then inp.decision == APPROVED else s.releaseApproved)
            && t.humanReviewRequired ==
               if c.node == HumanReview then inp.decision != APPROVED
               else s.humanReviewRequired || (c.node == IntakeClarification && inp.decision == REJECTED)
  {
  }

  /** An approval stands if its last decision was to approve; a review is required if asked for since the last one. */
  lemma {:induction false} FlagsAreTheLastDecisions(max: nat, cs: seq<Config>, ins: seq<Input>, k: nat)
    requires IsRun(max, cs, ins) && cs[0] == START && k <= |ins|
    ensures cs[k].state.scopeApproved <==> exists i: nat :: LastApproved(cs, ins, k, ScopeApproval, i)
    ensures cs[k].state.releaseApproved <==> exists i: nat :: LastApproved(cs, ins, k, ReleaseApproval, i)
    ensures cs[k].state.humanReviewRequired <==> exists i: nat :: StillAsked(cs, ins, k, i)
  {
    hide Step;
    if k > 0 {
      var m: nat := k - 1;
      FlagsAreTheLastDecisions(max, cs, ins, m);
      FlagsStep(max, cs[m], ins[m]);
      ApprovalGrows(cs, ins, m, k, ScopeApproval);
      ApprovalGrows(cs, ins, m, k, ReleaseApproval);
      AskedGrows(cs, ins, m, k);
    }
  }

  lemma ApprovalGrows(cs: seq<Config>, ins: seq<Input>, k: nat, next: nat, n: Node)
    requires k < next == k + 1 <= |ins| <= |cs|
    ensures (exists i: nat :: LastApproved(cs, ins, next, n, i)) <==>
            if cs[k].node == n then ins[k].decision == APPROVED else exists i: nat :: LastApproved(cs, ins, k, n, i)
  {
    if i: nat :| LastApproved(cs, ins, k, n, i) {
      assert cs[k].node != n ==> LastApproved(cs, ins, next, n, i);
    }
    if i: nat :| LastApproved(cs, ins, next, n, i) {
      assert cs[k].node != n ==> LastApproved(cs, ins, k, n, i);
    }
    assert cs[k].node == n && ins[k].decision == APPROVED ==> LastApproved(cs, ins, next, n, k);
  }

  lemma AskedGrows(cs: seq<Config>, ins: seq<Input>, k: nat, next: nat)
    requires k < next == k + 1 <= |ins| <= |cs|
    ensures (exists i: nat :: StillAsked(cs, ins, next, i)) <==>
            if cs[k].node == HumanReview then ins[k].decision != APPROVED
            else || (cs[k].node == IntakeClarification && ins[k].decision == REJECTED)
                 || exists i: nat :: StillAsked(cs, ins, k, i)
  {
    if i: nat :| StillAsked(cs, ins, k, i) {
      assert (cs[k].node != HumanReview || ins[k].decision != APPROVED) ==> StillAsked(cs, ins, next, i);
    }
    if i: nat :| StillAsked(cs, ins, next, i) {
      assert i < k ==> StillAsked(cs, ins, k, i);
    }
    if cs[k].node == HumanReview || cs[k].node == IntakeClarification {
      assert ins[k].decision != APPROVED && (cs[k].node == HumanReview || ins[k].decision == REJECTED) ==>
        StillAsked(cs, ins, next, k);
    }
  }
}
