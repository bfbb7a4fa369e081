/** Agent results and how a stage turns the results of its agents into one status. */
module Agents {
  import opened OrderedDict

  datatype Severity = Info | Low | Medium | High | Critical

  datatype Finding = Finding(id: string, severity: Severity, category: string, description: string)

  datatype Status = Approved | ChangesRequested | Blocked | Failed

  datatype Source = Source(content: string, language: string)

  /** A code file is one assignment of a source text to a path. */
  type CodeFile = Entry<string, Source>

  datatype AgentResult = AgentResult(
    agentId: string,
    status: Status,
    summary: string,
    findings: seq<Finding>,
    artifacts: seq<string>,
    codeFiles: seq<CodeFile>)

  function AllFindings(results: seq<AgentResult>): seq<Finding> {
    if results == [] then [] else results[0].findings + AllFindings(results[1..])
  }

  function AllArtifacts(results: seq<AgentResult>): seq<string> {
    if results == [] then [] else results[0].artifacts + AllArtifacts(results[1..])
  }

  function AllCodeFiles(results: seq<AgentResult>): seq<CodeFile> {
    if results == [] then [] else results[0].codeFiles + AllCodeFiles(results[1..])
  }

  /** Some agent reported the finding. */
  predicate ReportedBy(results: seq<AgentResult>, f: Finding) {
    exists j :: 0 <= j < |results| && f in results[j].findings
  }

  lemma {:induction false} FindingOfOne(results: seq<AgentResult>, f: Finding)
    ensures f in AllFindings(results) <==> ReportedBy(results, f)
  {
    if results != [] {
      var rest := results[1..];
      FindingOfOne(rest, f);
      if j :| 0 <= j < |rest| && f in rest[j].findings {
        assert results[j + 1] == rest[j];
      }
      if j :| 0 <= j < |results| && f in results[j].findings {
        assert j > 0 ==> rest[j - 1] == results[j];
      }
    }
  }

  // Findings, artifacts and code files are listed result by result, in the order of the results.

  lemma {:induction false} FindingsInOrder(results: seq<AgentResult>, j: nat)
    requires j < |results|
    ensures AllFindings(results) == AllFindings(results[..j]) + results[j].findings + AllFindings(results[j + 1..])
  {
    var rest := results[1..];
    if j == 0 {
      assert results[..0] == [];
    } else {
      FindingsInOrder(rest, j - 1);
      var before := results[..j];
      assert before[0] == results[0] && before[1..] == rest[..j - 1];
      assert rest[j - 1] == results[j] && rest[j..] == results[j + 1..];
      assert AllFindings(before) == results[0].findings + AllFindings(rest[..j - 1]);
      hide AllFindings;
    }
  }

  lemma {:induction false} ArtifactsInOrder(results: seq<AgentResult>, j: nat)
    requires j < |results|
    ensures AllArtifacts(results) == AllArtifacts(results[..j]) + results[j].artifacts + AllArtifacts(results[j + 1..])
  {
    var rest := results[1..];
    if j == 0 {
      assert results[..0] == [];
    } else {
      ArtifactsInOrder(rest, j - 1);
      var before := results[..j];
      assert before[0] == results[0] && before[1..] == rest[..j - 1];
      assert rest[j - 1] == results[j] && rest[j..] == results[j + 1..];
      assert AllArtifacts(before) == results[0].artifacts + AllArtifacts(rest[..j - 1]);
      hide AllArtifacts;
    }
  }

  lemma {:induction false} CodeFilesInOrder(results: seq<AgentResult>, j: nat)
    requires j < |results|
    ensures AllCodeFiles(results) == AllCodeFiles(results[..j]) + results[j].codeFiles + AllCodeFiles(results[j + 1..])
  {
    var rest := results[1..];
    if j == 0 {
      assert results[..0] == [];
    } else {
      CodeFilesInOrder(rest, j - 1);
      var before := results[..j];
      assert before[0] == results[0] && before[1..] == rest[..j - 1];
      assert rest[j - 1] == results[j] && rest[j..] == results[j + 1..];
      assert AllCodeFiles(before) == results[0].codeFiles + AllCodeFiles(rest[..j - 1]);
      hide AllCodeFiles;
    }
  }

  predicate AnyWith(results: seq<AgentResult>, status: Status) {
    exists i :: 0 <= i < |results| && results[i].status == status
  }

  predicate AnyCritical(findings: seq<Finding>) {
    exists i :: 0 <= i < |findings| && findings[i].severity == Critical
  }

  /** The aggregation at the end of a stage. */
  function StageStatus(results: seq<AgentResult>): Status {
    if AnyWith(results, Blocked) || AnyWith(results, Failed) then Failed
    else if AnyWith(results, ChangesRequested) || AnyCritical(AllFindings(results)) then ChangesRequested
    else Approved
  }

  /** The worse of two stage statuses. */
  function Worse(a: Status, b: Status): Status {
    if a == Failed || b == Failed then Failed
    else if a == ChangesRequested || b == ChangesRequested then ChangesRequested
    else Approved
  }

  /** What one agent alone contributes: blocked counts as failed, a critical finding as a requested change. */
  function Contribution(r: AgentResult): Status {
    if r.status == Blocked || r.status == Failed then Failed
    else if r.status == ChangesRequested || AnyCritical(r.findings) then ChangesRequested
    else Approved
  }

  lemma {:induction false} CriticalAppend(a: seq<Finding>, b: seq<Finding>)
    ensures AnyCritical(a + b) <==> AnyCritical(a) || AnyCritical(b)
  {
    if AnyCritical(a) {
      var i :| 0 <= i < |a| && a[i].severity == Critical;
      assert (a + b)[i].severity == Critical;
    }
    if AnyCritical(b) {
      var i :| 0 <= i < |b| && b[i].severity == Critical;
      assert (a + b)[|a| + i].severity == Critical;
    }
  }

  lemma {:induction false} AnyWithCons(r: AgentResult, rest: seq<AgentResult>, status: Status)
    ensures AnyWith([r] + rest, status) <==> r.status == status || AnyWith(rest, status)
  {
    if AnyWith(rest, status) {
      var i :| 0 <= i < |rest| && rest[i].status == status;
      assert ([r] + rest)[i + 1].status == status;
    }
    if r.status == status {
      assert ([r] + rest)[0].status == status;
    }
  }

  lemma {:induction false} StatusCons(r: AgentResult, rest: seq<AgentResult>)
    ensures StageStatus([r] + rest) == Worse(Contribution(r), StageStatus(rest))
  {
    var all := [r] + rest;
    assert all[1..] == rest;
    AnyWithCons(r, rest, Blocked);
    AnyWithCons(r, rest, Failed);
    AnyWithCons(r, rest, ChangesRequested);
    CriticalAppend(r.findings, AllFindings(rest));
  }

  /** The status of two groups of agents together is the worse of their statuses; no agents is `Approved`. */
  lemma {:induction false} StatusIsWorstOf(a: seq<AgentResult>, b: seq<AgentResult>)
    ensures StageStatus(a + b) == Worse(StageStatus(a), StageStatus(b))
    ensures StageStatus([]) == Approved
  {
    if a == [] {
      assert a + b == b;
    } else {
      StatusIsWorstOf(a[1..], b);
      StatusCons(a[0], a[1..] + b);
      StatusCons(a[0], a[1..]);
      assert [a[0]] + (a[1..] + b) == a + b && [a[0]] + a[1..] == a;
    }
  }

  /** The status read off the set of answers: somebody failed, somebody objected. */
  lemma {:induction false} StatusByMembers(results: seq<AgentResult>)
    ensures StageStatus(results) == Failed <==>
            exists r :: r in results && (r.status == Failed || r.status == Blocked)
    ensures StageStatus(results) == Approved <==>
            forall r :: r in results ==> r.status == Approved && !AnyCritical(r.findings)
    ensures StageStatus(results) != Blocked
  {
    if results != [] {
      var rest := results[1..];
      assert [results[0]] + rest == results;
      StatusCons(results[0], rest);
      StatusByMembers(rest);
    }
  }

  /** The order in which agents answered (parallel or sequential dispatch) does not matter. */
  lemma {:induction false} StatusIgnoresOrder(a: seq<AgentResult>, b: seq<AgentResult>)
    requires multiset(a) == multiset(b)
    ensures StageStatus(a) == StageStatus(b)
  {
    StatusByMembers(a);
    StatusByMembers(b);
    assert forall r :: r in a <==> r in multiset(a);
    assert forall r :: r in b <==> r in multiset(b);
  }

  /** A stage is approved exactly when every agent approved and nobody reported a critical finding. */
  lemma ApprovedMeansEveryone(results: seq<AgentResult>)
    ensures StageStatus(results) == Approved <==>
            forall r :: r in results ==> r.status == Approved && forall f :: f in r.findings ==> f.severity != Critical
  {
    StatusByMembers(results);
    assert forall r: AgentResult ::
      AnyCritical(r.findings) <==> exists f :: f in r.findings && f.severity == Critical;
  }
}
