/** The status of a run as the orchestrator writes it, against the declared transition table. */
module RunStatus {

  datatype Status =
    | CREATED | QUEUED | RUNNING | WAITING_TOOL | WAITING_AGENT | WAITING_HUMAN | RETRYING
    | PARTIALLY_COMPLETED | COMPLETED | FAILED_RETRYABLE | FAILED_FINAL | CANCELLED

  /** RUN_TRANSITIONS. */
  function Transitions(s: Status): set<Status> {
    match s
    case CREATED => {QUEUED, CANCELLED}
    case QUEUED => {RUNNING, CANCELLED}
    case RUNNING => {
      WAITING_TOOL, WAITING_AGENT, WAITING_HUMAN, RETRYING, PARTIALLY_COMPLETED, COMPLETED,
      FAILED_RETRYABLE, FAILED_FINAL, CANCELLED
    }
    case WAITING_TOOL => {RUNNING, FAILED_RETRYABLE, CANCELLED}
    case WAITING_AGENT => {RUNNING, FAILED_RETRYABLE, CANCELLED}
    case WAITING_HUMAN => {RUNNING, CANCELLED}
    case RETRYING => {RUNNING, FAILED_FINAL, CANCELLED}
    case PARTIALLY_COMPLETED => {RUNNING, COMPLETED, CANCELLED}
    case FAILED_RETRYABLE => {RETRYING, FAILED_FINAL, CANCELLED}
    case COMPLETED => {}
    case FAILED_FINAL => {}
    case CANCELLED => {}
  }

  predicate Legal(current: Status, target: Status) {
    target == current || target in Transitions(current)
  }

  /**
   Where the body of `run_workflow` stands: not running; entered, RUNNING not yet written; between nodes;
   polling for a human decision; COMPLETED written, its audit event not yet.
   */
  datatype Body = Away | Entered | InGraph | AtHuman | Closing

  datatype Life = Life(status: Status, body: Body)

  /**
   A body is launched for a row fetched earlier, so the status may have changed since. `Raise` is an exception
   whose status could be written, `RaiseUnrecorded` one whose status could not.
   */
  datatype Event =
    | Launch
    | MarkRunning
    | TriageDone
    | AskHuman
    | HumanAnswered
    | Finish(delivered: bool)
    | Close
    | Raise
    | RaiseUnrecorded
    | Crash
    | ApiRetry
    | ApiCancel

  predicate Enabled(l: Life, e: Event) {
    match e
    case Launch => l.body.Away?
    case MarkRunning => l.body.Entered?
    case TriageDone => l.body.InGraph?
    case AskHuman => l.body.InGraph?
    case HumanAnswered => l.body.AtHuman?
    case Finish(_) => l.body.InGraph?
    case Close => l.body.Closing?
    case Raise => !l.body.Away?
    case RaiseUnrecorded => !l.body.Away?
    case Crash => !l.body.Away?
    case ApiRetry => l.status == FAILED_RETRYABLE
    case ApiCancel => CANCELLED in Transitions(l.status)
  }

  /** Events that make the orchestrator write a status. */
  predicate IsWrite(e: Event) {
    e.MarkRunning? || e.TriageDone? || e.AskHuman? || e.HumanAnswered? || e.Finish? || e.Raise?
  }

  function Written(e: Event): Status
    requires IsWrite(e)
  {
    match e
    case MarkRunning => RUNNING
    case TriageDone => RUNNING
    case AskHuman => WAITING_HUMAN
    case HumanAnswered => RUNNING
    case Finish(delivered) => if delivered then COMPLETED else CANCELLED
    case Raise => FAILED_RETRYABLE
  }

  function Perform(l: Life, e: Event): Life {
    match e
    case Launch => l.(body := Entered)
    case MarkRunning => Life(RUNNING, InGraph)
    case TriageDone => Life(RUNNING, InGraph)
    case AskHuman => Life(WAITING_HUMAN, AtHuman)
    case HumanAnswered => Life(RUNNING, InGraph)
    case Finish(delivered) => Life(Written(e), if delivered then Closing else Away)
    case Close => l.(body := Away)
    case Raise => Life(FAILED_RETRYABLE, Away)
    case RaiseUnrecorded => l.(body := Away)
    case Crash => l.(body := Away)
    case ApiRetry => l.(status := RETRYING)
    case ApiCancel => l.(status := CANCELLED)
  }

  ghost predicate IsRun(ls: seq<Life>, es: seq<Event>) {
    && |ls| == |es| + 1 && ls[0] == Life(QUEUED, Away)
    && forall i :: 0 <= i < |es| ==> Enabled(ls[i], es[i]) && ls[i + 1] == Perform(ls[i], es[i])
  }

  predicate Consistent(l: Life) {
    match l.body
    case InGraph => l.status == RUNNING || l.status == CANCELLED
    case AtHuman => l.status == WAITING_HUMAN || l.status == CANCELLED
    case Closing => l.status == COMPLETED
    case _ => l.status in {QUEUED, RUNNING, WAITING_HUMAN, RETRYING, COMPLETED, FAILED_RETRYABLE, CANCELLED}
  }

  lemma {:induction false} RunIsConsistent(ls: seq<Life>, es: seq<Event>, k: nat)
    requires IsRun(ls, es) && k <= |es|
    ensures Consistent(ls[k])
  {
    if k > 0 {
      RunIsConsistent(ls, es, k - 1);
    }
  }

  /**
   The writes that break the table: over a cancellation; the start of a body on a row that has ended since it
   was fetched; an exception anywhere but between nodes, that is before RUNNING is written, while a human is
   asked, or after COMPLETED is written.
   */
  predicate Breaks(l: Life, e: Event)
    requires IsWrite(e)
  {
    || (l.status == CANCELLED && Written(e) != CANCELLED)
    || (e.MarkRunning? && (l.status == COMPLETED || l.status == FAILED_RETRYABLE))
    || (e.Raise? && l.status != RUNNING && l.status != FAILED_RETRYABLE)
  }

  /** At every point of every run, exactly these writes are illegal. */
  lemma WriteIsLegalIff(ls: seq<Life>, es: seq<Event>, k: nat)
    requires IsRun(ls, es) && k < |es| && IsWrite(es[k])
    ensures Legal(ls[k].status, Written(es[k])) <==> !Breaks(ls[k], es[k])
  {
    RunIsConsistent(ls, es, k);
  }

  /** The API cancels a run unless it has ended, and retries it exactly after a failure that allows it. */
  lemma ApiAcceptsExactlyWhen(l: Life)
    ensures Enabled(l, ApiCancel) <==> l.status != COMPLETED && l.status != FAILED_FINAL && l.status != CANCELLED
    ensures Enabled(l, ApiRetry) <==> l.status == FAILED_RETRYABLE
    ensures Perform(l, ApiCancel) == Life(CANCELLED, l.body) && Perform(l, ApiRetry) == Life(RETRYING, l.body)
  {
  }

  /**
   Without API cancellation, with exceptions between nodes only, and with bodies started on rows as they were
   fetched (`fetch_queued_runs` and `fetch_stale_running_runs` select these four statuses, the age of the row
   aside), every write of the orchestrator repeats the status or follows the table.
   */
  lemma QuietRunsFollowTheTable(ls: seq<Life>, es: seq<Event>, k: nat)
    requires IsRun(ls, es) && k < |es| && IsWrite(es[k])
    requires forall i :: 0 <= i < |es| ==> !es[i].ApiCancel?
    requires forall i :: 0 <= i < |es| && es[i].Raise? ==> ls[i].body.InGraph?
    requires forall i :: 0 <= i < |es| && es[i].MarkRunning? ==>
                           ls[i].status in {QUEUED, RETRYING, RUNNING, WAITING_HUMAN}
    ensures Legal(ls[k].status, Written(es[k]))
  {
    WriteIsLegalIff(ls, es, k);
    RunIsConsistent(ls, es, k);
    CancelledHow(ls, es, k);
  }

  lemma {:induction false} CancelledHow(ls: seq<Life>, es: seq<Event>, k: nat)
    requires IsRun(ls, es) && k <= |es| && forall i :: 0 <= i < |es| ==> !es[i].ApiCancel?
    requires forall i :: 0 <= i < |es| && es[i].MarkRunning? ==>
                           ls[i].status in {QUEUED, RETRYING, RUNNING, WAITING_HUMAN}
    ensures ls[k].status == CANCELLED ==> ls[k].body.Away? || ls[k].body.Entered?
  {
    if k > 0 {
      CancelledHow(ls, es, k - 1);
    }
  }

  // ---- each exclusion is needed ----

  /** An exception before RUNNING is written, ... */
  lemma ExceptionAtStartBreaks() returns (ls: seq<Life>, es: seq<Event>)
    ensures IsRun(ls, es) && |es| == 2 && es[1].Raise? && ls[1].body.Entered? && !Legal(ls[1].status, Written(es[1]))
  {
    es := [Launch, Raise];
    ls := [Life(QUEUED, Away), Life(QUEUED, Entered), Life(FAILED_RETRYABLE, Away)];
  }

  /** ... while a human is asked, ... */
  lemma ExceptionWhileWaitingBreaks() returns (ls: seq<Life>, es: seq<Event>)
    ensures IsRun(ls, es) && |es| == 4 && es[3].Raise? && ls[3].body.AtHuman? && !Legal(ls[3].status, Written(es[3]))
  {
    es := [Launch, MarkRunning, AskHuman, Raise];
    ls := [Life(QUEUED, Away), Life(QUEUED, Entered), Life(RUNNING, InGraph), Life(WAITING_HUMAN, AtHuman),
           Life(FAILED_RETRYABLE, Away)];
  }

  /** ... or of the audit event, which turns a delivered run into a failed one; ... */
  lemma CompletionIsOverwritten() returns (ls: seq<Life>, es: seq<Event>)
    ensures IsRun(ls, es) && |es| == 4 && es[2] == Finish(true) && es[3].Raise?
    ensures !Legal(ls[3].status, Written(es[3])) && ls[4].status == FAILED_RETRYABLE
  {
    es := [Launch, MarkRunning, Finish(true), Raise];
    ls := [Life(QUEUED, Away), Life(QUEUED, Entered), Life(RUNNING, InGraph), Life(COMPLETED, Closing),
           Life(FAILED_RETRYABLE, Away)];
  }

  /** ... a body started for a row that was fetched before its run ended, ... */
  lemma OutdatedRowBreaks(delivered: bool) returns (ls: seq<Life>, es: seq<Event>)
    ensures IsRun(ls, es) && |ls| > 0 && |es| > 0 && es[|es| - 1].MarkRunning?
    ensures ls[|es| - 1].status == if delivered then COMPLETED else FAILED_RETRYABLE
    ensures !Legal(ls[|es| - 1].status, Written(es[|es| - 1]))
  {
    if delivered {
      es := [Launch, MarkRunning, Finish(true), Close, Launch, MarkRunning];
      ls := [Life(QUEUED, Away), Life(QUEUED, Entered), Life(RUNNING, InGraph), Life(COMPLETED, Closing),
             Life(COMPLETED, Away), Life(COMPLETED, Entered), Life(RUNNING, InGraph)];
    } else {
      es := [Launch, MarkRunning, Raise, Launch, MarkRunning];
      ls := [Life(QUEUED, Away), Life(QUEUED, Entered), Life(RUNNING, InGraph), Life(FAILED_RETRYABLE, Away),
             Life(FAILED_RETRYABLE, Entered), Life(RUNNING, InGraph)];
    }
  }

  /** ... and the end of a body whose run was cancelled meanwhile. */
  lemma CancellationIsOverwritten() returns (ls: seq<Life>, es: seq<Event>)
    ensures IsRun(ls, es) && |es| == 4 && es[2].ApiCancel? && es[3] == Finish(true)
    ensures !Legal(ls[3].status, Written(es[3])) && ls[4].status == COMPLETED
  {
    es := [Launch, MarkRunning, ApiCancel, Finish(true)];
    ls := [Life(QUEUED, Away), Life(QUEUED, Entered), Life(RUNNING, InGraph), Life(CANCELLED, InGraph),
           Life(COMPLETED, Closing)];
  }

  // ---- the log of a row ----

  /** The life after these events, and whether each was possible in its turn. */
  function After(l: Life, es: seq<Event>): (bool, Life) {
    if es == [] then (true, l)
    else
      var (possible, before) := After(l, es[..|es| - 1]);
      (possible && Enabled(before, es[|es| - 1]), Perform(before, es[|es| - 1]))
  }

  /** What an event writes to the row, by the orchestrator or through the API. */
  function Change(e: Event): seq<Status> {
    if IsWrite(e) then [Written(e)] else if e.ApiRetry? then [RETRYING] else if e.ApiCancel? then [CANCELLED] else []
  }

  /** The statuses written to the row, in order. */
  function Log(es: seq<Event>): seq<Status> {
    if es == [] then [] else Log(es[..|es| - 1]) + Change(es[|es| - 1])
  }

  /** The status of a row after its log. */
  function Latest(status: Status, log: seq<Status>): Status {
    if log == [] then status else log[|log| - 1]
  }

  lemma {:induction false} AfterAppend(l: Life, a: seq<Event>, b: seq<Event>)
    ensures After(l, a + b) == (After(l, a).0 && After(After(l, a).1, b).0, After(After(l, a).1, b).1)
    ensures Log(a + b) == Log(a) + Log(b)
  {
    hide Enabled, Perform, Change;
    if b == [] {
      assert a + b == a;
    } else {
      assert (a + b)[..|a + b| - 1] == a + b[..|b| - 1];
      AfterAppend(l, a, b[..|b| - 1]);
    }
  }

  /** These events are possible, lead to this life, and write this. */
  predicate Leads(l: Life, es: seq<Event>, after: Life, log: seq<Status>) {
    After(l, es) == (true, after) && Log(es) == log
  }

  lemma LeadsOn(l: Life, a: seq<Event>, middle: Life, first: seq<Status>, b: seq<Event>, after: Life,
                second: seq<Status>)
    requires Leads(l, a, middle, first) && Leads(middle, b, after, second)
    ensures Leads(l, a + b, after, first + second)
  {
    hide After, Log;
    AfterAppend(l, a, b);
  }

  lemma LeadsNowhere(l: Life)
    ensures Leads(l, [], l, [])
  {
  }

  lemma LeadsByOne(l: Life, e: Event)
    requires Enabled(l, e)
    ensures Leads(l, [e], Perform(l, e), Change(e))
  {
    hide Enabled, Perform, Change;
    AfterOne(l, e);
  }

  lemma AfterOne(l: Life, e: Event)
    ensures After(l, [e]) == (Enabled(l, e), Perform(l, e))
    ensures Log([e]) == Change(e)
  {
    assert [e][..0] == [];
  }

  /** Possible events from the beginning are a run. */
  lemma {:induction false} AfterIsARun(es: seq<Event>) returns (ls: seq<Life>)
    requires After(Life(QUEUED, Away), es).0
    ensures IsRun(ls, es) && ls[|es|] == After(Life(QUEUED, Away), es).1
  {
    hide Perform, Enabled;
    if es == [] {
      ls := [Life(QUEUED, Away)];
    } else {
      var init := AfterIsARun(es[..|es| - 1]);
      ls := init + [After(Life(QUEUED, Away), es).1];
    }
  }

  lemma ChangeIsTheStatus(l: Life, e: Event)
    ensures Perform(l, e).status == Latest(l.status, Change(e))
  {
  }

  /** The row's status is always the last one logged. */
  lemma {:induction false} StatusIsLatest(ls: seq<Life>, es: seq<Event>, k: nat)
    requires IsRun(ls, es) && k <= |es|
    ensures ls[k].status == Latest(QUEUED, Log(es[..k]))
  {
    hide Perform, Enabled, Change;
    if k > 0 {
      StatusIsLatest(ls, es, k - 1);
      ChangeIsTheStatus(ls[k - 1], es[k - 1]);
      assert es[..k][..k - 1] == es[..k - 1];
    }
  }

  /** The event that wrote the m-th status of the log. */
  lemma {:induction false} WriterOf(es: seq<Event>, m: nat) returns (k: nat)
    requires m < |Log(es)|
    ensures k < |es| && Change(es[k]) == [Log(es)[m]] && Log(es[..k]) == Log(es)[..m]
  {
    var init := es[..|es| - 1];
    if m < |Log(init)| {
      k := WriterOf(init, m);
      assert init[..k] == es[..k];
    } else {
      k := |es| - 1;
    }
  }

  /** The m-th entry of the log against the one before it. */
  predicate Follows(log: seq<Status>, m: nat)
    requires m < |log|
  {
    Legal(Latest(QUEUED, log[..m]), log[m])
  }

  /** An entry of the log follows the table unless the write that made it is one of the exceptions. */
  lemma LogFollowsIff(ls: seq<Life>, es: seq<Event>, m: nat) returns (k: nat)
    requires m < |Log(es)| && IsRun(ls, es)
    ensures k < |es| && Change(es[k]) == [Log(es)[m]] && ls[k].status == Latest(QUEUED, Log(es)[..m])
    ensures Follows(Log(es), m) <==> !(IsWrite(es[k]) && Breaks(ls[k], es[k]))
  {
    hide Breaks, Perform;
    k := WriterOf(es, m);
    StatusIsLatest(ls, es, k);
    if IsWrite(es[k]) {
      WriteIsLegalIff(ls, es, k);
    }
  }

  /** No exception but between nodes, no cancellation, and no body started on an outdated row. */
  ghost predicate Quiet(ls: seq<Life>, es: seq<Event>)
    requires |ls| == |es| + 1
  {
    forall i :: 0 <= i < |es| ==>
                  && !es[i].ApiCancel?
                  && (es[i].Raise? ==> ls[i].body.InGraph?)
                  && (es[i].MarkRunning? ==> ls[i].status in {QUEUED, RETRYING, RUNNING, WAITING_HUMAN})
  }

  /** The whole log of a quiet life follows the table, entry by entry. */
  lemma QuietLogFollowsTheTable(ls: seq<Life>, es: seq<Event>, m: nat)
    requires m < |Log(es)| && IsRun(ls, es) && Quiet(ls, es)
    ensures Follows(Log(es), m)
  {
    hide Breaks, Perform, Follows;
    var k := LogFollowsIff(ls, es, m);
    if IsWrite(es[k]) {
      QuietRunsFollowTheTable(ls, es, k);
      WriteIsLegalIff(ls, es, k);
    }
  }
}
