# Delivery workflow: a verified model

A software factory takes a demand through sixteen stages and approvals, with nine gates that can send it back, a
counter per gate, and a human review when a counter is used up. An orchestrator process runs the graph, dispatches
agent tasks to workers over a queue, and resumes runs from checkpoints. This project models that machinery in Dafny
and proves what it keeps over all runs, all interleavings and all inputs.

| layer | modules | subject |
|---|---|---|
| delivery graph | `DeliveryState`, `OrderedDict`, `Agents`, `DeliveryGraph`, `MainLine` | state, reducers, nodes, routers, edges; a run is any sequence of node executions, with the agents' and humans' answers as input |
| what runs keep | `Budget`, `ReviewBudget`, `RecursionLimit`, `GateSafety`, `Escalation`, `RunState` | exact step bounds by potentials, gates never bypassed, escalation, what routers read, what a run carries and shows its agents |
| process | `Checkpoint`, `Orchestrator`, `RunStatus`, `RunRows`, `Approvals` | crash, resume and loss of checkpoints, the `_running` set, statuses written to the row, polling for decisions |
| workers | `WorkerProtocol`, `Consumer`, `Dispatch`, `TaskProtocol`, `World`, `Delivery` | idempotency key, retries, dead letters; the result's way back to the stage; both in one interleaving, for one task and for all of them; what a delivery rests on |
| agents' configuration | `ConfigMerge`, `AgentTable`, `StageAgents`, `Prompt` | deep merge, validation and fallback, publication, edits and resets, selection for a stage, prompt templates |
| MCP servers | `OAuth` | start, callback, refresh and reset of an authorization |

Agent verdicts, human decisions, network answers, crashes and the order of concurrent steps are inputs or events
chosen by the environment; every theorem holds for all of them. `max` stands for `MAX_GATE_CYCLES`, `max` in the
worker modules for `MESSAGE_MAX_ATTEMPTS`; no theorem fixes either. Code that assigns fields or loops is a method or
a class proved against a function or a transition relation, and the theorems are about those: `Consumer.DomainWorker`
against `WorkerProtocol`, `Orchestrator.Process` against `Orchestrator.Loop`, the `Approvals` methods against
`DeliveryGraph.Execute`, `OAuth.McpServer` against the server values of `OAuth.Life`.

## Where the code and its documentation differ

The model follows the code.

- README.md:85 says that a gate goes to human review after the third failed attempt. The code escalates on rejection
  number `max + 1`, the fourth by default (`Escalation.EscalatesOnTheNextRejection`).
- `recursion_limit` is 100 (orchestrator/main.py:57), but a run without any human review can execute 148 nodes by
  default; every run fits a limit only if no gate may cycle at all and the limit is at least 34
  (`Budget.HumanFreeRunsFit`, `RecursionLimit.EveryRunFits`).
- agents/config_store.py:111-112 promises that a bad configuration falls back to the YAML. If `inputs`, `tools` or
  `outputs` is a null, a boolean or a number, the validation raises an exception that the fallback does not catch
  (`ConfigMerge.RaisesExactlyWhen`). The promise fails only for a column written past the API: what publication, edits
  and resets store is always applied, without exception and without fallback (`AgentTable.StoredConfigurationsApply`).
- orchestrator/db.py:276-282 keeps a row's configuration to save the user's edits. As the row starts with the whole YAML,
  it also keeps the first YAML of an agent nobody edited, which then wins over every later one until a reset
  (`AgentTable.FirstYamlWins`).
- agents/config_store.py:109-110 says that the switch always comes from the database column. For the selection of a
  stage's agents the registry's own switch is asked first, so the column can only switch off
  (`StageAgents.ToggleDecidesIff`).
- agents/runtime/executor.py:23-27 presents the placeholders as replaced literally. A value that mentions a placeholder
  replaced later is itself rewritten (`Prompt.ValuesAreRescanned`); `Prompt.CleanMeansNothingIsRescanned` says when not.
- orchestrator/state/state.py:61-64 says that the code produced is the context of the following agents. Only the first
  fifteen paths of a run ever are: later ones, however often rewritten, are never shown (`RunState.LaterPathsStayHidden`).
- Two callbacks of one authorization that overlap while they await the token endpoint exchange its verifier twice
  (`OAuth.OverlapExchangesTwice`); otherwise each verifier is exchanged at most once (`OAuth.ExchangedAtMostOnce`).
- backend/app/services/mcp_oauth.py:140-141 clears the authorization after a refused refresh so that an invalid token is
  not used again. Of two overlapping uses the late refusal also clears the valid token that the other has just stored
  (`OAuth.LateRefusalWipes`).
- backend/app/api/v1/mcp.py:335 says that a reset deletes the tokens. One that loaded the row before an overlapping callback
  committed leaves that callback's tokens in force (`OAuth.LateResetKeeps`).
- shared/contracts/states.py:84-107 is not what the orchestrator follows: the end of a body overwrites a cancellation
  through the API, and an exception before RUNNING is written, while a human is asked, or after COMPLETED is written (the
  audit event is in the same `try`) writes a transition that the table forbids (`RunStatus.WriteIsLegalIff`,
  `Orchestrator.RowFollowsTheTableIff`, `RunStatus.CompletionIsOverwritten`).

## Model

The first 43 rows are the main results: length of runs, gates, what a run carries and shows its agents, crashes and
retries, workers, statuses, configuration and prompts, OAuth. The other rows are the operations they are about, and what
else holds, module by module.

| member | source | states |
|---|---|---|
| `Budget.HumanFreeRunsFit` | orchestrator/main.py:57 | A limit accommodates all fresh runs without review if and only if it is at least 16 + 44 max |
| `ReviewBudget.ReviewedRunsFit` | orchestrator/main.py:57 | A limit accommodates all fresh runs with k approved reviews if and only if it is at least 18 + 44 max + k (2 + 36 max), for every maximum of at least one |
| `RecursionLimit.EveryRunFits` | orchestrator/main.py:57 | All runs, reviews included, fit a limit if and only if the maximum is zero and the limit at least 34 |
| `GateSafety.GatesBelowArePassed` | orchestrator/graphs/software_delivery.py:43-148 | At rank r every gate of lower rank is passed: its last execution was approved, or a human approved after it a review that this very gate raised |
| `GateSafety.NoStageSkipped` | orchestrator/graphs/software_delivery.py:126-148 | Whoever stands at a rank of the main line has been at every main-line node up to it, through escalations and human resumes too |
| `GateSafety.FloorsAreExact` | orchestrator/graphs/software_delivery.py:222-345 | Intake, discovery, architecture and planning are the only points of no return: a rank is one if and only if no fresh run that is not cancelled ever falls below it again |
| `Escalation.EscalatesOnTheNextRejection` | orchestrator/graphs/software_delivery.py:28-30 | At a gate the run escalates exactly on rejection number max + 1, cycles on an earlier one and goes on if the gate passes |
| `Escalation.RoutesDependOnCountersOnly` | orchestrator/nodes/approvals.py:126-131 | Noninterference: runs with the same answers and counters visit the same nodes for ever, whatever else their states hold, in particular the `human_review_required` flag of a rejected clarification |
| `RunState.CodeFilesAreTheLatest` | orchestrator/nodes/stages.py:88-118 | At every position of every run: a path is among the code files if and only if some agent of some stage has written it; its content is that of the last write, and the paths stand in the order of their first writes |
| `RunState.ShownCodeIsTheLatest` | orchestrator/context_builder.py:58-61 | So an agent is shown, of all paths written in the run, the fifteen first written, each as last written, cut after 8000 characters; a path is missing only if it was first written after fifteen others |
| `Escalation.PendingAreOfTheLastRounds` | orchestrator/state/state.py:89-95 | A finding is pending if and only if the last round of some stage that dispatched agents reported it: no corrected finding lingers |
| `Escalation.ShownFindingsAreCurrent` | orchestrator/context_builder.py:49 | An agent is shown the last twenty pending findings; each is of the last dispatching round of its stage, and while there are at most twenty every such finding is shown |
| `RunState.PendingInOrder` | orchestrator/state/state.py:89-95 | The pending findings are those of each stage's last dispatching round, the stages in the order in which they first dispatched |
| `Escalation.NotesAreTheAnswers` | orchestrator/nodes/approvals.py:126-131 | The clarification notes of a run are exactly the non-empty answers that the requester gave and did not mark rejected |
| `Escalation.ShownNotesAreTheAnswers` | orchestrator/context_builder.py:44-46 | Every clarification answer not marked rejected stands in the text shown to the agents if its place lies within the first 4000 characters; of a longer text exactly these are shown, with the mark |
| `RunState.FlagsAreTheLastDecisions` | orchestrator/nodes/approvals.py:126-170 | Scope and release count as approved if and only if their last decision was an approval; a human review counts as required if and only if a rejected clarification or a review not approved asked for it after the last approved review |
| `Checkpoint.CrashesAreInvisible` | orchestrator/main.py:58-78 | Whatever the crashes and resumes, the checkpoints written since the last loss of checkpoints are positions of one crash-free run over the answers of the nodes completed since, and the node in execution is that run's next |
| `Checkpoint.LossesCostOneRunEach` | orchestrator/checkpoints/saver.py:39-43 | Between retries crashes cost nothing and each loss at most one longest run: with f losses and k approved reviews at most (f + 1) (18 + 44 max) + k (2 + 36 max) nodes complete |
| `Checkpoint.LineagesAreRuns` | orchestrator/main.py:58-78 | Across crashes, resumes, retries and losses, in any order: the completed nodes that led to what is saved, and to what is in execution, form one crash-free run from a triage, over exactly the answers given to those nodes |
| `Checkpoint.RetriedDeliveryPassedEveryGate` | orchestrator/main.py:78-79 | A run that was retried, resumed and forgotten at will and is delivered passed all nine gates: for each, the last completed node of its lineage that decided it passed it, or a later node of the lineage is a review in which a human approved what this gate had raised |
| `WorkerProtocol.MutualExclusion` | workers/base/consumer.py:88-109 | For any number of workers, duplicates and crashes: at most one worker executes a message id at a time, it holds the key, and at most one execution of the id ever completes |
| `WorkerProtocol.NothingIsLost` | workers/base/consumer.py:98-126 | While no holder of its key died, a published id is completed, dead-lettered, queued or in flight; once one died, it is never completed |
| `WorkerProtocol.UndisturbedOutcome` | workers/base/consumer.py:104-109 | In runs without duplicates and crashes an id is executed at most `MAX_ATTEMPTS` times, and is dead-lettered exactly when that many executions failed and the last has let go |
| `TaskProtocol.OneResult` | workers/base/consumer.py:259-263 | However often the message is delivered and retried: at most one result is ever stored for a task, a completed execution has stored it, and a dispatcher that does not fail returns that very result |
| `World.StoredByHolder` | workers/base/consumer.py:239-263 | Whatever is stored for a task was marked and then stored by one worker, which was executing the message and held its key at both writes |
| `Delivery.DeliveredOnEvidence` | orchestrator/nodes/stages.py:83-101 | In a delivered run every agent gate that no human overrode was passed, in its last round, on approvals that rest in the history of the factory: each is the only result ever stored for the task dispatched for it, by one execution that held the key of its message |
| `Dispatch.StatusIsTheLastWrite` | workers/base/consumer.py:239-245 | Under every interleaving the row says what was last written: in progress while an attempt runs, done for an approval or requested changes, blocked for a blocked result, failed for a failed one, cancelled after a cancellation |
| `Orchestrator.MutualExclusion` | orchestrator/main.py:51-58 | For every interleaving of polls, reconciliations, starts and ends: an id is in `_running` exactly while a body for it is active, and at most one is |
| `Orchestrator.FetchedRunsCanBegin` | orchestrator/main.py:119-137 | In every interleaving: a poll or reconciliation that fetched the row of a run nobody executes leaves a task for it, resuming exactly if it is the reconciliation's, which can begin and then executes the run |
| `RunStatus.WriteIsLegalIff` | shared/contracts/states.py:84-107 | At every point of every run a written status repeats or follows the table, except exactly over a cancellation, for an exception anywhere but between nodes, and for an outdated row |
| `Orchestrator.EpisodesAreALife` | orchestrator/main.py:58-137 | Bodies one after the other, each ending or dying with its process at any point, with cancellations and retries through the API within and between them, are one life of the run; the row's log is what those bodies and requests write |
| `Orchestrator.RowFollowsTheTableIff` | shared/contracts/states.py:84-107 | For every entry of such a log: it repeats the status before it or follows the table, unless and only unless its write is over a cancellation, for an exception anywhere but between nodes, or for an outdated row |
| `ConfigMerge.MergeByPath` | agents/config_store.py:94-101 | The merge read path by path: what the override holds wins, two objects merge, the rest of the base survives unless the override replaced an object above it |
| `ConfigMerge.RaisesExactlyWhen` | agents/config_store.py:111-112 | For a column written past the guard the merge raises if and only if the first spoiled of the three fields is a null, a boolean or a number |
| `AgentTable.ColumnsAreTheLastSet` | backend/app/api/v1/agents.py:131-211 | After any history each field of an agent's configuration, its switch, its default and its stages are what was last set: by its first publication, a later one (default and stages only), an accepted edit of that very thing, or a reset |
| `AgentTable.StoredConfigurationsApply` | agents/config_store.py:104-141 | After any publications of validated definitions, edits and resets every effective definition is the stored configuration merged over the YAML |
| `AgentTable.RestartByPath` | orchestrator/db.py:286-314 | A restart with new YAML files, path by path: what the stored configuration settles stays, elsewhere the new YAML holds |
| `StageAgents.StoredReachesTheStage` | orchestrator/nodes/stages.py:27-40 | From the table to the stage: after any publications, edits and resets each agent that a stage runs, if it has a row, is switched on there and follows the stored configuration path by path: what it holds is there, what it neither holds nor cuts off is the YAML's |
| `StageAgents.ResolveStageAgents` | orchestrator/nodes/stages.py:27-40 | Exactly the listed agents that registry and column have switched on, in order; one without a row is its YAML, one with an accepted configuration follows it path by path, any other follows it or is the YAML; fails if and only if the merge of a selected agent raises |
| `Prompt.BracelessRendersIff` | agents/runtime/executor.py:40-45 | For values without opening braces the eight replacements equal one simultaneous substitution if and only if no value spells a placeholder with its neighbours |
| `OAuth.LifeIsSound` | backend/app/services/mcp_oauth.py:52-167 | Over every interleaving of starts, callbacks, uses and resets, each awaiting the network between reading and committing the row, and of edits: a state is pending if and only if a verifier is, a pending verifier is unspent, and an access token comes with token endpoint and client |
| `OAuth.ExchangedAtMostOnce` | backend/app/services/mcp_oauth.py:120-134 | Each verifier is exchanged at most once if no callback is sent while another with the same verifier awaits its answer (section 4 of RFC 7636) |
| `OAuth.AsksExactlyWhenNeeded` | backend/app/services/mcp_oauth.py:27-32 | A use asks for a refresh exactly when `needs_refresh` says so: the stale return for want of an endpoint is unreachable |
| `DeliveryGraph.GateStep` | orchestrator/graphs/software_delivery.py:43-123 | Every gate, in one line: if the answer passes it the run goes to the node that `RESUME_AFTER_GATE` names, else to its escalation if its counter has reached the maximum, else to its counter node |
| `DeliveryGraph.PlainStep` | orchestrator/graphs/software_delivery.py:222-345 | The unconditional edges of the main line; counters and escalated gate are untouched |
| `DeliveryGraph.CycleStep` | orchestrator/graphs/software_delivery.py:151-156 | A counter node adds one to its own gate and to no other, and leads back to the stage the edge table names; so does `intake_clarification` |
| `DeliveryGraph.EscalateStep` | orchestrator/graphs/software_delivery.py:160-164 | An escalation records its gate and leads to the human review |
| `DeliveryGraph.HumanStep` | orchestrator/nodes/approvals.py:156-170 | An approved review resumes right after the gate that escalated and sets every counter to zero; any other decision cancels and keeps the counters |
| `DeliveryGraph.RunIsWellFormed` | orchestrator/graphs/software_delivery.py:222-345 | At every position of every run: counters at most `max`, a counter node entered only below it, an escalation only at it, a human review only with a recorded gate at it |
| `MainLine.GateRanks` | orchestrator/graphs/software_delivery.py:131-141 | On the sixteen-node main line each gate resumes at exactly the next node, cycles back to no later one, and no two gates share a place |
| `Budget.HumanFreeBound` | orchestrator/graphs/software_delivery.py:28-30 | A potential that every node outside a review lowers: from any well-formed configuration at most that many nodes execute without a human review, never more than 16 + 44 max, and at most one more up to and including the next review |
| `Budget.ReviewBoundIsAttained` | orchestrator/graphs/software_delivery.py:222-345 | There is a fresh run of exactly 17 + 44 max nodes whose last is the first human review |
| `Budget.ReviewedBound` | orchestrator/nodes/approvals.py:164-170 | From any well-formed configuration, also of a retried run, at most 18 + 44 max + k (15 + 44 max) nodes execute with k approved reviews: no unbounded loop without a human |
| `ReviewBudget.ReviewedRunBound` | orchestrator/nodes/approvals.py:164-170 | For any maximum, zero included, a fresh run with k approved reviews executes at most 18 + 44 max + k (2 + 36 max) nodes |
| `RecursionLimit.LongRun` | orchestrator/nodes/approvals.py:164-170 | With a maximum of at least one, approved reviews renew the counters for ever: there are runs longer than any number |
| `GateSafety.NeverReturns` | orchestrator/graphs/software_delivery.py:222-345 | Once intake, discovery, architecture or planning is entered, no node before it runs again unless the run is cancelled |
| `GateSafety.DeliveredPassedEveryGate` | orchestrator/graphs/software_delivery.py:167-168 | A run that ends delivered has passed all nine gates in the sense of `GatesBelowArePassed` |
| `GateSafety.PassingAnAgentGate` | orchestrator/nodes/stages.py:91-101 | An agent gate is passed if and only if every dispatched agent approved and none reported a critical finding |
| `Escalation.CounterCountsRejections` | orchestrator/graphs/software_delivery.py:20-30 | From empty counters, the counter is the number of rejections of the gate since the start or the last approved review, less one that is not yet recorded; there are never more than max + 1 |
| `Escalation.CountersOnlyReset` | orchestrator/nodes/approvals.py:164-169 | Counters stay within `max`; an approved review sets them to zero, their own counter node adds one, and nothing else changes them |
| `Escalation.EscalatedIsTheOneThatRaised` | orchestrator/graphs/software_delivery.py:144-164 | At every human review of every run the recorded gate is the one that escalated just before, after its own rejection, and an approval resumes after that gate: the default `technical_planning` is never taken |
| `Escalation.RouterReadsFreshStatus` | orchestrator/graphs/software_delivery.py:24-25 | The status a router looks up exists and is that of this round: the default `approved` is never taken |
| `RunState.LaterPathsStayHidden` | orchestrator/context_builder.py:58-61 | Once fifteen paths are shown, a path not among them is never shown for the rest of the run, however often it is rewritten |
| `RunState.ArtifactsAreTheReported` | orchestrator/nodes/stages.py:89 | The artifacts of a run are exactly those its agents reported, and keep their places |
| `RunState.ArtifactsExtend` | orchestrator/state/state.py:13-14 | A round appends, in their order, those of its artifacts that are new |
| `RunState.ShownArtifactsStay` | orchestrator/context_builder.py:47 | Agents are shown the first twenty artifacts reported, and once there are twenty, the same for ever |
| `RunState.PlaceIsTheLast` | orchestrator/nodes/stages.py:112-113 | The current stage of a run is that of the last stage it executed, or how it ended |
| `RunState.StatusIsOfTheLastRound` | orchestrator/nodes/stages.py:88-115 | The result of a stage is the status of its last round |
| `Agents.StatusIsWorstOf` | orchestrator/nodes/stages.py:88-101 | The status of two groups of results together is the worse of their statuses; no results are approved |
| `Agents.StatusByMembers` | orchestrator/nodes/stages.py:91-101 | Failed if and only if some agent failed or was blocked; approved if and only if no agent objects |
| `Agents.StatusIgnoresOrder` | orchestrator/nodes/stages.py:83-86 | The order of the results, hence parallel or sequential dispatch, does not matter |
| `Agents.ApprovedMeansEveryone` | orchestrator/nodes/stages.py:96-101 | Approved if and only if every agent approved and no finding is critical |
| `Agents.FindingOfOne` | orchestrator/nodes/stages.py:88 | A finding is carried if and only if some agent of the round reported it |
| `Agents.CodeFilesInOrder` | orchestrator/nodes/stages.py:88-90 | Code files, like findings and artifacts, are listed agent by agent, in the order of the results |
| `OrderedDict.NormalIsReference` | orchestrator/state/state.py:20-23 | A dictionary filled by assignments holds the distinct keys in order of first appearance, each with its latest value |
| `DeliveryState.ContextShowsLatestVersions` | orchestrator/context_builder.py:58-61 | For any list of rounds merged one by one: the first fifteen distinct paths, without repetition, each in its latest version, truncated |
| `DeliveryState.ExtendReading` | orchestrator/state/state.py:13-14 | `_extend` keeps the old list as a prefix, takes over the multiplicity of new items and none of old ones, and absorbs a repeated round |
| `DeliveryState.MergeCodeFiles` | orchestrator/state/state.py:17-23 | The loop yields one entry per path, in order of first appearance, each with the newest content |
| `DeliveryState.RoundsAreOneNormalForm` | orchestrator/state/state.py:17-23 | Merging any history of rounds one by one gives the normal form of the whole history |
| `DeliveryState.MergeIsAssociative` | orchestrator/state/state.py:17-23 | The reducer of code files is associative |
| `DeliveryState.MergeAbsorbsRepeat` | orchestrator/state/state.py:17-23 | A repeated round changes nothing |
| `DeliveryState.Truncate` | orchestrator/context_builder.py:12-15 | A short text is shown as it is; of a long one the beginning and the mark |
| `DeliveryState.JoinedByLines` | orchestrator/nodes/stages.py:56 | The notes stand in their order, with a line break between any two |
| `Checkpoint.CrashesBypassNoGate` | orchestrator/main.py:111-128 | A resumed run has passed every gate below the node it executes, by nodes completed since the last loss |
| `Checkpoint.LineagePassesGates` | orchestrator/main.py:111-128 | Every gate below the node in execution was passed by the nodes of its lineage |
| `Checkpoint.DisturbancesHappen` | orchestrator/main.py:58-78 | There are histories with every kind of disturbance |
| `Orchestrator.Process.CreateTasks` | orchestrator/main.py:119-137 | The new tasks are exactly one for each fetched row whose run is not running, in the order of the rows, resuming or not as asked; nothing else changes |
| `Orchestrator.Process.BeginTask` | orchestrator/main.py:52-55 | The start enters the body if and only if no body of that run is active |
| `Orchestrator.Process.LeaveTask` | orchestrator/main.py:107-108 | The end frees the id again and keeps the exclusion |
| `Orchestrator.RunBody` | orchestrator/main.py:58-106 | Continues at the checkpoint if it resumes and there is one, else invokes the graph with a new input; the statuses written, with each of the writes able to fail |
| `Orchestrator.InvocationsAreStarts` | orchestrator/main.py:65-78 | Where the graph then starts is exactly where the simulation of crashes, resumes and retries lets it start |
| `Orchestrator.CompletedMeansDelivered` | orchestrator/main.py:79-92 | COMPLETED is written if and only if the graph returned delivered and the write succeeded, and is the last unless the audit event failed and that could be recorded |
| `Orchestrator.QuietRowFollowsTheTable` | shared/contracts/states.py:154-159 | A row whose run was not cancelled through the API, saw exceptions between nodes only, and had no body started on an outdated fetch: its whole log follows the table |
| `Orchestrator.TasksAdvance` | orchestrator/main.py:51-108 | Tasks are never lost or exchanged: each begins at most once, executes exactly if no other task of its run does, and ends once |
| `RunStatus.RunIsConsistent` | orchestrator/main.py:59-92 | While a body is between nodes its row is RUNNING, while it asks a human WAITING_HUMAN, unless cancelled through the API; COMPLETED while it closes |
| `RunStatus.ExceptionAtStartBreaks` | orchestrator/main.py:58-59 | Each of the three exclusions is needed: an exception before RUNNING is written |
| `RunStatus.ExceptionWhileWaitingBreaks` | orchestrator/main.py:92 | An exception while a human is asked writes a status that the table forbids |
| `RunStatus.CompletionIsOverwritten` | orchestrator/main.py:79-92 | An audit event that fails after COMPLETED turns a delivered run into a failed one |
| `RunStatus.OutdatedRowBreaks` | orchestrator/main.py:134-136 | So does a body started for a row that was fetched before its run completed or failed |
| `RunStatus.CancellationIsOverwritten` | backend/app/api/v1/runs.py:97-120 | A cancelled run is marked COMPLETED by the end of its body |
| `RunStatus.ApiAcceptsExactlyWhen` | backend/app/api/v1/runs.py:97-141 | The API cancels exactly a run that has not ended, and retries exactly one that failed retryably |
| `Approvals.DecisionIsUnique` | orchestrator/nodes/approvals.py:31-37 | At most one decision fits a series of readings |
| `Approvals.WaitForApproval` | orchestrator/nodes/approvals.py:31-37 | The decision is the first reading that exists and is not REQUESTED; without one it still waits |
| `Approvals.RequestAndWait` | orchestrator/nodes/approvals.py:40-68 | The row waits for the human, and is running again exactly if there is a decision |
| `Approvals.IntakeClarificationNode` | orchestrator/nodes/approvals.py:71-131 | The ordered writes and the assembled update are those of the graph's node |
| `Approvals.ScopeApprovalNode` | orchestrator/nodes/approvals.py:134-142 | Likewise for the scope |
| `Approvals.ReleaseApprovalNode` | orchestrator/nodes/approvals.py:145-153 | Likewise for the release |
| `Approvals.HumanReviewNode` | orchestrator/nodes/approvals.py:156-170 | Likewise for the human review |
| `WorkerProtocol.OnlyTheHolderReleases` | workers/base/consumer.py:103 | A key is deleted only by the worker that holds it |
| `WorkerProtocol.OrphanedIffHolderDied` | workers/base/consumer.py:98-109 | An id is orphaned if and only if some worker died while holding its key |
| `WorkerProtocol.DeathLosesTheMessage` | workers/base/consumer.py:88-109 | That happens: a worker dies holding the key, and the message, delivered again, is acknowledged as a duplicate; it is in no queue and never executed |
| `Consumer.AfterIsARun` | workers/base/consumer.py:80-109 | The recorded effects of a worker are a run of `WorkerProtocol`, so its theorems hold of them |
| `Consumer.DomainWorker.Handle` | workers/base/consumer.py:80-109 | `_handle` of any of n workers: the exact order of effects on each branch, and the resulting queue, dead letters and keys |
| `Consumer.DomainWorker.Interfere` | workers/base/consumer.py:76-78 | Between its effects any step of another worker or of the broker may happen; it leaves this worker where it stands |
| `Consumer.DomainWorker.Redeliver` | workers/base/consumer.py:81-96 | Messages that are delivered once more, or are no envelope, reach the queue |
| `Consumer.DomainWorker.Take` | workers/base/consumer.py:88-96 | The key is set if absent; otherwise the duplicate is acknowledged without execution |
| `Consumer.DomainWorker.Attempt` | workers/base/consumer.py:98-109 | The key stays after a success and is gone after a failure; the next attempt or the dead letter is there |
| `Consumer.DomainWorker.Fail` | workers/base/consumer.py:101-109 | The key is deleted before the message is dead-lettered or republished with the next attempt number |
| `Dispatch.Execute` | workers/base/consumer.py:188-263 | An execution writes IN_PROGRESS, then a status, then the result; an agent that is found and enabled answers for itself, any other has failed; the status is DONE exactly for an approval or requested changes, BLOCKED for blocked, FAILED for failed; an interrupted execution has written a prefix |
| `Dispatch.DispatchAgent` | orchestrator/nodes/dispatch.py:99-128 | The first result read before the task is read as failed or cancelled is returned; without one the agent counts as failed |
| `Dispatch.DispatcherIsTheLoop` | orchestrator/nodes/dispatch.py:99-128 | Interleaved with the worker's writes, the dispatcher returns what that loop returns on the values it happened to read |
| `Dispatch.ReturnsExactlyWhen` | orchestrator/nodes/dispatch.py:99-128 | In every interleaving: a dispatcher returns exactly when it reads a result, reads that the task failed or was cancelled, or meets its deadline, in the last two cases with a failure, and never changes its answer |
| `Dispatch.NothingIsInvented` | orchestrator/nodes/dispatch.py:100-128 | Under every interleaving a returned result is a failure or one that a worker stored for this task |
| `Dispatch.OnlyFailuresEndWithoutResult` | orchestrator/nodes/dispatch.py:108-117 | Without timeout, cancellation and failed attempts a returned result is a stored one: the early exit on the status, which is written before the result, loses only failures |
| `Dispatch.ApprovalsAreReal` | orchestrator/nodes/stages.py:88-101 | If a stage is approved on results that dispatchers returned, each of them is an approval without a critical finding that was stored in the run of its own task |
| `Dispatch.StoredResultIsAnnounced` | workers/base/consumer.py:239-263 | In a task that is not cancelled, row and stored result agree until a further attempt begins |
| `World.EveryTaskIsSingle` | workers/base/consumer.py:80-109 | All tasks in one interleaving over shared workers and queue: each has at most one execution at a time and at most one stored result, the one that a dispatcher which did not fail returned |
| `World.ResultArrives` | workers/base/consumer.py:239-263 | Any answer of an agent can come back: there is a run at whose end its dispatcher has returned it and it is the one stored |
| `ConfigMerge.DeepMerge` | agents/config_store.py:94-101 | The recursive loop computes the merge function, in whatever order the keys come |
| `ConfigMerge.MergeWithItself` | agents/config_store.py:94-101 | merge(b, b) = b |
| `ConfigMerge.MergeIsIdempotent` | agents/config_store.py:94-101 | merge(merge(b, o), o) = merge(b, o) |
| `ConfigMerge.OutcomeByFields` | agents/config_store.py:104-141 | The outcome of a merge over a YAML depends only on what the override puts for inputs, tools and outputs: the merge, the YAML with the column's switch, or an exception |
| `ConfigMerge.GuardIsTheValidation` | backend/app/api/v1/agents.py:80-92 | The guard of the API accepts exactly the configurations that the validation at the time of use accepts |
| `ConfigMerge.AcceptedConfigurationsApply` | agents/config_store.py:120-141 | A configuration that the guard accepts is applied over any YAML, or alone: neither the exception nor the fallback is reachable |
| `ConfigMerge.NullInputsRaise` | agents/registry.py:68 | For instance the merge raises when `inputs` is null, which the guard refuses |
| `ConfigMerge.EnabledIsTheColumns` | agents/config_store.py:109-110 | Whatever the override, a definition that comes out is valid and carries the column's switch |
| `ConfigMerge.ValidExactlyWhen` | agents/registry.py:61-73 | A definition is valid if and only if it has the twelve fields, and inputs, tools and outputs hold their required keys; its validation raises exactly on the first of the three that is a null, a boolean or a number |
| `ConfigMerge.GuardRaisesExactlyWhen` | backend/app/api/v1/agents.py:80-92 | The guard refuses a null, zero or false like an empty object, and raises exactly on the first of the three that is true or another number |
| `ConfigMerge.ColumnAlone` | agents/config_store.py:120-141 | An agent without a YAML file runs its column if that is valid, is unknown if it is not, or the merge raises |
| `AgentTable.Table.SyncAgentDefinitions` | orchestrator/db.py:273-314 | One transaction: the table becomes the published one, or stays as it was if an id would be inserted twice |
| `AgentTable.SyncKeepsCustomization` | orchestrator/db.py:276-282 | A publication never touches the configuration and the switch of an existing agent, nor agents it does not mention |
| `AgentTable.SyncPublishes` | orchestrator/db.py:286-314 | A published definition reaches its row: all of it if the row is new, else name, version, domain, stages and default, while configuration and switch stay |
| `AgentTable.SyncIsIdempotent` | orchestrator/main.py:166-190 | A restart that publishes the same files changes nothing |
| `AgentTable.FreshAgentRunsItsYaml` | agents/config_store.py:104-141 | An agent published for the first time runs its YAML definition, enabled |
| `AgentTable.Table.UpdateAgent` | backend/app/api/v1/agents.py:131-181 | After an accepted edit each field is absent if removed, else the shortcut's, else the new configuration's, or the old one's if none was given; an edit is refused only for a changed configuration that the guard does not accept, and then changes nothing |
| `AgentTable.Table.ResetAgent` | backend/app/api/v1/agents.py:184-211 | A reset restores the default, enabled, if there is one |
| `AgentTable.HistoryIsAccepted` | backend/app/api/v1/agents.py:162-164 | After any publications of validated definitions, edits and resets the guard accepts every stored configuration |
| `AgentTable.RestartKeepsEffectiveDefinition` | orchestrator/db.py:273-314 | With the same YAML a restart changes nothing for an agent already in the table |
| `AgentTable.FirstYamlWins` | orchestrator/db.py:300-314 | An agent nobody edited keeps every value of the YAML it was first published with, whatever later files say |
| `AgentTable.ConfigStore.Load` | agents/config_store.py:61-85 | An answer is a reading of the table younger than the time to live, or empty if the table cannot be read; a failed reading leaves the cache |
| `AgentTable.ConfigStore.InvalidateCache` | agents/config_store.py:55-58 | The next answer is read anew |
| `StageAgents.AgentsForStage` | orchestrator/routing/router.py:57-64 | Exactly the listed agents that the registry knows and has switched on, in order |
| `StageAgents.TheColumnDecides` | orchestrator/nodes/stages.py:35-38 | Unless its merge raises, a selected agent has a definition, on exactly if the column, or without a row the registry, says so |
| `StageAgents.AcceptedConfigurationsResolve` | orchestrator/nodes/stages.py:34-39 | With configurations that the API accepts no merge raises |
| `StageAgents.ToggleDecidesIff` | orchestrator/routing/router.py:61-63 | The column decides whether an agent runs if and only if its registry entry is switched on |
| `StageAgents.NobodyRunsPasses` | orchestrator/nodes/stages.py:45-49 | A gate whose stage has nobody to run is passed |
| `StageAgents.BreaksExactlyWhen` | agents/config_store.py:127-141 | Over a proper YAML the merge of a selected agent raises exactly for a column whose first spoiled field is a null, a boolean or a number |
| `Prompt.RenderPrompt` | agents/runtime/executor.py:40-45 | The loop performs the eight replacements in order |
| `Prompt.RenderIsSimultaneous` | agents/runtime/executor.py:40-45 | Where no value spells a placeholder with its neighbours, the replacements equal one simultaneous left-to-right substitution |
| `Prompt.CleanMeansNothingIsRescanned` | agents/runtime/executor.py:40-45 | That condition holds if and only if each pass replaces exactly the template's own placeholders |
| `Prompt.HarmlessRendersSimultaneously` | agents/runtime/executor.py:23-27 | In particular where every other brace is followed by a character that starts no placeholder, as in JSON examples, or by a placeholder whose value cannot complete a name, as in doubled braces: all such braces survive |
| `Prompt.ValuesAreRescanned` | agents/runtime/executor.py:43-44 | For every pair of placeholders: the value of an earlier one that mentions a later one is itself rewritten |
| `Prompt.CoincidencesExist` | agents/runtime/executor.py:43-44 | With braces in the values a rescanned value can by coincidence come out right in the end |
| `Prompt.PlaceholderIsFilled` | agents/runtime/executor.py:40-45 | A placeholder becomes its value, and nothing if it has none |
| `Prompt.EarlierMentionsStay` | agents/runtime/executor.py:43-44 | The other way round: a value of a later placeholder that mentions an earlier one stays as it is |
| `Prompt.ObjectiveMentionsConstraints` | agents/runtime/executor.py:28-37 | By name: an objective that mentions the constraints shows them, constraints that mention the objective do not show it |
| `OAuth.FetchAuthorizationServerMetadata` | shared/mcp/oauth.py:238-252 | The first candidate with both endpoints, none before it having both, or an error if there is none |
| `OAuth.McpServer.EnsureClient` | backend/app/services/mcp_oauth.py:82-93 | Keeps a client, registers one if there is none and the server supports it, and otherwise fails unchanged |
| `OAuth.McpServer.PrepareAuthorization` | backend/app/services/mcp_oauth.py:52-111 | A start succeeds exactly when metadata and client can be had; then state, verifier, client, scope and endpoint of the URL are those stored, the tokens are untouched; a failed start changes nothing |
| `OAuth.McpServer.CompleteAuthorization` | backend/app/services/mcp_oauth.py:114-134 | A callback stores the tokens and clears state and verifier if the exchange succeeds, and changes nothing otherwise |
| `OAuth.McpServer.EnsureFreshToken` | backend/app/services/mcp_oauth.py:137-167 | The token endpoint is asked only for an expired token with refresh token, endpoint and client; a refusal clears the authorization |
| `OAuth.McpServer.StoreTokens` | backend/app/services/mcp_oauth.py:35-41 | A response without refresh token or scope keeps the old ones |
| `OAuth.McpServer.ClearAuthorization` | backend/app/services/mcp_oauth.py:44-49 | Both tokens, their end, state and verifier go; scope, client, metadata and address stay |
| `OAuth.TokensInForce` | shared/mcp/oauth.py:178-207 | After an exchange or refresh the new token is used until its declared end less the skew, for ever if none is declared; refresh token and scope are the new ones or the old (section 6 of RFC 6749) |
| `OAuth.UninterruptedCommit` | backend/app/services/mcp_oauth.py:99-134 | The column-wise commit of a request that nothing interrupted stores exactly what its operation computes |
| `OAuth.OverlapExchangesTwice` | backend/app/services/mcp_oauth.py:123-134 | Without the condition of `ExchangedAtMostOnce` it fails: of any pending authorization two callbacks can be sent that both exchange its verifier |
| `OAuth.StatusTellsWhatUseDoes` | backend/app/services/mcp_oauth.py:170-178 | The displayed status agrees with what the next use does |
| `OAuth.SpentVerifierStaysSpent` | backend/app/services/mcp_oauth.py:132-134 | A verifier that was exchanged is never pending again |
| `OAuth.LateRefusalWipes` | backend/app/services/mcp_oauth.py:137-167 | Of two overlapping uses that both refresh, a refusal of the second wipes the tokens that the first has just stored |
| `OAuth.StartsExactlyWhen` | backend/app/services/mcp_oauth.py:52-92 | A start works with the stored metadata if it has both endpoints, else with the first complete answer of the candidates, and succeeds exactly for an http server with metadata and a client, registered or to be registered |
| `OAuth.OthersWritesSurvive` | backend/app/services/mcp_oauth.py:99-134 | A column that a request did not change keeps what others have written to it meanwhile |
| `OAuth.StartLands` | backend/app/services/mcp_oauth.py:94-111 | In every life: a start that handed out a URL leaves its state and verifier pending, so that the callback finds the server and can exchange; one that failed leaves the row alone |
| `OAuth.ExchangeLands` | backend/app/services/mcp_oauth.py:123-134 | In every life: a callback that exchanges its code leaves its token and no pending state, whatever happened since it was sent |
| `OAuth.ResetLands` | backend/app/api/v1/mcp.py:329-351 | A reset clears each of the five columns that held something when it loaded the row; one that was empty then keeps what was stored since |
| `OAuth.LateResetKeeps` | backend/app/api/v1/mcp.py:329-351 | So a reset that overlaps a callback can leave its fresh token in force |
| `OAuth.EditsStand` | backend/app/api/v1/mcp.py:167-202 | An edit of transport and address stands until the next one, whatever requests were in flight |

## Left out

- A negative `MAX_GATE_CYCLES` or `MESSAGE_MAX_ATTEMPTS`: both are natural numbers here; a negative value behaves as zero.
- LangGraph itself: one node execution with its merged update is one step, a checkpoint follows each completed node and is
  kept until `Checkpoint.Forget` loses it, and which of the old state a new input on an existing thread keeps is left open,
  so retried runs start from any state at triage whose counters are within the maximum.
- asyncio, RabbitMQ, Redis and SQL: modelled as atomic key setting, redelivery of unacknowledged messages, row updates and
  code between two awaits. Acknowledging does not fail, keys and stored results do not expire, and `build_graph` does not
  raise.
- Several orchestrator processes: `_running` belongs to one process.
- The age of rows: a row counts as fetched by its status only; the staleness threshold is a matter of clocks.
- Texts, audit events, priorities, identifiers, checksums and timestamps, other than the integer clock of `OAuth` and of the
  configuration cache.
- Agents' answers, prompts and YAML contents, tools, sandbox, scanners, the object store and the workspace, the frontend,
  the API apart from cancel, retry, and the edit and reset of an agent, authentication, and the other graphs: they do not take part in these protocols.
- TASK_TRANSITIONS: workers do not follow that table (workers/base/consumer.py:239-245), so nothing is claimed about it.
- Message loss after the death of a worker that holds the key: the code does not prevent it; `WorkerProtocol.NothingIsLost`
  and `WorkerProtocol.DeathLosesTheMessage` say when it happens.
- The order of keys in merged definitions, configurations that are not objects, and agents that exist in the table only (apart
  from `ConfigMerge.EnabledIsTheColumns`).
- `Prompt.RenderIsSimultaneous`: one direction for values with braces, whose replacements can undo each other by
  coincidence (`Prompt.CoincidencesExist`); for values without, `Prompt.BracelessRendersIff` gives both.
- `Consumer.DomainWorker.Handle`: runs through without interruption; between its effects, `Interfere` and
  `WorkerProtocol` have every other worker's.
- `Budget.ReviewedBound`: not exact; `ReviewBudget.ReviewedRunsFit` is, for fresh runs.
- Exceptions that leave `_handle` (the key store or the republication failing) end the worker and count as its death.
- The hint for the resource's metadata is not part of the OAuth server here.
- The check of an edit that its MCP servers exist: an edit it refuses is one that is not made.
- URL parsing in the OAuth discovery (candidate addresses, canonical resource) and the contents of requests: parameters. A
  registration that answers but is followed by a failed commit is not modelled.
