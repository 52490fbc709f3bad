# OpsMender: a verified model of its protocols

OpsMender answers incidents with an AI agent that may call tools, under tiers of
autonomy, with people approving from a dashboard or a chat. This project models
the parts of it where an error is hard to see by reading, and proves what they
keep:

- **Slack sockets** (`SlackLease`, `SlackSocket`): processes share one lease row
  per connector, with fences that close a socket before its lease can pass on.
  `SlackLease` is the protocol as steps over the row and each process's state,
  in real time with skewed clocks and late timers; `SlackSocket` is the manager
  object and the grouping of connectors by their tokens.
- **Approvals** (`Approvals`, `ApprovalService`, `ApprovalActions`,
  `CliStopWatch`): a session and its requests are rows that the waiting run, a
  person's Stop, answers, an Override and the CLI all write. Runs of statements
  are interleavings; the polling loop is a method between whose statements a
  script of other statements runs.
- **Tier gate, graph and workflow** (`TierPolicy`, `ToolAudit`, `TierGate`,
  `TierExecute`, `AgentGraph`, `AgentRun`, `AgentSession`, `SkillWorkflow`,
  `WorkflowRun`, `WorkflowLaws`): what a session may call, over whole runs with
  redirects, and what the audit trail shows.
- **Audit of configuration changes** (`AdminHistory`, `AdminAudit`): rows are
  folded as they change, with savepoints; `AdminHistory` is the fold against the
  database's own story, `AdminAudit` the objects changed in place and the copies
  kept apart from them.
- **Telegram messages** (`TelegramHtml`, `TelegramDialect`, `TelegramMarkup`): a
  reader for the HTML that Telegram accepts, the meaning of the chat dialect, and
  the renderer's loops.
- **Windows** (`SlidingWindow`, `SigninThrottle`, `RateLimit`): pruned queues
  against the whole history.
- **Action tokens and their use** (`Base64Url`, `ActionTokens`, `ActionUse`).

Loops and objects that the program updates in place are methods and classes, each
proved against a function or relation; the properties are lemmas about those, or
postconditions. Nothing was executed.

## What the proofs found

Where the code does not meet what its comments promise, the code is modelled as it
is, a lemma or a run gives the case, and a statement says exactly when the promise
holds.

- A tick commits a voluntary release before it closes that socket
  (`backend/bots/slack_socket.py:642-654`), so two processes can briefly both have
  the socket open. Every overlap is of this kind (`GiveAwayOverlaps`,
  `OverlapsAreGiveAways`). With the constants as shipped, exclusion otherwise holds
  if and only if scheduling delay, twice the clock difference and the 0.05 s of
  slack fit into half a renewal (`ExclusionIffMargin`).
- A configuration row deleted and inserted again in one transaction is audited as
  deleted, and old values can be lost (`ReplacedReadsAsDeleted`,
  `EarlyReinsertLosesValue`); in every other history the fold is the net change and the
  commit adds an entry exactly for what changed (`FoldIsNetChange`, `Transact`).
- An answer to an approval writes the session's status without looking at it
  (`backend/approvals/decisions.py:82-101`). It overwrites an ended session if and only
  if the request was pending at its look, the person may answer, the request is then
  late or still pending, and what others write alone leaves the session ended
  (`ApprovalActions.Decide`). Two runs of it do so: a late answer behind a Stop that has
  already expired the request, and one in time behind a Stop that did not find it
  (`LateAnswerOverwritesStop`, `AnswerOverwritesMissingStop`); behind a Stop that
  expired the request, one in time fails (`AnswerLosesToStop`).
- For the same reason a CLI run may go on after its session was stopped: when an answer
  brings the session back before the run's next check, that check finds nothing, and
  every call of the run, however many, is sent after the Stop (`AllSentAfterStop`). At
  most one is, the one whose check came before the Stop, when nothing brings the
  session back (`OneAfterStop`); and in every run if and only if what others may write
  does not both end a session and bring an ended one back (`OneAfterStopIff`). Of calls
  that leave while the session is ended there may also be more than one
  (`TwoLateCalls`), but no more than one and the times it is brought back
  (`LateAtMost`, `OneLateIff`).
- An answer that lands before an expiry is written is kept, but it is returned with the
  reason of a timeout and without a redirect's guidance
  (`backend/approvals/service.py:239-263`). `ApprovalService.Expire` says exactly when,
  `ApprovedAsItExpires` and `RedirectedAsItExpires` give the cases.
- A validated node order may put other nodes between the plan and the gate. The 60
  visits of an interactive session suffice for every run if and only if the plan is
  at most two places before the gate (`FitsLimitIff`). The limit is passed at
  `backend/api/session_runner.py:1085` but not at `:1053`, the path with an MCP
  server.
- A workflow step's tier override "never" makes it more permissive, says
  `backend/agent/workflow_executor.py:141-142`. It does if it names a higher tier and
  the Skill holds the tool back less there: a policy that runs at the higher tier and
  not at the session's, or that runs unasked where the session's asks; or a generic
  tool not opted out, moved to Tier 1 (`OverrideLoosensIff`, `OverrideMayLoosen`).
- A workflow call that raises an exception without a message counts as completed and
  does not abort (`backend/agent/workflow_executor.py:323`; `FailedIffText`,
  `SilentErrorCompletes`). A step whose template failed is recorded as permitted
  though nothing was sent (`PermittedUnsentIff`).
- An unclosed fence drops what follows the marker on its opening line, which its
  comment says is included (`backend/bots/telegram_markup.py:52-55`): exactly the bare
  marker is shown as written (`UnclosedFenceShown`, `UnclosedFenceLosesLanguage`,
  `PythonFenceLosesItsName`).
- Waiting the time a sign-in lockout reports is enough after attempts made one at a
  time, and not always after overlapping ones (`WaitLifts`, `WaitLiftsIff`,
  `OverlappingAttemptsWaitLonger`).

## Assumptions

Clocks are read once per operation and never run backwards within a process. Real
numbers stand for times. Each database statement is atomic, the one that takes a
lease and the insert that reserves a key included; for approvals every statement of
a transaction may be seen by others before the next, which allows more than the
database does, except that asking (the insert with the conditional update, or
neither) is one step. A logger that raises, cancellation inside a tool call and the
Tier 0 wall clocks are taken as absent. Signing, JSON and UUID texts are functions
with the laws in `ActionTokens.Lawful`. Skills, HTTP, sockets, models and people
appear as functions or as the answers, replies and scripts a run is given.

## Model

| member | source | states |
|---|---|---|
| SlackLease.NoEarlyTakeover | backend/db/repos.py:2992-3033 | no other process can take a lease while the moment its holder's socket must be closed by is not past |
| SlackLease.CommitKeepsInv | backend/bots/slack_socket.py:615-656 | committing a take, renewal or release keeps every process's open socket no newer than its lease row's stamp |
| SlackLease.WakeKeepsInv | backend/bots/slack_socket.py:489-506 | one turn of the loop (a timed-out or failed tick, the fence, the sleep) leaves no socket open past its deadline |
| SlackLease.StepKeepsInv | backend/bots/slack_socket.py:489-673 | every step of any process (tick begun, committed, failed, sockets opened or closed, fence, shut down) keeps the invariant |
| SlackLease.RunKeepsInv | backend/bots/slack_socket.py:489-673 | so does every run of any number of processes |
| SlackLease.OverlapsAreGiveAways | backend/bots/slack_socket.py:642-654 | in every run, if two processes have the socket open, one of them has just given its lease away in a tick and not yet closed |
| SlackLease.TryingGivesNothingAway | backend/bots/slack_socket.py:553-561 | processes that keep trying for the connector never give a lease away that way |
| SlackLease.StrictExclusion | backend/bots/slack_socket.py:452-474 | so with takeovers by expiry and shut-downs only, at most one process has the socket open, in every run |
| SlackLease.GiveAwayOverlaps | backend/bots/slack_socket.py:642-654 | a run in which a release committed before the close leaves two sockets open |
| SlackLease.MarginIsNeeded | backend/bots/slack_socket.py:58-62 | whenever the margin fails there is a run in which an expired lease is taken while the old socket is open |
| SlackLease.ExclusionIffMargin | backend/bots/slack_socket.py:53-62 | with the shipped lease and renewal, exclusion holds in every such run if and only if 2 x skew + 0.05 + delay is at most half a renewal |
| SlackLease.RestLetsAnotherTry | backend/bots/slack_socket.py:428-431 | in every run, when a holder that gave up tries again, every running process has begun a tick since or has just started, if the commit's delay, lateness and clocks stay below five seconds |
| SlackLease.GiveUpRests | backend/bots/slack_socket.py:553-561 | a tick that gives up leaves such a rest, does not try, and keeps the rest through its commit |
| SlackLease.GivenUpTriesLater | backend/bots/slack_socket.py:428-431 | from the first start: in every run that gives up, commits the release and later tries again, so it is |
| SlackSocket.GroupByToken | backend/bots/slack_socket.py:115-129 | each token's group is exactly the Socket Mode connectors that hold it, in order |
| SlackSocket.TokenConflicts | backend/bots/slack_socket.py:115-137 | grouping by token finds exactly the connectors that share an app or bot token with another one, and names exactly those others |
| SlackSocket.SharesAToken | backend/bots/slack_socket.py:115-137 | the pairwise relation is symmetric and is having a token in common |
| SlackSocket.LeaseTable.TakeLease | backend/db/repos.py:2992-3033 | takes the row when absent, held by the caller, or stamped more than a lease ago, and touches no other row |
| SlackSocket.LeaseTable.ReleaseLease | backend/db/repos.py:3035-3041 | drops the row if the caller holds it, and nothing else |
| SlackSocket.SlackSocketManager.FenceDueIn | backend/bots/slack_socket.py:508-515 | the time until the first socket reaches its fence, none without sockets |
| SlackSocket.SlackSocketManager.TickBudget | backend/bots/slack_socket.py:517-524 | a tick never gets past any socket's fence, nor more than a renewal, nor less than 0.05 s |
| SlackSocket.SlackSocketManager.CloseFenced | backend/bots/slack_socket.py:526-544 | closes exactly the sockets not renewed for the fence time and keeps the others as they are |
| SlackSocket.SlackSocketManager.TickConnector | backend/bots/slack_socket.py:577-632 | one connector's turn: when it is passed over, put to rest, or tried, what that does to its row, its rest and what is remembered of its app |
| SlackSocket.SlackSocketManager.ReleaseUnheld | backend/bots/slack_socket.py:642-646 | releases the lease of every socket the tick did not take, and of no other |
| SlackSocket.SlackSocketManager.TakeLeases | backend/bots/slack_socket.py:563-632 | the connectors tried are those that have a token, conflict with none, were not found with the wrong app and do not rest; held are those of them whose row is taken |
| SlackSocket.SlackSocketManager.TickTransaction | backend/bots/slack_socket.py:546-648 | the transaction of a tick: leases taken and released, every connector's rest and remembered app afterwards, sockets only noted as seen connected |
| SlackSocket.SlackSocketManager.CloseOrRenew | backend/bots/slack_socket.py:649-656 | a socket not held, finished or with another token is closed, the others are stamped with the tick's start |
| SlackSocket.SlackSocketManager.TickApply | backend/bots/slack_socket.py:649-673 | after the commit the open sockets are exactly the held connectors |
| SlackSocket.SlackSocketManager.Stop | backend/bots/slack_socket.py:452-474 | all sockets are closed before any lease is released, and all their leases are |
| SlackSocket.HeldTokensDiffer | backend/bots/slack_socket.py:577-632 | two connectors tried in one tick have no app or bot token in common |
| Approvals.FirstAnswerStays | backend/db/repos.py:1922-1950 | the first answer to a request is never changed by any later statement of anyone |
| Approvals.EndedStays | backend/approvals/service.py:267-292 | in every interleaving, a session a person ended stays so unless a forced write comes: asks, syncs and the CLI's close never bring it back |
| Approvals.MovedStays | backend/approvals/service.py:267-292 | once an Override moved the session, and while it stays away from the run's tier, erasing all that the run asks and writes from any interleaving with others leaves the same database |
| ApprovalService.Database.AskFor | backend/approvals/service.py:118-138 | a request exists afterwards if and only if the session now waits for it; a refused ask leaves the database as it was |
| ApprovalService.Answered | backend/approvals/service.py:177-219 | a request found answered is returned with that answer, the note of a redirect, and the session's end as its reason exactly when that cut the wait short; none of the run's writes touches a session it has lost |
| ApprovalService.Expire | backend/approvals/service.py:233-263 | a request found late is returned resolved, always with the reason of a timeout and no guidance; it is something other than expired if and only if an answer landed before the expiry was written, and then the request is that answer's |
| ApprovalService.ApprovedAsItExpires | backend/approvals/service.py:239-263 | an approval that lands then is returned as approved, with the reason of a timeout |
| ApprovalService.RedirectedAsItExpires | backend/approvals/service.py:239-263 | a redirect that lands then is returned without the guidance the request holds |
| ApprovalService.Turn | backend/approvals/service.py:177-265 | a turn on a resolved request returns; one that does not return, after the last extension, resolves the request or brings its expiry nearer |
| ApprovalService.Wait | backend/approvals/service.py:177-265 | the polling loop ends, whatever others do in between, and returns the request's own, final answer |
| ApprovalService.RequestAndWait | backend/approvals/service.py:108-265 | a refused ask leaves no request, a returned wait leaves its request not pending, and the run's writes spare a lost session throughout |
| ApprovalActions.Decide | backend/approvals/decisions.py:55-127 | exactly when an answer is not found, refused, lost, late or taken, whatever comes between its look and its writes; what it leaves; and it overwrites an ended session if and only if it comes to write and the others alone leave the session ended |
| ApprovalActions.LateAnswerOverwritesStop | backend/approvals/decisions.py:78-86 | a run of it: a late answer overwrites a Stop that came behind its look and had expired the request |
| ApprovalActions.AnswerOverwritesMissingStop | backend/approvals/decisions.py:78-101 | a run of it: an answer in time overwrites a Stop that did not find the request |
| ApprovalActions.AnswerLosesToStop | backend/approvals/decisions.py:88-101 | a run of it: an answer in time fails behind a Stop that expired the request, and the session stays stopped |
| ApprovalActions.ExpireAll | backend/api/routes/sessions.py:638-648 | every listed request is resolved afterwards, whatever others do in between |
| ApprovalActions.Stop | backend/api/session_runner.py:1244-1319 | only a running session is stopped, one still queued is cancelled, and what was pending is resolved |
| ApprovalActions.CloseCliSession | cli/opsmender.py:1063-1106 | the CLI closes its row only if it was not ended and is at its tier, and then resolves what was pending |
| CliStopWatch.StopWatch.IsStopped | cli/opsmender.py:934-944 | the end of a run, once found, never changes; a failed read tells nothing |
| CliStopWatch.StopWatch.Interrupt | cli/opsmender.py:950-953 | Ctrl-C ends the run, but does not replace an end already found |
| CliStopWatch.StopWatch.Call | cli/opsmender.py:1000-1010 | a call is held back if and only if the run has ended at its check, and is then listed with its error |
| CliStopWatch.RunCalls | cli/opsmender.py:934-1010 | whatever others write in between: which calls are sent and which held back, that nothing is sent behind a call held back, how many are sent after a Stop took effect, and how many while the session is ended |
| CliStopWatch.LateAtMost | cli/opsmender.py:934-1010 | in every run at most one call more leaves while the session is ended than others bring an ended session back |
| CliStopWatch.TwoLateCalls | cli/opsmender.py:934-1010 | a session ended, brought back and ended again lets two calls leave while it is ended |
| CliStopWatch.OneLateIff | cli/opsmender.py:934-1010 | at most one leaves while the session is ended, in every run, if and only if what others may write does not both end a session and bring an ended one back |
| CliStopWatch.OneAfterStop | cli/opsmender.py:934-1010 | in a run in which nothing brings an ended session back, at most one call is sent after a Stop took effect |
| CliStopWatch.AllSentAfterStop | cli/opsmender.py:934-1010 | one Stop undone before the next check: however long the run, all its calls are sent after the Stop |
| CliStopWatch.OneAfterStopIff | cli/opsmender.py:934-1010 | at most one call is sent after a Stop took effect, in every run, if and only if what others may write does not both end a session and bring an ended one back |
| CliStopWatch.NotSent | cli/opsmender.py:1939-1946 | matching from the end marks, for each tool and error, as many of the last records as were held back |
| CliStopWatch.MarksAreRightIff | cli/opsmender.py:1932-1946 | the marks are exactly the calls held back if and only if no answer reading like one of them came behind it |
| CliStopWatch.HeldAreMarked | cli/opsmender.py:1932-1946 | so they are for a run that sends nothing behind its first held back call |
| TierPolicy.NormalizeTier | backend/tiers/enforcement.py:50-61 | every tier becomes 0, 1 or 2, and never a more permissive one than the safest when out of range |
| TierPolicy.CheckIsStable | backend/tiers/enforcement.py:64-168 | checking again at the tier of the result gives the same result |
| ToolAudit.AuditedToolCall | backend/audit/executor.py:46-204 | the trail gains a start and a refusal, or a start, the call and its end, and the result says which |
| ToolAudit.LoggedCat | backend/audit/executor.py:92-204 | trails of the grammar follow one another |
| ToolAudit.CallsAreEnclosed | backend/audit/executor.py:92-204 | in a trail of the grammar every call is permitted, announced just before and ended just after |
| TierGate.NoRunGate | backend/agent/nodes.py:832-856 | blocks every action, with the policy's reason where it refuses |
| TierGate.PlainGate | backend/agent/nodes.py:860-896 | without an approval service, what needs one is blocked |
| TierGate.AskingGate | backend/agent/nodes.py:900-1020 | stops at the first redirect and then leaves nothing granted; audits each refusal as it happens |
| TierGate.TierGate | backend/agent/nodes.py:802-1020 | whichever gate the session has leaves what the pass's outcomes say, and audits exactly its refusals |
| TierExecute.Execute | backend/agent/nodes.py:1048-1087 | the granted actions are called in order, each under the executor's own check, and recorded |
| TierExecute.PassKeepsPlan | backend/agent/nodes.py:900-1020 | a pass not redirected splits the plan into granted and refused, every action once and in order; a redirected one leaves neither |
| TierExecute.PassTellsRequests | backend/agent/nodes.py:936-1005 | a pass leaves exactly the requests its actions made, and the last expiry decides how the session ends |
| TierExecute.MarkTells | backend/agent/nodes.py:193-209 | for every combination of permitted, approval needed and a service to ask: what each mark means for the gate and the executor |
| TierExecute.MarksAgree | backend/agent/nodes.py:193-209 | over a pass, gate and executor call exactly what was marked as running and what was marked as waiting and approved |
| TierExecute.GrantsAreAuthorised | backend/agent/nodes.py:937-1007 | every granted action is of this plan and runs by policy or by the approval of its own request in this pass |
| AgentGraph.ValidIff | backend/agent/graph.py:81-115 | an order is accepted if and only if, blanks aside, it names known nodes in a sound order, and that order is returned |
| AgentGraph.WireEdges | backend/agent/graph.py:368-394 | the edges join neighbours, with a way back to the plan from the gate alone |
| AgentRun.VisitsFollowEdges | backend/agent/graph.py:118-131 | a run goes where the edges and the redirect lead |
| AgentRun.RunLength | backend/agent/graph.py:374-394 | a run visits each node once and the nodes from plan to gate once more per redirect |
| AgentRun.ExecuteOnlyAfterGate | backend/agent/graph.py:383-391 | execute is entered only straight from a gate whose pass was not redirected |
| AgentRun.RunUsesLastPass | backend/agent/graph.py:383-391 | execute works, once, on what the last pass left, whatever passes left before |
| AgentRun.FitsLimitIff | backend/api/session_runner.py:77-81 | every run of an order stays within 60 visits if and only if the plan is at most two places before the gate |
| AgentRun.LongLoopExceeds | backend/api/session_runner.py:77-81 | a longer loop has a run beyond the limit |
| AgentRun.ShortLoopLength | backend/agent/nodes.py:524-528 | nine nodes with the gate right behind the plan need at most 39 visits |
| AgentRun.DefaultIsShort | backend/agent/graph.py:68-78 | the default order is sound and of that kind |
| AgentSession.RedirectsAreBounded | backend/agent/nodes.py:945-971 | only a gate that asks, with a plan to go back to, is redirected, and at most fifteen times |
| AgentSession.SessionIsLogged | backend/audit/executor.py:92-204 | the whole session's trail is of the grammar |
| AgentSession.SessionCalls | backend/agent/nodes.py:1048-1087 | a session calls what its last pass granted and the executor permits, in order, and nothing else |
| AgentSession.EveryCallIsBacked | backend/agent/nodes.py:900-1087 | every call of every session is permitted and backed by the last pass's policy or approved request |
| AgentSession.SessionKeepsPromises | backend/agent/nodes.py:193-209 | over whole sessions the marks of the last plan are kept, both ways |
| AgentSession.NoRunAsksNobody | backend/agent/nodes.py:817-856 | without an executor or a gated plan nobody is asked and nothing is called |
| SkillWorkflow.ResolveReads | backend/agent/workflow_executor.py:82-118 | a template that resolves names only steps with outputs, and depends on no other step's |
| SkillWorkflow.OverrideLoosensIff | backend/agent/workflow_executor.py:121-145 | exactly when an override makes a step more permissive than its session, by what the Skill's tables hold for the tool at the two tiers |
| SkillWorkflow.OverrideMayLoosen | backend/agent/workflow_executor.py:139-145 | a Skill and an override that do |
| WorkflowRun.CheckedTwice | backend/agent/workflow_executor.py:206-313 | a step let through is let through by the executor's own check |
| WorkflowRun.RunStep | backend/agent/workflow_executor.py:180-363 | one step's outcome, whether it aborts the rest, and its trail |
| WorkflowRun.Execute | backend/agent/workflow_executor.py:168-367 | the loop computes the run of the steps, each on what those before it left |
| WorkflowLaws.OneOutcomePerStep | backend/agent/workflow_executor.py:180-367 | one outcome per step and in order, ending early only right behind a failed call of an aborting step |
| WorkflowLaws.CallsAreOutcomes | backend/agent/workflow_executor.py:304-363 | the calls sent are those of the outcomes, in order, with the recorded inputs |
| WorkflowLaws.EveryCallIsAuthorised | backend/agent/workflow_executor.py:206-363 | in every run a step is completed only if its call was sent, and every call sent is permitted at the tier recorded and, where a person must approve, carries its own approved request |
| WorkflowLaws.FailedIffText | backend/agent/workflow_executor.py:314-340 | a call sent is marked failed if and only if its error has a text |
| WorkflowLaws.SilentErrorCompletes | backend/agent/workflow_executor.py:314-353 | one that raised without a message is completed and does not abort |
| WorkflowLaws.PermittedUnsentIff | backend/agent/workflow_executor.py:43-55 | a record says permitted of an unsent call if and only if the templates did not resolve |
| WorkflowLaws.LeftIsLastCompleted | backend/agent/workflow_executor.py:341-357 | what can be read of a step is the output of its last completed outcome |
| WorkflowLaws.TemplatesReadBack | backend/agent/workflow_executor.py:97-118 | every step a resolved template names was completed in front of it |
| WorkflowLaws.WorkflowRunsOnce | backend/agent/nodes.py:687-713 | the session of a workflow is never redirected and runs it once |
| AdminHistory.StepKeepsInv | backend/audit/admin_changes.py:187-223 | every create, update, delete and savepoint step keeps the fold in step with the database, for the live state and every saved one |
| AdminHistory.RunKeepsInv | backend/audit/admin_changes.py:187-223 | so does every history |
| AdminHistory.FoldIsNetChange | backend/audit/admin_changes.py:187-223 | for every history the fold of a row is its net change if and only if it was not replaced and no re-insert came before its old values were seen |
| AdminHistory.ReplacedReadsAsDeleted | backend/audit/admin_changes.py:210-223 | a deleted and re-inserted row reads as deleted |
| AdminHistory.EarlyReinsertLosesValue | backend/audit/admin_changes.py:210-223 | a history in which old values are lost |
| AdminHistory.EntryIffChanged | backend/audit/admin_changes.py:254-275 | a row gets an entry if and only if it differs between the two states, and then one of its creation, update or deletion as they say |
| AdminHistory.EntryIffNetChange | backend/audit/admin_changes.py:187-275 | in every history, a row not replaced and none of whose old values were lost gets an entry if and only if its state differs from the one at the start |
| AdminHistory.EntryNamesChangedColumns | backend/audit/admin_changes.py:254-275 | an update's entry names only columns that differ, in order, no more than twelve, all if there are no more, and otherwise none that comes behind one left out |
| AdminHistory.SecretsDoNotShow | backend/audit/admin_changes.py:155-162 | two records that differ only in values not readable give the same entry |
| AdminAudit.RowRecord.Fold | backend/audit/admin_changes.py:213-223 | the record changed in place is the fold of its value |
| AdminAudit.Copied | backend/audit/admin_changes.py:439-448 | a copy of the records shares none with them |
| AdminAudit.AuditContext.FoldRow | backend/audit/admin_changes.py:187-223 | the live rows become the fold, and no savepoint's copy changes |
| AdminAudit.AuditContext.SavepointBegin | backend/audit/admin_changes.py:439-448 | a savepoint saves the rows' values apart from the live ones |
| AdminAudit.AuditContext.AfterRollback | backend/audit/admin_changes.py:426-436 | a rollback restores what the savepoint saved, or empties all |
| AdminAudit.AuditContext.SavepointEnd | backend/audit/admin_changes.py:452-455 | once forgotten, the restored rows are shared with nothing again |
| AdminAudit.AuditContext.AddRowEntries | backend/audit/admin_changes.py:399-403 | exactly the entries of the rows are added and counted |
| AdminAudit.AuditContext.BeforeCommit | backend/audit/admin_changes.py:393-414 | the outermost commit adds exactly the rows' entries, or the request's own when it wrote and no row accounts for it |
| AdminAudit.AuditContext.Follow | backend/audit/admin_changes.py:187-455 | after each change, savepoint, release or rollback the records and every copy hold the fold of the history |
| AdminAudit.AuditContext.Transact | backend/audit/admin_changes.py:187-414 | over a whole transaction, the commit adds an entry for such a row if and only if its state differs from the one at the start |
| AdminAudit.AuditContext.AfterCommit | backend/audit/admin_changes.py:418-422 | entries move from pending to counted and the rows are forgotten, at the outermost commit only |
| TelegramHtml.LexEscaped | backend/bots/telegram_markup.py:31-33 | escaped text reads as characters alone, and as the text |
| TelegramHtml.ReadsLink | backend/bots/telegram_markup.py:113-117 | a link reads as one link tag around its own text |
| TelegramDialect.LayKeepsLine | backend/bots/telegram_markup.py:75-107 | the pieces with their delimiters are the line, for every way of marking it |
| TelegramDialect.LayTakesMarks | backend/bots/telegram_markup.py:75-107 | every mark outside another is taken, and nothing else |
| TelegramDialect.PartsKeepText | backend/bots/telegram_markup.py:110-120 | links and the text between them are the text |
| TelegramDialect.TextReads | backend/bots/telegram_markup.py:110-120 | without tags and with entities decoded, literal text reads as itself |
| TelegramDialect.PartsTakeOnlyUrls | backend/bots/telegram_markup.py:110-120 | exactly the URLs become links |
| TelegramDialect.SpansKeepLine | backend/bots/telegram_markup.py:75-107 | a line's spans with their delimiters are the line |
| TelegramDialect.InlinesKeepLine | backend/bots/telegram_markup.py:75-107 | so are those of a phrase without bold |
| TelegramDialect.CodeIsATickPair | backend/bots/telegram_markup.py:88-95 | a code span is a backtick and the next one with something between |
| TelegramDialect.BoldIsAStarPair | backend/bots/telegram_markup.py:96-104 | a bold phrase is a marker and the next one like it with something between |
| TelegramDialect.SpansTakeOnlyPairs | backend/bots/telegram_markup.py:75-107 | only delimiters that pair up are taken out, the others stay text |
| TelegramDialect.InlinesTakeOnlyPairs | backend/bots/telegram_markup.py:75-107 | so in a phrase without bold |
| TelegramMarkup.LineKept | backend/bots/telegram_markup.py:59-72 | a line's spans, the headline's included, are the line |
| TelegramMarkup.LineReads | backend/bots/telegram_markup.py:59-72 | a line's HTML is well formed and shows the line without its paired delimiters |
| TelegramMarkup.BlocksKeepLines | backend/bots/telegram_markup.py:36-56 | fences and lines are the text's lines, all and in order |
| TelegramMarkup.MessageReads | backend/bots/telegram_markup.py:36-56 | every message's HTML has only known tags, nested and closed as Telegram wants, and shows the text's meaning |
| TelegramMarkup.UnclosedFenceShown | backend/bots/telegram_markup.py:52-55 | a text that ends in an unclosed fence is shown with the fence as written if and only if its opening line is the bare marker |
| TelegramMarkup.UnclosedFenceLosesLanguage | backend/bots/telegram_markup.py:52-55 | a text of an opening line with a language and a line of code is shown without the language |
| TelegramMarkup.RenderText | backend/bots/telegram_markup.py:110-120 | the loop over URLs computes the text's HTML |
| TelegramMarkup.RenderSpans | backend/bots/telegram_markup.py:75-107 | the scan computes the HTML of the spans |
| TelegramMarkup.RenderLine | backend/bots/telegram_markup.py:59-72 | a line's HTML, headline or not |
| TelegramMarkup.Render | backend/bots/telegram_markup.py:36-56 | every text rendered: balanced known tags, no stray markup, showing the text's meaning |
| SlidingWindow.PrunedIsKept | backend/auth/signin_throttle.py:59-68 | pruning a sorted queue from the left takes out exactly what is gone |
| SlidingWindow.CoversPruned | backend/auth/signin_throttle.py:59-68 | pruning the queue gives what pruning all times ever recorded gives |
| SigninThrottle.SignInThrottle.Recent | backend/auth/signin_throttle.py:59-68 | a key's bucket is its failures in the window since it was last cleared |
| SigninThrottle.SignInThrottle.RetryAfter | backend/auth/signin_throttle.py:70-76 | blocked if and only if the whole history reaches a limit of the caller's, with the wait of such a limit |
| SigninThrottle.SignInThrottle.RecordFailure | backend/auth/signin_throttle.py:78-94 | the failure is counted under the caller's keys, and exactly the limits it just reached are told |
| SigninThrottle.SignInThrottle.Clear | backend/auth/signin_throttle.py:96-98 | a success clears that account's failures from that address |
| SigninThrottle.SignInThrottle.Attempt | backend/auth/signin_throttle.py:145-190 | in attempts one at a time no key's count exceeds its limit; a blocked one counts nothing, nor does one that raises with another status, which clears nothing either |
| SigninThrottle.WaitLiftsIff | backend/auth/signin_throttle.py:70-76 | waiting lifts the limit if and only if the failures before the limit's last are then out of the window |
| SigninThrottle.WaitLifts | backend/auth/signin_throttle.py:70-76 | it does after attempts one at a time |
| SigninThrottle.OverlappingAttemptsWaitLonger | backend/auth/signin_throttle.py:70-76 | a run of two overlapping attempts after which it does not |
| RateLimit.BotRateLimiter.Check | backend/bots/rate_limit.py:45-80 | allowed if and only if the last minute, its first moment included, holds fewer than the limit |
| RateLimit.NoMinuteHoldsMore | backend/bots/rate_limit.py:59-78 | any closed minute at all holds at most the limit |
| Base64Url.ReadEncoded | backend/bots/actions.py:94-100 | stripping the padding and putting it back loses nothing, for every byte string |
| Base64Url.EncodedIsPlain | backend/bots/actions.py:94-95 | encoded bytes are ASCII and hold no dot |
| Base64Url.DecodeEncoded | backend/bots/actions.py:94-100 | decoding undoes encoding |
| ActionTokens.TokenSplits | backend/bots/actions.py:150-151 | a token splits at its first dot into exactly body and signature |
| ActionTokens.MadeTokenVerifies | backend/bots/actions.py:107-182 | a fresh token verifies to its claims with the expiry cut to seconds, and is refused exactly from that second on |
| ActionTokens.CutShortens | backend/bots/actions.py:130 | the cut takes less than a second, and never prolongs a time after the epoch |
| ActionTokens.LinkTtl | backend/bots/action_links.py:84-86 | a link lives as configured, within five minutes and seven days |
| ActionUse.Invocations.Press | backend/bots/actions.py:515-625 | a first use applies or rejects and records it, or fails and leaves everything as it was; a later one runs nothing and repeats the record |
| ActionUse.Invocations.UseLink | backend/bots/action_links.py:145-205 | the action takes effect and its use is recorded together, or neither; a refused use leaves the link as it was |
| ActionUse.AtMostOnce | backend/db/repos.py:4879-4920 | over any interleaving of uses a key takes effect at most once, and its first committed outcome stays |
| ActionUse.RolledBackIsFree | backend/bots/action_links.py:163-205 | a use rolled back leaves its key free |
| ActionUse.ReplayRepeatsIff | backend/bots/actions.py:557-575 | a replay repeats the first outcome word for word if and only if that word is not empty |

## Left out

- SocketModeClient: its reconnect backoff and envelopes; a socket is open from the tick that opens it until it is closed, and the closing handshake counts as scheduling delay.
- SlackSocket.SlackSocketManager.TickTransaction: does not model the state rows written for the doctor, nor log lines; names of conflicting connectors are a set, not a sorted list.
- Slack's answer about which app a token belongs to: the tick is given what each socket has seen.
- AdminAudit: SQL expressions as values of an update statement; the order in which entries are added; rows of tables that are not audited count only as writes.
- AdminHistory.Enabled: a change's old value is the row's current one, as the session's history and the statement's snapshot give it.
- TelegramDialect.UrlEnd: the pattern for URLs is a scan for `http://` or `https://` and the run of characters behind it.
- ApprovalService.Wait: objects kept by the database session between statements are read afresh; notifications, publishing and the requests' other columns are left out.
- ApprovalActions.Stop: cancelling the task, queue notices and the loop over an incident's sessions; one session stands for each.
- Override: it appears as the statements that force the status and move the tier; its owner and audit parts are left out.
- CliStopWatch.RunCalls: counts calls sent after a Stop took effect or while the session is ended, not those sent after an Override moved it, and takes every read to succeed; `StopWatch.IsStopped` has the failed read.
- TierPolicy.Check: matching a tool name against the Skill's entries, globs included, is a function of the name.
- TierGate.TierGate: an action's justification and other keys, the times and texts of requests; names that are not text, which the plan's parser refuses.
- AgentGraph.WireEdges: what the nodes other than plan, gate and execute do, and the events published around them; every visit is one step of the graph library.
- SkillWorkflow.Resolve: finding templates in strings is done beforehand; values are rendered to text by a given function; keys of a mapping are not resolved, as in the code.
- WorkflowRun.Execute: the log entries of steps and the redaction of their outputs and inputs after the run.
- SigninThrottle.SignInThrottle.RetryAfter: the clock is read once where the code reads it up to twice.
- RateLimit.BotRateLimiter.Check: the lock, and reading the limit from the configuration; a limit that changes between calls is covered only by the rule for one call.
- ActionTokens.MadeTokenVerifies: a random nonce or a default expiry is given by the caller.
- ActionUse.Invocations.Press: the checks before the key is reserved, the audit rows, and the action itself; the rollback behind any other failure is that of the request's transaction (`backend/api/deps.py:75-88`).
- read_link: which of its states a link is in; UseLink is given the refusal.
- Grounding, hygiene, post budgets, prompts, connectors, schemas and command-line parsing: text handling and plumbing.
