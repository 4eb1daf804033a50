# Verified model of slacksched

slacksched binds each Slack thread to one agent process. This project models the parts of it whose
correctness is hardest to see by reading, and proves what they promise over every input, every run or every
interleaving. `dafny verify dfyconfig.toml` checks everything.

## The pieces

* **Scheduler and worker life cycle.** `Session` (thread keys, token registry), `Worker` and `WorkerInv` (one
  worker goroutine as a small-step machine; every external call has a success and a failure event),
  `Scheduler`, `SchedulerInv`, `SchedulerTheorems`, `SchedulerCompletion`, `SchedulerWitnesses` (any number of
  senders and workers interleaved), `WorkerObject` (the worker and scheduler as mutable objects that represent a
  state of the system; each method is proved to be a move or a run of moves), `WorkerReports` (one iteration act by
  act, and the truth of every reported outcome).
* **JSON-RPC correlation.** `Correlation` (an abstract request table), `AcpClient` and `CodexRequests` (both
  transports as interleaved machines that refine the table, and as objects with their critical sections),
  `AcpOutcomes` and `CodexRequestOutcomes` (how each way out of a call comes about).
* **Codex turns and live status.** `CodexAnswer`, `CodexTurn`, `CodexTurnInv`, `CodexTurnTheorems`, `CodexLines`,
  `CodexConn` (the reader's lines interleaved with the statements of `runTurn`), `InFlight`, `CodexPhase`, `CursorPhase`,
  `CursorStream`.
* **Markdown to mrkdwn.** `Search`, `Placeholders`, `Restoring`, `Extraction` (plain strings), `DocExtraction`,
  `TameTexts`, `CodeParts` (texts seen as literals and holes), `CodeExtraction` (what is taken out and what is left), `Escape`, `Mrkdwn`, `MrkdwnTheorems`,
  `MrkdwnWitnesses`, `TableFences`, `MrkdwnTables` (the table loop as one of the rewritings).
* **Smaller exact algorithms.** `AgentsMd`, `Dedupe`, `MessageFilter`, `DuplicateRule`, `Transcript`, `Utf8`.
* `Wrappers` and `Text` are helpers.

## How it is modelled

* A goroutine is a program counter plus its variables; a step is one critical section, one channel operation
  or one outcome of an external call. Theorems quantify over all valid event sequences. Objects that the
  program updates in place are classes, whose methods are proved against the step functions.
* The worker's `trace` and the connection's `sent`, `errors` and `handled` lists are records of what happened;
  no modelled decision reads them.
* Handling one input line of a Codex connection is one atomic step, and so is each statement of `runTurn`.
* Clock readings, outcomes of external calls, decoded JSON, fresh tokens and the matches of regular
  expressions are inputs. Jobs passed to `Enqueue` are distinct values, and a minted token is not one that is
  already registered.
* Strings are sequences of characters; where lengths count (`Transcript`) a character stands for a byte, and
  `Utf8` works on bytes.

## Where the code falls short of what one might expect

Each of these is kept as the code has it, with a witness and, where there is one, the exact condition.

* A job can be stranded on a worker that left its loop, in two ways (`SchedulerWitnesses`).
  `SchedulerCompletion.CompletableIff`: a job can complete exactly if it already has or its worker is still in
  the loop.
* A key that holds a "/" in any part shares its worker with another thread; `Session.KeyUniqueIff` is exact, and
  without slashes in team and channel ids each worker meets its own thread's jobs only (`OwnThreadOnly`).
* After a plain end of input the ACP client sets no latch, and the Codex layer has none: later callers wait
  (`AcpClient.EofLeavesCallerWaiting`, `CodexRequests.CloseLeavesLaterRequestsWaiting`), and for exactly how
  long is `WaitsAfterEof` and `WaitsAfterClose`.
* A completion handled between `runTurn`'s first statement and the installation of its channel is swallowed;
  `CodexTurnTheorems.CompletableIff` says exactly when a turn can still complete.
* Turns are not told apart by id: a late or repeated turn/completed finishes the next turn
  (`LateLineFinishesNextTurn`, `RepeatedLineFinishesNextTurn`; `CompletesWaitingIff` is exact).
* A line handled between the reset statements of a turn can be that turn's reply (`EarlierTextIsReply`);
  `EmptyAtRequestIff` says exactly when nothing is left over.
* Protecting and restoring a text is not always the identity, for three reasons: a Slack token inside code is not
  restored (`MrkdwnWitnesses.TokenLeftInCode`); with an odd number of fences, at least three, the last segment is
  repeated (`Extraction.FenceRoundTrip`); and a text between two placeholders that is itself the inside of one can
  be mistaken for it (`MrkdwnWitnesses.TextTakenForToken`). `MrkdwnTheorems.JointRoundTrip` is exact: the round
  trip holds if and only if none of the three happens. When a text is mistaken is the condition `NeverMistaken` on
  the text before the loops; `JointProtection` shows that it is exact for every rewriting in between, too.
* A colon in a channel id can make two different posts share a duplicate key (`DuplicateRule.MessageKeyEqualIff` is
  exact); without colons none is taken for a repeat that is not one (`EveryDecision`, `ColonFreeKeys`).
* A replaced AGENTS.md text that contains the end marker leaves a residue (`AgentsMd.LastWriteWins`), and an
  end marker on the start marker's own line is kept and copied (`KeepsOnceIff`, `EndOnStartLine`).
* The comment on `sessionBootstrapDone` says it is set once the opening has been sent; the code sets it only
  after the opening succeeded, and the model follows the code.
* `TranscriptExcluding` is described as obeying its character budget; the truncation marker comes on top of it
  (`Transcript.OutputBound`, exact, and `ExceedsBudget`).
* The Cursor status display can show a finished tool or a finished thought (`StaleToolIff`, `StaleThoughtIff`),
  and a blank last assistant segment hides earlier ones (`CursorStream.BlankSegmentFallsBack`).

## Model

| member | source | states |
|---|---|---|
| Session.KeyStringInjective | internal/session/key.go:13-15 | two threads have the same map key exactly if they are the same thread, when team and channel ids hold no slash |
| Session.KeyUniqueIff | internal/session/key.go:13-15 | a thread shares its map key with no other thread if and only if none of its three parts holds a slash |
| Session.SlashedKeyCollides | internal/session/key.go:13-15 | a slash in any part gives a second thread with the same map key |
| Session.Registry.Register | internal/contextapi/registry.go:22-30 | a non-empty token is mapped to the key, the empty token changes nothing |
| Session.Registry.Unregister | internal/contextapi/registry.go:32-40 | removes exactly the given token |
| Session.Registry.Lookup | internal/contextapi/registry.go:42-51 | finds the key of a registered token, nothing for the empty or an unknown one |
| WorkerInv.StepInv | internal/scheduler/scheduler.go:160-325 | every event of a worker, on every success and failure path, keeps loop shape, resource and token balance, channel order, the single session and the shape and order of its prompts |
| WorkerInv.AcceptInv | internal/scheduler/scheduler.go:119 | a message may arrive in the channel at any moment without breaking any of that |
| WorkerInv.StepBalanced | internal/scheduler/scheduler.go:198-278 | provider and workspace are live together between jobs; starts minus closes and creations minus cleanups are 1 when live and 0 otherwise, on each of the five early exits |
| WorkerInv.StepTokens | internal/scheduler/scheduler.go:160-166 | tokens registered are tokens unregistered plus the one the worker holds |
| WorkerInv.StepChannelOrder | internal/scheduler/scheduler.go:197-212 | messages sent are those done, then the one in hand, then the queue, in order; no worker leaves before finishing one |
| WorkerInv.StepPromptShape | internal/scheduler/scheduler.go:294-314 | each prompt is the session's opening until one has succeeded and the job's own text afterwards |
| WorkerInv.StepPromptOrder | internal/scheduler/scheduler.go:286-323 | prompts follow queue order, at most one per job |
| WorkerInv.StepTruthful | internal/scheduler/scheduler.go:301-323 | the jobs reported as a success, with the one about to be, are exactly those whose prompts succeeded, in order |
| WorkerInv.OpeningBlock | internal/scheduler/scheduler.go:241-314 | the prompts of a session are a block of openings ending with its first success, then only later jobs' texts; the opening is never sent after it succeeded |
| SchedulerInv.MoveKeeps | internal/scheduler/scheduler.go:109-158 | each move of a sender or a worker keeps the exact worker map, routing, conservation of jobs and the exact registry |
| SchedulerInv.RunKeeps | internal/scheduler/scheduler.go:109-325 | every run of moves from a good state, whatever the interleaving, keeps the system invariant |
| SchedulerInv.ReachableInv | internal/scheduler/scheduler.go:109-325 | the system invariant holds after every run from the start |
| SchedulerInv.RegFlow | internal/contextapi/registry.go:22-40 | what an event does to a worker's live token is what it does to the registry: one token in, or that one out, or nothing |
| SchedulerTheorems.BoundIffWorker | internal/scheduler/scheduler.go:100-107 | a thread is bound exactly while some worker of its key has not exited, and there is never a second one |
| SchedulerTheorems.RemoveTakesOwnEntry | internal/scheduler/scheduler.go:154-158 | the deferred remove deletes the worker's own entry and leaves every other one |
| SchedulerTheorems.OneFate | internal/scheduler/scheduler.go:110-120 | every issued job is in exactly one place: held by its sender, queued, running, finished or stranded; an unissued job is nowhere |
| SchedulerTheorems.DoneOnce | internal/scheduler/scheduler.go:211-323 | Done is called at most once for a job, by one worker only, with at most one prompt for it |
| SchedulerTheorems.OwnThreadOnly | internal/scheduler/scheduler.go:110-120 | if no team or channel id holds a slash, a worker receives, holds, prompts for and finishes only jobs of its own thread, in every run |
| SchedulerTheorems.StrandingArises | internal/scheduler/scheduler.go:197-209 | a job becomes stranded only when the idle timer fires while it waits or when it is sent to a worker that already left |
| SchedulerTheorems.ResourceBalance | internal/scheduler/scheduler.go:198-278 | a worker that left has closed what it opened and finished a job; once past its unregister it has given back every token |
| SchedulerTheorems.RegistryListsLiveTokens | internal/contextapi/registry.go:23-51 | the registry maps a token to a key exactly if a worker of that key holds it now |
| SchedulerTheorems.TokenFollowsProvider | internal/scheduler/scheduler.go:243-268 | between jobs a worker has a registered token exactly if it has a provider and the context API is configured |
| SchedulerCompletion.IssuedIsBound | internal/scheduler/scheduler.go:110-120 | every issued job is bound to a worker of the pool |
| SchedulerCompletion.LostForever | internal/scheduler/scheduler.go:198-209 | a job whose worker left the loop without finishing it is never completed in any continuation |
| SchedulerCompletion.Drive | internal/scheduler/scheduler.go:192-323 | as long as the bound worker is in its loop there is a schedule that completes the job |
| SchedulerCompletion.CompletableIff | internal/scheduler/scheduler.go:192-323 | a job can complete if and only if it has completed or its worker is still in the loop |
| SchedulerWitnesses.StrandedInChannel | internal/scheduler/scheduler.go:198-209 | a run from the start in which the idle timer strands a job that waits in the channel, and the job is lost |
| SchedulerWitnesses.StrandedAfterExit | internal/scheduler/scheduler.go:110-120 | a run from the start in which the picked worker is gone before the send, and the job is lost |
| SchedulerWitnesses.StrandedIsLost | internal/scheduler/scheduler.go:197-212 | a job stranded after any run cannot complete in any continuation |
| WorkerObject.ThreadWorker.Offer | internal/scheduler/scheduler.go:119 | a send appends to the channel unless 256 messages wait in it |
| WorkerObject.ThreadWorker.OpenWorkspace | internal/scheduler/scheduler.go:215-239 | workspace and pre-session command: success opens the session, each failure cleans up, reports and arms the timer |
| WorkerObject.ThreadWorker.StartProvider | internal/scheduler/scheduler.go:241-268 | token registration and provider start; a failed start unregisters, cleans up and reports |
| WorkerObject.ThreadWorker.PromptOnce | internal/scheduler/scheduler.go:279-323 | context refresh, then the opening or the job's text, then one Done that says whether both went well |
| WorkerObject.ThreadWorker.SendPrompt | internal/scheduler/scheduler.go:286-314 | the opening until it has succeeded once, the job's own text from then on |
| WorkerObject.ThreadWorker.HandleJob | internal/scheduler/scheduler.go:211-323 | one loop iteration walks the small-step machine along the path its outcomes dictate, registry included; `WorkerReports.IterationResult` says what that walk comes to |
| WorkerObject.ArrivalCommutes | internal/scheduler/scheduler.go:119 | a message that arrives during an iteration might as well arrive before or after any of its events: same state, same record of jobs, prompts and resources |
| WorkerObject.ThreadWorker.IdleExit | internal/scheduler/scheduler.go:198-209 | the idle arm closes provider and workspace and the first deferred call unregisters the token |
| WorkerObject.SetupWalk | internal/scheduler/scheduler.go:214-268 | the setup events can happen in this order and add up to the attempted provider start with its registration |
| WorkerObject.PromptedPath | internal/scheduler/scheduler.go:279-323 | the prompt events follow on a live or a fresh session alike |
| WorkerReports.IterationResult | internal/scheduler/scheduler.go:211-323 | one iteration in terms of how its external calls turn out: every act in order, ending with the report of success exactly if the session is up, the context was written and the prompt succeeded; the worker's state and the registry after it |
| WorkerReports.IdleActs | internal/scheduler/scheduler.go:160-209 | what the idle arm and the deferred unregister do, in order |
| WorkerReports.ReportIsTrue | internal/scheduler/scheduler.go:301-323 | a worker reports success for a job exactly if a prompt for that job succeeded |
| WorkerReports.ReportsAreTrue | internal/scheduler/scheduler.go:109-325 | the same for every report in every run of the whole system |
| WorkerObject.WalkIsRun | internal/scheduler/scheduler.go:110-325 | a walk of one worker is a run of the whole system that changes that worker and the registry only |
| WorkerObject.SchedulerObject.IsThreadBound | internal/scheduler/scheduler.go:100-107 | on an object that represents a system state, tells whether the thread is bound there |
| WorkerObject.SchedulerObject.Pick | internal/scheduler/scheduler.go:110-118 | Enqueue's critical section takes the represented system through the look-up move and returns the worker the job is now bound to |
| WorkerObject.SchedulerObject.Deliver | internal/scheduler/scheduler.go:119 | the channel send succeeds exactly if the send move is possible, and then is that move |
| WorkerObject.SchedulerObject.Iterate | internal/scheduler/scheduler.go:211-323 | a loop iteration of one worker object takes the represented system through the moves of that iteration |
| WorkerObject.SchedulerObject.IdleFire | internal/scheduler/scheduler.go:198-209 | the idle arm of one worker object takes the represented system through the idle move |
| WorkerObject.SchedulerObject.Unregister | internal/scheduler/scheduler.go:160-166 | the first deferred call takes the represented system through the unregister move |
| WorkerObject.SchedulerObject.Remove | internal/scheduler/scheduler.go:154-158 | the deferred remove takes the represented system through the worker's remove move |
| Correlation.RunKeeps | internal/acp/client.go:134-161 | a machine that refines the request table step by step keeps its invariant over every run and shows a history of that table |
| Correlation.VerdictIsFinal | internal/acp/client.go:134-161 | in every history of a table that only decides pending requests, a request's verdict never changes |
| AcpClient.StepInv | internal/acp/client.go:134-161 | every step of callers, reader and closer keeps the life of each channel: in the table open and empty, with the reader, filled, emptied, or closed instead |
| AcpClient.RunInv | internal/acp/client.go:93-295 | so does every run |
| AcpClient.SafeDelivery | internal/acp/client.go:134-161 | no run sends on a closed channel, closes one twice or drops a response; the reader stops exactly at the end of its input or at a read error; a returned response bears the caller's id and was read, and a failure, a refusal, a cancellation and an unsent call each have their cause in the run |
| AcpClient.NoLostWakeup | internal/acp/client.go:246-270 | a waiting call is in the table, or its response is with a reader that can deliver it, or it can receive |
| AcpClient.LatchIsPermanent | internal/acp/client.go:153-161 | once the read error is set the table stays empty and later calls never wait |
| AcpClient.WaitsAfterEof | internal/acp/client.go:153-161 | with the reader gone a listed waiting call stays listed and waiting if and only if the table is not closed and its context does not end |
| AcpClient.EntersAfterStop | internal/acp/client.go:229-237 | a call that enters after the reader stopped is refused if and only if the read error is set, and listed otherwise |
| AcpClient.EofLeavesCallerWaiting | internal/acp/client.go:153-161 | such a caller exists |
| AcpClient.VerdictKept | internal/acp/client.go:139-151 | no step changes the verdict on a request |
| AcpClient.StepRefines | internal/acp/client.go:93-295 | every step is a step of the abstract request table, with positive ids and matching responses |
| AcpClient.HistoryIsChain | internal/acp/client.go:93-295 | every run of the client is a history of that table, so each request gets at most one verdict |
| AcpClient.ReturnsTheVerdict | internal/acp/client.go:246-280 | what a call returns is the table's verdict on it |
| AcpOutcomes.ResponseReturns | internal/acp/client.go:139-280 | a response to a waiting call is read, put in its channel, received and returned as it was, and nobody else is touched |
| AcpOutcomes.UnlistedIsIgnored | internal/acp/client.go:139-151 | a response changes nothing if and only if its id is not listed |
| AcpOutcomes.MatchedFate | internal/acp/client.go:139-280 | a response that was read for a listed call is never lost: in every continuation it is the table's verdict and the only response the call can return |
| AcpOutcomes.CloseWakes | internal/acp/client.go:153-161 | a close or a read error lets every listed waiter return a failure, latched or not as it is, and empties the table |
| AcpOutcomes.OthersUntouched | internal/acp/client.go:213-286 | an event moves its own call and no other |
| AcpOutcomes.EntersIff | internal/acp/client.go:229-237 | a call that enters is refused if and only if a read error is latched, and listed with a fresh channel otherwise |
| AcpOutcomes.GivesUp | internal/acp/client.go:240-259 | a caller that gives up or cannot send leaves the table; all other entries and all channels stay |
| AcpOutcomes.Sends | internal/acp/client.go:213-246 | a call that is sent waits for its response, and one that cannot be encoded is not sent; the table stays |
| AcpClient.Client.DrawID | internal/acp/client.go:214 | ids are drawn in sequence from 1 |
| AcpClient.Client.Enter | internal/acp/client.go:229-237 | a call is refused if the read error is set, otherwise listed with a fresh open channel |
| AcpClient.Client.Withdraw | internal/acp/client.go:257-259 | a caller deletes its own entry and nothing else |
| AcpClient.Client.Take | internal/acp/client.go:139-144 | the reader takes the entry of the response's id out of the table, if there is one |
| AcpClient.Client.Put | internal/acp/client.go:145-150 | the non-blocking send fills the channel, or records that it was closed or full |
| AcpClient.Client.ClosePending | internal/acp/client.go:288-295 | the loop closes every listed channel once, touches no other and empties the table |
| AcpClient.Client.FailRead | internal/acp/client.go:153-161 | the read error is latched and the table closed under it |
| CodexRequests.StepInv | internal/provider/codex_appserver.go:311-404 | every step of requests, reader and closer keeps each one-slot channel empty while it is listed or the reader holds its response |
| CodexRequests.ReaderNeverBlocks | internal/provider/codex_appserver.go:382-404 | the reader's plain send always has room, even against closeAllPending and cancellation; no close notice is lost; a value returned is the request's own and was read, and every other way out has its cause in the run |
| CodexRequests.NoLostWakeup | internal/provider/codex_appserver.go:335-343 | a waiting request is listed, or its response can be delivered, or it can receive |
| CodexRequests.WaitsAfterClose | internal/provider/codex_appserver.go:335-356 | with the reader gone a listed waiting request stays listed and waiting if and only if there is no close and its context does not end |
| CodexRequests.BeginsListed | internal/provider/codex_appserver.go:311-317 | there is no latch: a request is listed at any time, also after a close |
| CodexRequests.CloseLeavesLaterRequestsWaiting | internal/provider/codex_appserver.go:346-356 | such a request exists |
| CodexRequests.VerdictKept | internal/provider/codex_appserver.go:382-404 | no step changes the verdict on a request |
| CodexRequests.StepRefines | internal/provider/codex_appserver.go:311-404 | every step is a step of the same abstract request table |
| CodexRequests.HistoryIsChain | internal/provider/codex_appserver.go:311-404 | every run is a history of that table |
| CodexRequests.ReturnsTheVerdict | internal/provider/codex_appserver.go:335-343 | what a request returns is the table's verdict on it |
| CodexRequestOutcomes.ResponseReturns | internal/provider/codex_appserver.go:335-404 | a response to a waiting request is read, sent, received and returned as it was, and nobody else is touched |
| CodexRequestOutcomes.UnlistedIsIgnored | internal/provider/codex_appserver.go:382-394 | a response changes nothing if and only if its id is not listed |
| CodexRequestOutcomes.MatchedFate | internal/provider/codex_appserver.go:335-404 | a response that was read for a listed request is never lost, in any continuation |
| CodexRequestOutcomes.CloseWakes | internal/provider/codex_appserver.go:346-356 | a close lets every listed waiter return and empties the table |
| CodexRequestOutcomes.OthersUntouched | internal/provider/codex_appserver.go:311-344 | an event moves its own request and no other |
| CodexRequestOutcomes.GivesUp | internal/provider/codex_appserver.go:322-343 | a request that gives up or cannot be written leaves the table; all other entries and all channels stay |
| CodexRequests.Requests.Begin | internal/provider/codex_appserver.go:312-317 | the next id is drawn and listed with a fresh channel |
| CodexRequests.Requests.Withdraw | internal/provider/codex_appserver.go:338-342 | a request deletes its own entry |
| CodexRequests.Requests.Take | internal/provider/codex_appserver.go:385-393 | the reader takes the entry of the response's id, if there is one |
| CodexRequests.Requests.CloseAllPending | internal/provider/codex_appserver.go:346-356 | the loop puts the close notice in every listed channel and empties the table |
| CodexAnswer.FinalRecorded | internal/provider/codex_appserver.go:251-270 | after any messages of a turn the output is the last final answer's text, and the flag says whether there was one |
| CodexAnswer.DraftRecorded | internal/provider/codex_appserver.go:264-269 | the fallback is the last non-empty non-final text |
| CodexAnswer.SelectedAnswer | internal/provider/codex_appserver.go:272-291 | the reply is the last final answer trimmed or the placeholder; without one the last draft trimmed or the placeholder |
| CodexAnswer.SelectionIsTotal | internal/provider/codex_appserver.go:272-291 | one of those cases always applies |
| Text.TrimSpaceIs | internal/messagefilter/filter.go:75 | trimming takes white space off both ends, and all of it |
| Text.TrimSpaceUnique | internal/messagefilter/filter.go:75 | and that determines the result |
| CodexTurnInv.StepInv | internal/provider/codex_appserver.go:438-772 | every line and every statement of runTurn keeps: one completion per turn, the mailbox, first error wins, failing turns keep their error, raw before legacy |
| CodexTurnTheorems.RunInv | internal/provider/codex_appserver.go:438-772 | so does every run |
| CodexTurnTheorems.OneCompletionPerTurn | internal/provider/codex_appserver.go:680-694 | whatever completion signals combine, no turn's waiter gets a second completion and none meets a full channel |
| CodexTurnTheorems.RawThenLegacy | internal/provider/codex_appserver.go:446-463 | handled notifications are a run of raw ones followed by a run of legacy ones |
| CodexTurnTheorems.TextMeansSuccess | internal/provider/codex_appserver.go:762-771 | a turn returns text only if the completion it received came from a line that neither aborted nor failed it |
| CodexTurnTheorems.VerdictOnCompletion | internal/provider/codex_appserver.go:666-672 | after a completion the outcome is aborted, else the first error since the turn began, else text; a failing completion never gives text |
| CodexTurnTheorems.LateIsSwallowed | internal/provider/codex_appserver.go:680-721 | if a completion was signalled before the turn's channel was installed, the turn stays unanswered or gives up |
| CodexTurnTheorems.CompletableIff | internal/provider/codex_appserver.go:696-756 | an installed turn can complete if and only if no completion was signalled before its channel was installed |
| CodexTurnTheorems.SwallowedTurn | internal/provider/codex_appserver.go:697-721 | a turn whose completion was swallowed is reachable |
| CodexTurnTheorems.CompletesWaitingIff | internal/provider/codex_appserver.go:481-506 | a turn/completed line completes the waiting turn if and only if no completion was signalled, the mode is not legacy, the thread is not foreign and the id is empty or not seen in this turn |
| CodexTurnTheorems.LateLineFinishesNextTurn | internal/provider/codex_appserver.go:696-772 | a run from the start: the first turn times out, its completed line arrives in the second turn, and the second turn returns |
| CodexTurnTheorems.RepeatedLineFinishesNextTurn | internal/provider/codex_appserver.go:496-506 | a run from the start: the line that completed the first turn is repeated and completes the second |
| CodexTurnTheorems.LineRecords | internal/provider/codex_appserver.go:466-541 | a line changes the answer by exactly the agent messages it carries, in either dispatch mode |
| CodexTurnTheorems.AnswerIsFold | internal/provider/codex_appserver.go:733-771 | from the request on, the recorded answer is the fold of the messages of the lines handled since |
| CodexTurnTheorems.TurnAnswer | internal/provider/codex_appserver.go:723-731 | for every whole turn and every interleaving, each field of the answer holds what was recorded since that field was reset |
| CodexTurnTheorems.TurnText | internal/provider/codex_appserver.go:771 | the text a whole turn returns is the selection from those three windows of messages |
| CodexTurnTheorems.EmptyAtRequestIff | internal/provider/codex_appserver.go:723-733 | when the request is sent the answer is empty if and only if the lines since the resets left no final text, no draft and no final answer |
| CodexTurnTheorems.CleanTurnText | internal/provider/codex_appserver.go:733-771 | after such a start the text is the selection from the messages recorded since the request |
| CodexTurnTheorems.EarlierTextIsReply | internal/provider/codex_appserver.go:718-771 | a run from the start whose turn returns the text of a line handled between its resets, before its request |
| CodexLines.TaskCompletes | internal/provider/codex_appserver.go:474-475 | task_complete completes the turn as finished, in every mode |
| CodexLines.AbortCompletes | internal/provider/codex_appserver.go:476-477 | turn_aborted completes it as aborted, in every mode |
| CodexLines.CompletedCompletesIff | internal/provider/codex_appserver.go:486-506 | turn/completed completes it if and only if the mode is not legacy, the thread is not foreign and the id is empty or new, as aborted exactly for the aborting statuses |
| CodexLines.ErrorCompletesIff | internal/provider/codex_appserver.go:508-517 | an error line completes it if and only if the mode is raw already, the thread is not foreign, the message is not empty and there is no retry |
| CodexLines.AnswerCompletesIff | internal/provider/codex_appserver.go:533-541 | an agent item completes it if and only if the mode is not legacy, the thread is not foreign and the phase is the final answer |
| CodexLines.OthersDoNotComplete | internal/provider/codex_appserver.go:438-545 | no other line completes a turn |
| CodexLines.SeenIsFinal | internal/provider/codex_appserver.go:680-694 | once a completion was signalled no line delivers anything |
| CodexLines.LineErrors | internal/provider/codex_appserver.go:486-517 | the errors each line reports, a failed turn's even if that turn was completed before |
| CodexLines.LineIds | internal/provider/codex_appserver.go:496-504 | the completed-turn ids each line adds |
| CodexLines.LineMode | internal/provider/codex_appserver.go:446-463 | the dispatch mode after each line |
| CodexLines.TaskOutcome | internal/provider/codex_appserver.go:758-771 | the turn that task_complete completes fails with an error reported before, or returns the text recorded so far |
| CodexLines.AbortOutcome | internal/provider/codex_appserver.go:765-766 | the turn that turn_aborted completes returns that it was aborted |
| CodexLines.CompletedOutcome | internal/provider/codex_appserver.go:486-506 | what a turn returns for each status of its turn/completed line |
| CodexLines.ErrorOutcome | internal/provider/codex_appserver.go:508-517 | a final error fails the turn with its first error |
| CodexLines.AnswerOutcome | internal/provider/codex_appserver.go:533-541 | a final answer is the text of the turn it completes, unless an error came before |
| CodexLines.TurnEnds | internal/provider/codex_appserver.go:733-772 | over every run of a turn: it ends as a failed request, as timed out or with a verdict if and only if the request failed, its context ended or it received a completion |
| CodexConn.Connection.SetTurnErr | internal/provider/codex_appserver.go:666-672 | keeps the first error |
| CodexConn.Connection.SignalTurn | internal/provider/codex_appserver.go:680-694 | the flag is set once; the completion goes to the installed channel or nowhere |
| CodexConn.Connection.RecordAgentMessage | internal/provider/codex_appserver.go:251-270 | a final answer replaces the output even by nothing, another text replaces the fallback if not empty |
| CodexConn.Connection.SlackFacingText | internal/provider/codex_appserver.go:272-291 | returns the selected text |
| CodexConn.Connection.HandleLegacy | internal/provider/codex_appserver.go:466-479 | the three legacy message types; task_complete puts a finished and turn_aborted an aborted completion in a waiting turn's channel |
| CodexConn.Connection.OnTurnCompleted | internal/provider/codex_appserver.go:486-506 | error first, repeated ids ignored, then the signal |
| CodexConn.Connection.HandleRaw | internal/provider/codex_appserver.go:481-543 | foreign threads ignored, then completed, error and item lines |
| CodexConn.Connection.HandleNotification | internal/provider/codex_appserver.go:438-464 | mode switch and dispatch |
| CodexConn.Connection.BeginTurn | internal/provider/codex_appserver.go:697 | the first statement is the machine's beginning of a turn |
| CodexConn.Connection.Prepare | internal/provider/codex_appserver.go:698-731 | each of the six statements up to the request is the machine's step |
| CodexConn.Connection.HandleLines | internal/provider/codex_appserver.go:438-464 | the reader's lines one after the other |
| CodexConn.Connection.OpenTurn | internal/provider/codex_appserver.go:697-731 | with any lines handled before each statement, the object arrives at the request in the state of the machine's run of these lines and statements |
| CodexConn.Connection.ConcludeTurn | internal/provider/codex_appserver.go:758-771 | clears the channel and gives the verdict |
| InFlight.RemoveInPlace | internal/provider/cursor_stream.go:112-122 | the splicing loop removes the first entry with the id and no other |
| InFlight.RemoveLatest | internal/provider/codex_appserver.go:579-586 | removing the oldest entry of an id leaves, of that id, the latest starts of a balance lowered by one, in start order |
| InFlight.LatestCount | internal/provider/codex_appserver.go:579-586 | the list holds each id as often as its clamped balance of starts and completions |
| InFlight.InListIff | internal/provider/cursor_stream.go:85-89 | a start is in the list exactly if fewer later starts bear its id than that balance |
| CodexPhase.DisplayIsTop | internal/provider/codex_appserver.go:587-599 | after every event the last emitted status is the top of the stack, and idle exactly if it is empty |
| CodexPhase.StackIsInFlight | internal/provider/codex_appserver.go:545-586 | the stack is the list of items in flight, in start order, with exact counts |
| CodexPhase.EmitsIff | internal/provider/codex_appserver.go:545-600 | exactly which events announce a status, always the top of the stack after the event |
| CodexPhase.PhaseStack.Reset | internal/provider/codex_appserver.go:707-716 | a turn starts with an empty stack and its callback, and ends without one |
| CodexPhase.PhaseStack.Started | internal/provider/codex_appserver.go:545-565 | pushes and emits an item that has an id; does nothing without a callback |
| CodexPhase.PhaseStack.Completed | internal/provider/codex_appserver.go:567-600 | removes the first item with the id and emits the new top or idle; does nothing without a callback |
| CursorPhase.IdleIffAtRest | internal/provider/cursor_stream.go:87-108 | idle or nothing is on display exactly if no tool is active and no thought is open, after every event sequence |
| CursorPhase.EmissionIsCurrent | internal/provider/cursor_stream.go:85-108 | a tool is announced only while it is the most recently started active one, idle only at rest |
| CursorPhase.EmitsIff | internal/provider/cursor_stream.go:65-110 | exactly which lines announce a status, and which announce thinking |
| CursorPhase.ActiveIsInFlight | internal/provider/cursor_stream.go:79-89 | the active list is the start-ordered list of calls in flight with exact counts |
| CursorPhase.DisplayExact | internal/provider/cursor_stream.go:65-110 | which kind of status is on display after every event sequence, and that a displayed tool is the most recent active one if any is active |
| CursorPhase.StaleToolIff | internal/provider/cursor_stream.go:87-94 | a tool is on display with none active if and only if a thought is open and a tool was displayed since it opened |
| CursorPhase.StaleThoughtIff | internal/provider/cursor_stream.go:96-108 | a thought that is over is on display if and only if a tool is active and none has started or completed since it opened |
| CursorPhase.StaleTool | internal/provider/cursor_stream.go:87-94 | an event sequence with the first |
| CursorPhase.StaleThought | internal/provider/cursor_stream.go:96-108 | an event sequence with the second |
| CursorPhase.StreamPhaseTracker.RemoveActiveTool | internal/provider/cursor_stream.go:112-122 | removes the first call with a non-empty id |
| CursorPhase.StreamPhaseTracker.OnStreamLine | internal/provider/cursor_stream.go:65-110 | updates the tracker and emits as the five kinds of line demand; does nothing without a callback |
| CursorStream.ReadStream | internal/provider/cursor_stream.go:160-209 | the reply is the last assistant segment unless blank, else the last result's text; failing line, scan error and missing result are told apart, and the assistant text read so far comes with each |
| CursorStream.JoinedConcat | internal/provider/cursor_stream.go:179-184 | the assistant text read is the lines' text in order |
| CursorStream.ReplyIs | internal/provider/cursor_stream.go:171-208 | the reply in terms of the last line with assistant text and the last result line |
| CursorStream.SessionIs | internal/provider/cursor_stream.go:196-200 | the session id is that of the last result line that names one |
| CursorStream.OneOutcome | internal/provider/cursor_stream.go:192-208 | a stream justifies one outcome only, and which kind it is |
| CursorStream.FirstFailure | internal/provider/cursor_stream.go:189-194 | the failure reported is that of the first failing line |
| CursorStream.BlankSegmentFallsBack | internal/provider/cursor_stream.go:171-208 | a blank last segment hides earlier ones |
| Search.JoinSplit | internal/slackmrkdwn/format.go:108 | joining the parts of a split gives the text back |
| Placeholders.DecInjective | internal/slackmrkdwn/format.go:91 | decimal numbers are injective |
| Placeholders.DecValue | internal/slackmrkdwn/format.go:91 | and read back give the number |
| Placeholders.BodyInjective | internal/slackmrkdwn/format.go:47-57 | two placeholders are equal exactly if kind and number are |
| Placeholders.ReplaceIsHoleIff | internal/slackmrkdwn/format.go:46-58 | first-match replacement fills the first hole of that name if and only if no literal between two holes before it is that name |
| Placeholders.FalseMatch | internal/slackmrkdwn/format.go:46-58 | such a literal is replaced together with the NULs around it |
| Placeholders.ReplaceIsHole | internal/slackmrkdwn/format.go:46-58 | in a text without such literals it fills the first hole of that name, or changes nothing if there is none |
| Placeholders.SubstReplace | internal/slackmrkdwn/format.go:50-53 | filling one hole and then the others is filling all at once |
| Restoring.StepText | internal/slackmrkdwn/format.go:46-58 | one replacement on any text with holes, a mistaken match included, exactly: which literals and holes it leaves |
| Restoring.StepScars | internal/slackmrkdwn/format.go:46-58 | a mistaken match leaves a hole that holds part of a value, and no later replacement takes it away |
| Restoring.RestoreText | internal/slackmrkdwn/format.go:45-58 | a whole restore loop on any text with holes, mistaken matches included |
| Restoring.RestoreIsSubst | internal/slackmrkdwn/format.go:45-58 | a restore loop is one simultaneous substitution, in whatever order the placeholders stand, if and only if at no number a literal is taken for the placeholder |
| Restoring.RestoredOrScarred | internal/slackmrkdwn/format.go:45-58 | otherwise the result holds a NUL and part of a value between two of them |
| Restoring.MisreadIsMistaken | internal/slackmrkdwn/format.go:45-58 | a literal is mistaken in the partly filled text if and only if, read over the text before the loop, it stands between two holes not filled yet, or inside a value put in before, and no hole of that name comes earlier |
| Extraction.ExtractCodeBlocks | internal/slackmrkdwn/format.go:107-128 | the loop returns every part between two fences and the text with numbered placeholders, repeating the last part after an odd fence; fewer than two fences change nothing |
| Extraction.ExtractInlineCodes | internal/slackmrkdwn/format.go:130-156 | the character scanner returns every part between an opening and a closing backtick, and puts an unpaired one back |
| Extraction.RestoreLoop | internal/slackmrkdwn/format.go:50-53 | performs the replacements in number order |
| Extraction.InlineRoundTrip | internal/slackmrkdwn/format.go:50-53 | inline extraction followed by its restore loop is the identity on every NUL-free text |
| Extraction.FenceRoundTrip | internal/slackmrkdwn/format.go:55-58 | fence extraction followed by its restore loop is the identity if and only if there are fewer than three fences or an even number; otherwise it appends two fences and the last segment |
| Placeholders.TextInjective | internal/slackmrkdwn/format.go:15-61 | a NUL-clean text determines its literals and placeholders |
| DocExtraction.SplitDocTexts | internal/slackmrkdwn/format.go:108 | splitting at a separator that shares no character with the placeholders, backticks or a line break, never cuts one: the parts are texts with holes |
| CodeParts.FenceTexts | internal/slackmrkdwn/format.go:107-128 | fence extraction on texts with holes is fence extraction on their characters |
| CodeParts.FenceHoles | internal/slackmrkdwn/format.go:107-128 | neither text nor blocks hold a placeholder more often than before, odd fence included |
| CodeParts.InlineTexts | internal/slackmrkdwn/format.go:130-156 | the same for inline code |
| CodeParts.InlineHoles | internal/slackmrkdwn/format.go:130-156 | text and inline code share the earlier placeholders out between them |
| CodeParts.HolesAfter | internal/slackmrkdwn/format.go:50-58 | a restore loop trades each placeholder for those inside its value |
| CodeParts.CodesBack | internal/slackmrkdwn/format.go:50-58 | filling the placeholders with the wrapped codes restores the text they were cut from, nested placeholders included |
| CodeExtraction.BlocksTaken | internal/slackmrkdwn/format.go:107-128 | for two fences or more the blocks are the second, fourth, ... part of the text cut at its fences, and what is left is the others with one numbered placeholder for each block; an odd last fence stays, with the last part again |
| CodeExtraction.FencesLeft | internal/slackmrkdwn/format.go:107-128 | what is left holds no fence, or one if their number was odd |
| CodeExtraction.CodesTaken | internal/slackmrkdwn/format.go:130-156 | the inline codes are the second, fourth, ... part of the text cut at its backticks, an unpaired last one aside, and what is left is the others with one numbered placeholder for each |
| CodeExtraction.TicksLeft | internal/slackmrkdwn/format.go:130-156 | what is left holds no backtick, or one if their number was odd |
| CodeExtraction.PartsFree | internal/slackmrkdwn/format.go:108 | no part of a split holds the separator |
| CodeExtraction.ProtectedCode | internal/slackmrkdwn/format.go:23-28 | both in the pipeline: everything between two fences, then everything between two remaining backticks, is kept from the rewriting |
| Escape.EscapeIsOnePass | internal/slackmrkdwn/format.go:81-86 | the three sequential replacements equal a one-pass character map |
| Escape.EscapeInvertible | internal/slackmrkdwn/format.go:81-86 | the escaping can be undone and leaves no angle bracket |
| Escape.EscapeWeave | internal/slackmrkdwn/format.go:23-25 | escaping the text with token placeholders is escaping its literals |
| Mrkdwn.ToMrkdwn | internal/slackmrkdwn/format.go:22-60 | the pipeline with an arbitrary rewriting in the middle, against its specification on strings |
| Mrkdwn.EscapePlain | internal/slackmrkdwn/format.go:81-86 | escaping creates nothing that reads like the inside of a placeholder |
| Mrkdwn.StageTexts | internal/slackmrkdwn/format.go:23-28 | what the program extracts, stage by stage, is what the texts with holes say |
| Mrkdwn.BodyCounts | internal/slackmrkdwn/format.go:23-28 | how often each placeholder stands at each stage |
| MrkdwnTheorems.UnchangedIsKept | internal/slackmrkdwn/format.go:28-45 | rewriting nothing keeps every placeholder, for every input |
| MrkdwnTheorems.RestoredText | internal/slackmrkdwn/format.go:45-58 | the three loops on any text with holes, whatever it says, mistaken matches included |
| MrkdwnTheorems.JointProtection | internal/slackmrkdwn/format.go:15-61 | for every rewriting that keeps each placeholder once, in any order: the output is the rewritten text with every placeholder filled if and only if no literal is ever mistaken for one, and it has no NUL if and only if besides no token stands in code |
| MrkdwnTheorems.FilledAtOnce | internal/slackmrkdwn/format.go:45-58 | the three substitutions are one simultaneous substitution |
| MrkdwnTheorems.ValuesVerbatim | internal/slackmrkdwn/format.go:45-58 | it puts back each token, each inline code and each block verbatim, blocks inside inline code too |
| MrkdwnTheorems.LeftOver | internal/slackmrkdwn/format.go:45-58 | what stays unfilled is exactly the placeholders of tokens in code, as often as they were there |
| MrkdwnTheorems.SmoothIsNeverMistaken | internal/slackmrkdwn/format.go:45-58 | the condition on the text before the loops holds if and only if no loop ever mistakes a literal at the moment it comes to a number |
| MrkdwnTheorems.SafeIsNeverMistaken | internal/slackmrkdwn/format.go:45-58 | nothing is mistaken if no whole literal between two placeholders, in the text or its code, is the inside of one |
| MrkdwnTheorems.StrictInput | internal/slackmrkdwn/format.go:15-61 | nor in any input in which nothing begins like the inside of a placeholder |
| MrkdwnTheorems.JointRoundTrip | internal/slackmrkdwn/format.go:15-61 | with no rewriting the result is the escaped text with its tokens if and only if the fences pair, no token stands in code and nothing is mistaken |
| MrkdwnWitnesses.PlainProseIsInput | internal/slackmrkdwn/format.go:15-61 | a text without backticks and tokens meets all conditions, whatever it says about placeholders |
| MrkdwnWitnesses.BetweenCodes | internal/slackmrkdwn/format.go:15-61 | so does a text between two inline codes, without a token, and it comes back: ST0, IC0 or IC1 there do no harm |
| MrkdwnWitnesses.TokenLeftInCode | internal/slackmrkdwn/format.go:46-53 | a token between backticks comes out as a raw placeholder |
| MrkdwnWitnesses.TextTakenForToken | internal/slackmrkdwn/format.go:22-60 | the text ST0 between two codes with a token behind meets every condition but the one on mistakes: both codes are lost and the token comes out between the remains of their placeholders |
| MrkdwnTables.TablesKeepIff | internal/slackmrkdwn/format.go:158-195 | the table conversion keeps every placeholder of a text if and only if no line that counts as a separator holds one |
| MrkdwnTables.TablesKeep | internal/slackmrkdwn/format.go:158-195 | so if separators are free of NUL, what the rewriting has kept before the table conversion is kept after it |
| TableFences.ConvertTables | internal/slackmrkdwn/format.go:158-193 | the loop with its buffered rows and final flush, against a description run by run |
| TableFences.OnlySeparatorsLost | internal/slackmrkdwn/format.go:158-193 | without the added fences the output is the input minus its separators, in order |
| TableFences.TablesAreFenced | internal/slackmrkdwn/format.go:158-193 | fences open and close in turn and are never nested; every kept row is inside a pair, every other line outside |
| TableFences.OnePairPerTable | internal/slackmrkdwn/format.go:176-192 | each table gets one pair, even without rows, except separators alone at the end of the text |
| TableFences.TextWithoutTables | internal/slackmrkdwn/format.go:158-195 | a text without tables is unchanged |
| AgentsMd.ReplaceRegion | internal/workspace/slack_runtime_context.go:76-95 | a replacement on a document with one region overwrites what is between the markers and no other byte |
| AgentsMd.AllReplacements | internal/workspace/slack_runtime_context.go:76-95 | any sequence of replacements succeeds; the last text stands in the region and the residues of earlier ones behind it |
| AgentsMd.LastWriteWins | internal/workspace/slack_runtime_context.go:76-95 | a sequence equals its last replacement alone if and only if no earlier text contains the end marker |
| AgentsMd.FreshWorkspace | internal/workspace/workspace.go:30-67 | both for the file as a new workspace has it, with any marker-free prefix and any suffix |
| AgentsMd.SectionReplaced | internal/workspace/slack_runtime_context.go:63-95 | replacing the text of a section gives the section as it would have been written with the new text |
| AgentsMd.SucceedsIff | internal/workspace/slack_runtime_context.go:82-91 | a replacement succeeds if and only if the first end marker stands behind the first start marker and a line ends behind that, and which error it gives otherwise |
| AgentsMd.KeepsOnceIff | internal/workspace/slack_runtime_context.go:82-93 | the output of a successful replacement is the old text with the new one in place of some stretch of it if and only if the end marker is not on the start marker's line; otherwise the rest of that line is there twice and the file grows by more than the new text |
| AgentsMd.EndOnStartLine | internal/workspace/slack_runtime_context.go:82-93 | a document with both markers on one line, and what its replacement gives |
| Dedupe.Deduper.Look | internal/messagefilter/filter.go:163-177 | the sweeping loop drops exactly the expired entries; a hit changes nothing else, a miss records the time |
| Dedupe.SweepingRefinesHistory | internal/messagefilter/filter.go:163-177 | with a clock that does not go back the swept map answers every sequence of look-ups as the full list of recordings would |
| Dedupe.FreshStart | internal/messagefilter/filter.go:159-177 | in particular from the empty map |
| Dedupe.ClockMustNotGoBack | internal/messagefilter/filter.go:167-171 | with a clock that goes back it does not |
| MessageFilter.Filter.ShouldProcess | internal/messagefilter/filter.go:83-151 | drop rules, three duplicate checks in order, access rules |
| MessageFilter.Filter.Admit | internal/messagefilter/filter.go:118-150 | the nested access branches equal the flat rules |
| MessageFilter.AcceptedApart | internal/messagefilter/filter.go:100-111 | over any run two accepted messages that share a key are looked up more than the time to live apart |
| MessageFilter.RepeatsAreApart | internal/messagefilter/filter.go:100-111 | in terms of messages: equal event id, equal client id, or equal channel and trimmed time stamp |
| DuplicateRule.EveryDecision | internal/messagefilter/filter.go:84-151 | over every run with a clock that does not go back, the decision on every message: dropped, or a duplicate if and only if an earlier message with the same event id, client id or post was recorded within the time to live, in this order, or else up to the access rules alone |
| DuplicateRule.FreshIsDecidedByPolicy | internal/messagefilter/filter.go:100-151 | a message that shares nothing with earlier ones is never taken for a duplicate |
| DuplicateRule.MessageKeyEqualIff | internal/messagefilter/filter.go:107 | two messages look up the same key if and only if channel and trimmed time stamp agree, or a colon in one channel id makes up for the difference |
| DuplicateRule.ColonFreeKeys | internal/messagefilter/filter.go:107 | without colons in the channel ids only the former |
| DuplicateRule.DroppedIff | internal/messagefilter/filter.go:84-98 | exactly which messages are dropped unseen, under which reason |
| DuplicateRule.AdmittedIff | internal/messagefilter/filter.go:118-150 | exactly who is admitted |
| DuplicateRule.ReasonIff | internal/messagefilter/filter.go:118-150 | and each reason exactly when |
| DuplicateRule.MentionsIff | internal/messagefilter/filter.go:72-80 | a mention is the user's trimmed id between "<@" and ">" or a bar, anywhere in the text |
| Transcript.CollectReplies | internal/slackthread/transcript.go:19-53 | the loop terminates for every server and returns the first messages of the fetched pages, or the first error |
| Transcript.FetchesThread | internal/slackthread/transcript.go:25-48 | against a server that pages through a thread, the fetched pages are a prefix of it, as long as wanted or the whole |
| Transcript.CollectsTheThread | internal/slackthread/transcript.go:19-53 | however the thread is cut into pages, the result is its first messages, as many as wanted |
| Transcript.BatchBounds | internal/slackthread/transcript.go:26-29 | a request asks for what is missing, but for no more than 200 messages |
| Transcript.CandidatesAre | internal/slackthread/transcript.go:88-94 | the lines are those of the messages that are not the trigger and have text, all of them and in order |
| Transcript.TranscriptExcluding | internal/slackthread/transcript.go:77-103 | the output is the longest prefix of non-trigger, non-empty lines within the budget, then the marker if a line is missing |
| Transcript.OutputLength | internal/slackthread/transcript.go:95-102 | the exact length of the output |
| Transcript.OutputBound | internal/slackthread/transcript.go:95-102 | the output keeps to the budget if and only if all lines fit or the marker fits into what the kept lines leave; it is never longer than budget plus marker; the marker is there if and only if the lines do not all fit |
| Transcript.ExceedsBudget | internal/slackthread/transcript.go:95-102 | an input whose output is longer than its budget by the whole marker |
| Transcript.OnlyOneFits | internal/slackthread/transcript.go:95-100 | there is only one such prefix, so the output is determined |
| Utf8.Trim | internal/acp/client.go:87-90 | the trimming loop keeps the longest valid prefix within the limit |
| Utf8.TruncateUTF8 | internal/acp/client.go:79-91 | nothing, all, or the longest valid prefix with the suffix |
| Utf8.TruncateUTF8Cursor | internal/provider/cursor_stream.go:243-255 | the same without the suffix |
| Utf8.OneLongest | internal/provider/cursor_stream.go:250-254 | both copies keep the same bytes |
| Utf8.LosesAtMostThree | internal/acp/client.go:87-90 | cutting a valid text loses at most three bytes of the limit and never splits a character |
| Utf8.ThreeCanBeLost | internal/acp/client.go:87-90 | three bytes can be lost |
| Utf8.CutIsValid | internal/acp/client.go:87-90 | whatever was cut, the text with its suffix is valid |
| Utf8.ValidIff | internal/acp/client.go:88 | a byte sequence is valid if and only if it is the encoding of a sequence of Unicode scalar values |
| Utf8.CharIsEncoded | internal/acp/client.go:88 | each well-formed character is the encoding of one scalar value |

## Left out

- Process launch, pipes, kill and stderr draining, the pre-session hook, workspace creation and file access: only success or failure is modelled.
- Slack Web API and Socket Mode, HTTP handlers and the proxy with its access rules: network plumbing over libraries that are not part of this model.
- JSON decoding and encoding: events are taken as decoded. Server requests and plain notifications of the ACP client do not touch the request table.
- Go's regular expressions: token matches, HTML-to-Markdown rewriting and the link, bold, strike and header rewrites are an arbitrary function that keeps each placeholder (shown for the table loop by `MrkdwnTables`); table and separator lines are an arbitrary classification.
- The idle timer's duration: once armed it may fire at any moment, and a `Stop` that comes too late is not modelled because the old timer's channel is no longer read.
- Wrap-around of request ids: ids are unbounded integers, the program's are 64-bit.
- `completedTurns` is read by the reader and cleared by `runTurn` without a lock; the model interleaves whole statements and does not show a data race.
- CursorStream.ReadStream: trace logging and the embedded status tracker are separate; the tracker is module CursorPhase.
- Transcript.TranscriptExcluding: works on formatted lines; the wording of a line and of the marker is a parameter.
- AgentsMd.ReplaceRegion: reading and writing the file can fail in the program; the model is the function from old to new text.
- MrkdwnTheorems.JointProtection: for texts without NUL characters, which the program's placeholders take for granted; a text with NULs could spell a placeholder itself.
- Prompt and document text, status-line wording, configuration, argument filtering and path sanitising: plain formatting or library semantics.
