# TitleTrust backend: a verified model

TitleTrust's backend is built around a handful of state machines whose promises only make sense over
whole runs: an audit agent that works through gated phases in persisted steps, a realtime broadcaster
with bounded buffers, a hash-linked audit trail written by concurrent appenders, workers that share a
queue behind circuit breakers, rotating refresh tokens, three sliding-window rate limiters and
rotating device secrets. This project models them in Dafny and proves what they keep.

Run it with `dafny verify dfyconfig.toml`.

## How the model is built

Where the backend changes an object in place, the model has a class with the same fields, and each of
its methods is proved equal to a step function on values; loops of the backend are loops of the
methods. Theorems about whole runs are lemmas about sequences of those steps, for every sequence and
every interleaving. What the outside world answers (vision, search, stores, clocks, random draws) is
an argument of the step, so the theorems hold for every answer.

| Files | What they model |
|---|---|
| `MarathonState`, `MarathonStep`, `MarathonLoop`, `SessionService`, `RecordQueries`, `Text` | the agent's stored state, one step of it, the object that works in place, and bootstrap, tick and retry |
| `MarathonTheorems`, `MarathonBudget`, `MarathonRuns` | evidence, forced decisions, the step budget, absorbing states, and concrete runs that complete |
| `MarathonTable`, `SessionTicks` | what each way a step can go stores, field by field, and the automatic chain of ticks through what the service schedules |
| `MarathonNames` | for which object names the guarantees hold, and what happens for the others |
| `EventStore`, `Hub`, `HubDelivery`, `Broadcaster` | replay scans, the broadcaster as interleaved steps, which subscriber gets and misses what, and its objects |
| `Decimal`, `AuditChain`, `AuditLog`, `AuditTamper` | document ids, concurrent appenders, what the store holds after their writes, what a head hash commits to |
| `CircuitBreaker`, `JobSteps`, `JobCluster`, `JobLaws`, `WorkerRuntime` | the breaker, one job, many workers on one queue, what decides a job's end and a breaker's state, one worker's objects |
| `TokenStore`, `TokenSecrets`, `SessionSecurity`, `TokenFamilies`, `SessionChains` | token and session documents, when a rotation is granted and to whom, the services on them, and their runs |
| `Windows`, `ForensicRateLimiter`, `GeminiCapacity`, `RateLimitStore` | the three rate limiters over a log of every stamp |
| `DeviceSessionDoc`, `DeviceSessions` | the merge-updated device-session document and its services |

## Assumptions

- A successful vision or search result carries a trace id of at least eight characters and a 64-digit
  hash, as the tools construct them, and the error text of a failed image analysis does not contain
  "Image Analysis:" (`Trustworthy` in `MarathonTheorems`). `MarathonNames.MarkedErrorCompletesUnbacked`
  shows that the second half is needed.
- SHA-256 and AES-GCM are idealised as injective constructors for tokens and device secrets; the audit
  trail works with an arbitrary hash function, and where a hash collision would matter the theorem
  says which two entries collide.
- Clocks do not run backwards and a sleep lasts at least as long as it was asked to.
- Identifiers drawn at random have not been drawn before (`DrawnFresh` in `TokenFamilies`).
- Stored values read back as they were written. The repositories stamp some fields with the server's
  time (`backend/repositories/session_repository.py:34-44`) where the state declares a float
  (`backend/agent/marathon_loop.py:64`), and token expiry is compared with a naive local time
  (`backend/repositories/token_repository.py:118-123`); what a store with timezone-aware timestamps
  does to those reads is not modelled.
- Store writes succeed; one token rotation, one audit commit and one publish are atomic.

## Where the code and its own documentation disagree

The model follows the code.

- `backend/tests/test_rate_limit.py:10-12` expects 1, 1, 0 from three hits with a limit of two. The
  store answers 1, 0, 0, because it answers 0 both for the hit that fills the window and for a refusal
  (`RateLimitStore.ThreeHitsAtOnce`, `RateLimitStore.RemainingIsExact`). A limit of one lets nobody
  through.
- `backend/tests/test_device_session_service.py:6-47` rotates a stored secret of a document without
  `user_id` and `organization_id`. The service refuses that as an ownership mismatch
  (`DeviceSessions.DeviceSessionService.UpsertSession`).
- The agent takes a document for analysed as soon as any memory line contains "Image Analysis:"
  (`backend/agent/marathon_loop.py:831`), and the first line quotes the object's name
  (`backend/services/session_service.py:114`), which ends in the caller's own file name
  (`backend/services/cloud_storage_service.py:78-82`). A file named `Image Analysis: deed.pdf` skips the
  image phase and all gates behind it, and can be COMPLETED without evidence in one step. The
  guarantees of the audit hold exactly for names without the marker: see `MarathonNames`.
- The forensic limiter promises at most `max_calls` calls per period
  (`backend/forensic_engine.py:188-195`). It clears its list after sleeping, so up to
  `2 * max_calls - 1` calls fit a window, and the promise holds exactly for `max_calls <= 1`.
- The replay branch of token rotation (`backend/services/session_security_service.py:188-198`) is
  unreachable: a verified token is active. Presenting a used token is refused, but its family is not
  revoked.
- A session saved as FLAGGED from step 14 on is overwritten by the step-budget branch, which may turn
  it into COMPLETED and erase its findings (`backend/agent/marathon_loop.py:757-809`). It does so exactly
  from step 14 on (`MarathonBudget.FlaggedSurvivesTickExactlyUpToStep13`), and
  `MarathonRuns.DisputeCanBeErased` is a run from an uploaded document that gets there.
- A session stored as WAITING_FOR_USER that is ticked again can be driven on by the service while it is
  still stored as waiting: an inspection without provenance reports RUNNING and saves the old status
  (`backend/agent/marathon_loop.py:893-896`). `SessionTicks.WaitingIsDrivenOn` is such a session;
  `SessionTicks.ReportedIsStored` says that waiting and sleeping sessions are the only ones for which
  the reported and the stored status part. The chain that starts at an upload never gets there.
- The continuity branch for transcripts without conversion hints
  (`backend/agent/marathon_loop.py:591-598`) is never taken, because the transcript repeats the
  queries and one of them contains the word.
- The attempt count in a dead letter is one less than the number of handler runs
  (`backend/workers/runtime.py:453`).
- A worker's breaker that has opened never recovers inside the worker, although the breaker alone
  does.
- The replay buffer holds more events than a subscriber's queue, so resuming from far back keeps only
  the oldest part of the replay (`Hub.ReplayFitsOrIsCut`).
- Without a queue a deferred job is not kept anywhere. `WorkerRuntime.InlineJobIsLostExactlyWhen` says
  exactly which calls lose their job, and `WorkerRuntime.InlineJobIsLost` is one of them.
- Revoking a device session that was never stored blocks it for good
  (`DeviceSessionDoc.RevokedBeforeStoredIsBlocked`).

## Model

| member | source | states |
|---|---|---|
| MarathonTheorems.CompletedHasAllEvidence | backend/agent/marathon_loop.py:730-1315 | for an object name without the marker, after any sequence of bootstraps, ticks and retries a COMPLETED document session holds valid evidence for image, title, boundary, additional records, zoning and historical chain |
| MarathonNames.CompletionIsBackedExactlyWhen | backend/agent/marathon_loop.py:829-832 | COMPLETED implies the six checks over all runs of an upload if and only if image analysis is on and the object's name is not empty and lacks the marker (or the agent gives up before its first decision) |
| MarathonNames.StagedExactlyWhen | backend/agent/marathon_loop.py:829-832 | all stored states are staged and backed under exactly the same condition |
| MarathonNames.ModelIsIdleExactlyWhen | backend/agent/marathon_loop.py:829-832 | the language model never decides anything under exactly the same condition |
| MarathonNames.GoodAnswersSufficeExactlyWhen | backend/agent/marathon_loop.py:829-832 | good answers complete a session with all six checks in four ticks exactly for those names, given an agent that gets to a decision |
| MarathonNames.MarkedNameCompletesUnbacked | backend/services/session_service.py:114 | a file named "Image Analysis: deed.pdf" is COMPLETED with no evidence after one tick |
| MarathonNames.MarkedErrorCompletesUnbacked | backend/agent/marathon_loop.py:856-857 | for every error text with the marker a failed image analysis followed by one tick ends COMPLETED with no evidence |
| MarathonNames.MarkedNameIsNeverAnalyzed | backend/agent/marathon_loop.py:829-862 | without a plain name no run ever records the image as analysed, whatever the outside answers |
| MarathonState.MarkedLines | backend/agent/marathon_loop.py:843-857 | the marker test on a memory line comes down to the object's name or the error text alone |
| MarathonTheorems.EvidenceIsStaged | backend/agent/marathon_loop.py:113-138 | for such a name every stored state holds one of exactly five evidence sets, and every checklist item but location_checked is backed by a valid record |
| MarathonNames.WithoutHistoryNeverCompletes | backend/agent/marathon_loop.py:548-612 | for every name, once everything but the historical chain is recorded, no later run adds it or completes the session |
| MarathonTheorems.ModelIsNeverConsulted | backend/agent/marathon_loop.py:674-728 | for a name without the marker, from any reachable state of a document session a step ends the same whatever the language model would have answered |
| MarathonTheorems.DecisionIsForced | backend/agent/marathon_loop.py:641-672 | behind Step 5 the action history always looks stuck, so the step finishes with all six checks and waits for the user without them |
| MarathonTheorems.StepKeepsInvariant | backend/agent/marathon_loop.py:735-1315 | one step keeps the evidence invariant and moves between the evidence sets in one direction only |
| MarathonTheorems.RecordsRegistered | backend/agent/marathon_loop.py:558-612 | a finished record scan registers all checks but the historical chain, and that one exactly when the continuity search has provenance |
| MarathonTheorems.RecordChecksKeepConsistent | backend/agent/marathon_loop.py:509-612 | Step 5 never raises on signed answers and leaves one of three evidence sets, or FAILED on a legal dispute |
| MarathonTheorems.FinishedScan | backend/agent/marathon_loop.py:515-576 | five answered queries always yield zoning evidence, a valid joined trace and a transcript that calls for the continuity search |
| MarathonTheorems.ServeKeepsInvariant | backend/services/session_service.py:180-296 | every bootstrap, tick and retry, failed audits included, keeps the invariant |
| MarathonBudget.StepWithinBudget | backend/agent/marathon_loop.py:735-825 | below the budget a step counts itself exactly when it is saved, only appends findings, and completes only without a HIGH finding |
| MarathonBudget.RunningIsCounted | backend/agent/marathon_loop.py:1269-1315 | a step that returns RUNNING has stored one step more and is below the budget |
| MarathonBudget.ChainFitsBudget | backend/agent/marathon_loop.py:735-825 | steps that follow one another as long as the step reports RUNNING are at most the remaining budget, whatever is answered; `SessionTicks.ChainGoesOnWhileRunning` is the same for what the service schedules |
| MarathonBudget.FreshChainMakesAtMostFifteenSteps | backend/services/session_service.py:96-147 | from a fresh session that is at most fifteen steps |
| MarathonBudget.CompletedIsAbsorbing | backend/services/session_service.py:228-291 | COMPLETED and its evidence survive every sequence of ticks and retries |
| MarathonBudget.FlaggedSurvivesTickExactlyUpToStep13 | backend/agent/marathon_loop.py:757-814 | FLAGGED survives a tick if and only if it was saved at step 13 or earlier, and what replaces it later |
| MarathonBudget.FlaggedIsAbsorbingUpToStep13 | backend/services/session_service.py:228-291 | up to step 13 no sequence of ticks and retries changes a flagged session at all |
| MarathonBudget.RunIsLater | backend/agent/marathon_loop.py:735-1315 | over any run steps are never uncounted, findings below the budget are never lost, completion excludes HIGH findings |
| MarathonBudget.HighFindingBlocksCompletion | backend/agent/marathon_loop.py:1214-1246 | a HIGH finding keeps the session from being COMPLETED in every later state stored below the budget |
| MarathonRuns.GoodAnswersComplete | backend/agent/marathon_loop.py:730-1315 | COMPLETED is reached: for every name without the marker and whatever the title and the good answers, four ticks of a fresh session complete it with all six checks |
| MarathonRuns.DisputeCanBeErased | backend/agent/marathon_loop.py:757-809 | a run of an uploaded document is FLAGGED at step 14 with a HIGH finding, and one more tick leaves it COMPLETED with that finding gone |
| MarathonRuns.RecordsStep | backend/agent/marathon_loop.py:509-612 | five answered searches without a dispute and an answered continuity search take a session from two checks to all six in one step |
| MarathonRuns.DisputeStep | backend/agent/marathon_loop.py:539-542 | a disputed Gazette answer fails the session with a HIGH finding and leaves its evidence as it was |
| MarathonRuns.FinishStep | backend/agent/marathon_loop.py:1214-1246 | with all six checks a step ends FLAGGED exactly with a HIGH finding and COMPLETED without |
| MarathonTable.BoundaryDecides | backend/agent/marathon_loop.py:898-917 | with a signed view of the parcel a step stores FLAGGED with one boundary finding more and no further tick if and only if the discrepancy is HIGH, and RUNNING with the findings as they were otherwise; the view is recorded either way |
| MarathonTable.BoundaryWithoutView | backend/agent/marathon_loop.py:875-896 | without coordinates the session waits for a pin; an exception or a bad signature counts a retry; an answer without provenance is tried again |
| MarathonTable.ImageOnlyFlagsExactlyOnHigh | backend/agent/marathon_loop.py:871-917 | a session on the way whose only evidence is the image is stored FLAGGED with that finding exactly on a HIGH discrepancy and RUNNING exactly without |
| MarathonTable.HighDiscrepancyIsNeverCompleted | backend/agent/marathon_loop.py:911-916 | over every run of every upload, a session whose boundary step saw a HIGH discrepancy is COMPLETED in no later state stored below the step budget |
| MarathonTable.ImageDecides | backend/agent/marathon_loop.py:829-864 | what the image phase stores for an inaccessible source, a failed analysis, an answer without provenance and a signed one |
| MarathonTable.RecordsDecide | backend/agent/marathon_loop.py:509-612 | with five calm searches the record checks get the traces and digests of their own searches, the searches enter the history in order, and an unverified conversion is a finding exactly if an answer mentions one and the continuity answer does not mention the new register |
| MarathonTable.RecordsCutShort | backend/agent/marathon_loop.py:511-546 | Step 5 cut short at any search: no title, no answer, or a disputed Gazette answer, with the searches made so far in the history |
| MarathonTable.OnlyExceptionsCountRetries | backend/agent/marathon_loop.py:1284-1315 | of all ends of the image, boundary and record phases only an exception counts a retry |
| MarathonTable.RepeatingDecides | backend/agent/marathon_loop.py:641-672 | a session that used one tool three times finishes with the five record checks, FLAGGED exactly with a HIGH finding, and waits for the user without them, whatever the model says |
| MarathonTable.NoDecisionRetries | backend/agent/marathon_loop.py:1039-1049 | a model that does not decide costs a retry, FAILED at the limit, and an unparsed reply is counted |
| MarathonTable.SearchDecides | backend/agent/marathon_loop.py:1097-1166 | the search tool skips exactly what was searched within the last five actions, and registers the title exactly for a signed answer to a search about it |
| MarathonTable.TitleWordsAreSeen | backend/agent/marathon_loop.py:1136 | each of the four words makes a search one about the title, in any surroundings and in any case |
| MarathonTable.SatelliteDecides | backend/agent/marathon_loop.py:1167-1213 | the satellite tool flags exactly on a HIGH discrepancy whose signature is not rejected, and only a signed view is evidence |
| MarathonTable.PlainToolsDecide | backend/agent/marathon_loop.py:1060-1265 | what finishing, waiting, escalating, a new image analysis and an unknown tool store |
| MarathonTable.BudgetDecides | backend/agent/marathon_loop.py:756-809 | from step 14 on the session is COMPLETED with the five checks on record and WAITING_FOR_USER otherwise, whatever it was |
| SessionTicks.ReportedIsStored | backend/agent/marathon_loop.py:735-1315 | a step reports the status it stores, unless the session was stored as waiting or sleeping and a phase reports RUNNING |
| SessionTicks.ChainGoesOnWhileRunning | backend/services/session_service.py:180-246 | the bootstrap of an upload and the ticks the service schedules after it make at most fifteen requests; every session stored on the way is RUNNING, and with the agent ready and the audit written the chain goes on exactly while the stored session is RUNNING |
| SessionTicks.TickServesStep | backend/services/session_service.py:228-246 | an owner's tick stores what the step saved and schedules the next one exactly on RUNNING |
| SessionTicks.BootstrapServesStep | backend/services/session_service.py:180-226 | a bootstrap schedules the first tick exactly on RUNNING, and leaves the session FAILED when the agent or the audit fails |
| SessionTicks.StrangersChangeNothing | backend/services/session_service.py:228-296 | a request from anybody but the owner, or for no session, changes nothing and schedules nothing |
| SessionTicks.RetryReopensExactly | backend/services/session_service.py:265-296 | a retry reopens exactly FAILED, WAITING_FOR_USER and QUEUED sessions, with one more retry counted, and schedules a tick |
| SessionTicks.WaitingIsDrivenOn | backend/agent/marathon_loop.py:893-896 | a session stored as waiting is ticked, stays stored as waiting, and the next tick is scheduled |
| RecordQueries.QueriesCoverMandatoryTopics | backend/agent/tools.py:404-420 | for every title, owner and county the query list holds a Gazette, a conversion and a zoning query |
| RecordQueries.TranscriptCallsForContinuity | backend/agent/marathon_loop.py:566-598 | one query about conversion makes the combined transcript call for the continuity search, whatever the answers say |
| RecordQueries.QueriesNameTheTitle | backend/agent/tools.py:404-420 | every one of the five queries names the title |
| RecordQueries.SignsAreSeen | backend/agent/marathon_loop.py:539-605 | each listed word is seen in any surroundings and in any case, as a dispute, a conversion, a sign of the new register, or a call for the continuity search |
| MarathonState.State.RegisterEvidence | backend/agent/marathon_loop.py:113-138 | evidence and checklist change together, and only for a valid trace id and hash |
| MarathonState.State.AddAction | backend/agent/marathon_loop.py:96-103 | appends one action and changes nothing else |
| MarathonLoop.Loop.AnalyzeImage | backend/agent/marathon_loop.py:830-864 | the image phase leaves and stores exactly the state of the step function, error paths included |
| MarathonLoop.Loop.InspectBoundary | backend/agent/marathon_loop.py:871-917 | the boundary phase with its pin, discrepancy and exception branches |
| MarathonLoop.Loop.EnterWaitingForManualPin | backend/agent/marathon_loop.py:431-445 | stores WAITING_FOR_USER and stops ticking |
| MarathonLoop.Loop.FailLegalDispute | backend/agent/marathon_loop.py:447-468 | stores FAILED with a legal-dispute finding |
| MarathonLoop.Loop.Flag | backend/agent/marathon_loop.py:614-633 | stores FLAGGED with a boundary finding |
| MarathonLoop.Loop.ScanQueries | backend/agent/marathon_loop.py:525-546 | the query loop computes the recursive scan, also when a missing provenance or a dispute cuts it short |
| MarathonLoop.Loop.RunContinuityCheck | backend/agent/marathon_loop.py:576-612 | the continuity search on both of its branches |
| MarathonLoop.Loop.RunStep5RecordChecks | backend/agent/marathon_loop.py:509-612 | Step 5 as a whole, with its early returns |
| MarathonLoop.Loop.Decide | backend/agent/marathon_loop.py:635-728 | forced decision when stuck, otherwise the model's reply with its counters |
| MarathonLoop.Loop.Search | backend/agent/marathon_loop.py:1097-1166 | the search tool with its duplicate check |
| MarathonLoop.Loop.InspectSatelliteImage | backend/agent/marathon_loop.py:1167-1213 | the satellite tool and its flagging |
| MarathonLoop.Loop.Conclude | backend/agent/marathon_loop.py:1214-1246 | finishing flags the session exactly when it is flagged or has a HIGH finding |
| MarathonLoop.Loop.Execute | backend/agent/marathon_loop.py:1077-1267 | every tool of a decision |
| MarathonLoop.Loop.RunDecision | backend/agent/marathon_loop.py:1039-1283 | decision failures count retries, successful actions reset them |
| MarathonLoop.Loop.EnforceBudget | backend/agent/marathon_loop.py:757-809 | the budget branch and what it overwrites |
| MarathonLoop.Loop.SettleSignal | backend/agent/marathon_loop.py:1284-1315 | what is stored after an exception, and the retry limit |
| MarathonLoop.Loop.RunSingleStep | backend/agent/marathon_loop.py:730-1315 | the whole step on the object stores and returns exactly what the step function says |
| SessionService.Service.Create | backend/services/session_service.py:96-147 | the initial state of an uploaded document, with the object's name quoted in the first memory line |
| SessionService.Service.Bootstrap | backend/services/session_service.py:180-226 | what is stored and whether a tick is scheduled, failed agent and failed audit included |
| SessionService.Service.Tick | backend/services/session_service.py:228-246 | answer, stored state and scheduling of a tick |
| SessionService.Service.Retry | backend/services/session_service.py:265-296 | which states may be retried and what a retry resets |
| EventStore.InMemoryEventStore.Append | backend/realtime/store.py:34-37 | the buffer stays the newest part of everything appended |
| EventStore.InMemoryEventStore.Replay | backend/realtime/store.py:39-50 | replay returns the newest entries, or exactly the suffix after the first match |
| EventStore.StreamReplay | backend/realtime/store.py:81-111 | the stream scan returns exactly the suffix after the first entry that matches by stream id or event id |
| EventStore.AfterFirstSplit | backend/realtime/store.py:92-111 | the suffix both scans compute is what follows the first matching entry |
| Hub.DeliveryIsInOrderWithoutDuplicates | backend/realtime/broadcaster.py:215-227 | under any interleaving consumed plus queued events are an in-order duplicate-free subsequence of the fanout log |
| Hub.ResumeIsExact | backend/realtime/broadcaster.py:229-306 | a subscriber resuming after a buffered event, none of whose events a full queue refused, gets exactly the log after that event, no gap and no duplicate at the seam |
| Hub.ReplayFitsOrIsCut | backend/realtime/broadcaster.py:300-306 | the replay arrives whole if and only if it fits the queue; otherwise its newest events are lost |
| Hub.MissedIsNeverDelivered | backend/realtime/broadcaster.py:215-227 | what a full queue refused is never delivered later |
| Hub.SequenceGapsAreRefusals | backend/realtime/broadcaster.py:316-388 | numbers rise per session and one is missing from the log exactly when its event was refused as oversized |
| Hub.RunKeepsGood | backend/realtime/broadcaster.py:215-411 | the invariant behind these facts over every run of publish, register, unregister, prune and consume |
| HubDelivery.PublishReachesExactly | backend/realtime/broadcaster.py:215-227 | an accepted event enters the queue of every active subscriber with room and of no other, at the end, with the next number of its session, and refreshes exactly those; a refused one reaches nobody |
| HubDelivery.RegisteredWithRoomGetsEverything | backend/realtime/broadcaster.py:229-306 | over any run, a subscriber whose replay fits its queue, whose queue has room before every publish, and that is still subscribed, has consumed or queued exactly the log from the start of its replay |
| HubDelivery.ResumedWithRoomGetsEverything | backend/realtime/broadcaster.py:229-306 | so one that resumes after an event of the buffer has exactly the log after that event |
| HubDelivery.MissedExactlyWhenFull | backend/realtime/broadcaster.py:215-227 | over any run, an event fanned out while a subscriber is active is missing from everything it ever gets if and only if its queue was at capacity at that publish |
| HubDelivery.ConsumeTakesTheOldest | backend/api/realtime_router.py:38 | a reader takes the oldest queued event and nobody else notices |
| HubDelivery.RegisterAdds | backend/realtime/broadcaster.py:229-306 | a registration adds one active subscriber with the replay up to capacity and changes nobody else |
| HubDelivery.UnregisterRemovesExactly | backend/realtime/broadcaster.py:308-314 | leaving removes one subscriber and keeps all queues |
| HubDelivery.PruneRemovesExactly | backend/realtime/broadcaster.py:401-412 | pruning removes exactly the subscribers whose last activity is before the cutoff |
| Broadcaster.Subscriber.Offer | backend/realtime/broadcaster.py:215-227 | a put succeeds unless the queue is full, and only then refreshes the activity stamp |
| Broadcaster.Broadcaster.FanoutRaw | backend/realtime/broadcaster.py:215-227 | buffer and every active queue get the event in one step |
| Broadcaster.Broadcaster.ReplayAfter | backend/realtime/broadcaster.py:278-297 | the scan with its found flag returns the suffix after the first match |
| Broadcaster.Broadcaster.Prefill | backend/realtime/broadcaster.py:300-306 | the new queue takes the replay in order until it is full |
| Broadcaster.Broadcaster.Register | backend/realtime/broadcaster.py:229-306 | replay and registration are one step of the hub |
| Broadcaster.Broadcaster.Unregister | backend/realtime/broadcaster.py:308-314 | leaving keeps the queue's content and everybody else |
| Broadcaster.Broadcaster.Publish | backend/realtime/broadcaster.py:316-388 | numbering, size check, storing and fanout of one event, and what is rejected |
| Broadcaster.Broadcaster.PruneInactive | backend/realtime/broadcaster.py:401-411 | exactly the subscribers inactive since the cutoff leave |
| AuditChain.ChainsNeverFork | backend/repositories/audit_event_repository.py:30-63 | any number of appenders with stale reads leave per session the sequences 1..n, one document each, linked hash by hash |
| AuditChain.WriteSucceedsExactlyWhenFresh | backend/repositories/audit_event_repository.py:48-63 | a commit succeeds if and only if the entry it was built on is still the last one |
| AuditChain.WrittenStays | backend/repositories/audit_event_repository.py:48-63 | nothing written is changed or removed by any later run |
| AuditLog.WriteStoresExactlyWhenFresh | backend/repositories/audit_event_repository.py:30-63 | a write whose read is still the latest adds exactly one entry with the caller's event, the next sequence and the former head's hash; a stale one leaves the store as it was |
| AuditLog.LoneAppendIsStored | backend/repositories/audit_event_repository.py:21-65 | reading and writing with nothing in between always stores the entry |
| AuditLog.StoreIsTheAcceptedWrites | backend/repositories/audit_event_repository.py:21-65 | for any interleaving a session's entries are exactly the events of its fresh writes, in the order of acceptance |
| AuditLog.ExportListsAccepted | backend/repositories/audit_event_repository.py:30-63 | the export has one entry per accepted write and lists their payloads in order |
| AuditChain.DocumentIdInjective | backend/repositories/audit_event_repository.py:48-50 | the document id determines session and sequence, also for session ids with hyphens and numbers beyond six digits |
| AuditChain.AuditEventRepository.Append | backend/repositories/audit_event_repository.py:21-65 | one append creates the successor of the entry it read or is refused without effect |
| AuditTamper.PreimageDecodes | backend/repositories/audit_event_repository.py:39-46 | with colon-free session, type, actor and hash fields the hashed text determines every field, payload included |
| AuditTamper.HeadHashCommitsToChain | backend/repositories/audit_event_repository.py:35-46 | two valid chains with one head hash have the same length and content, or an entry of one and an entry of the other are two different texts with one hash |
| AuditTamper.ExportIsValid | backend/repositories/audit_event_repository.py:30-63 | the chain read from a store of appended entries is valid in that sense |
| AuditTamper.ColonsMakeItAmbiguous | backend/repositories/audit_event_repository.py:39-46 | with colons allowed two different events share their hashed text |
| CircuitBreaker.InterleavedCallsKeepGood | backend/infrastructure/resilience.py:109-185 | under interleaved calls CLOSED means fewer failures than the threshold and conversely, admitted calls are all accounted for, HALF_OPEN is entered at most once per recovery timeout |
| CircuitBreaker.OpenBreakerRecovers | backend/infrastructure/resilience.py:132-185 | after the timeout an open breaker admits calls at any times, counts their successes while HALF_OPEN, and is CLOSED from the successThreshold-th on, unless one fails |
| CircuitBreaker.FailedTrialReopens | backend/infrastructure/resilience.py:144-185 | a failure before that opens it again and it admits nothing for a full timeout from then on |
| CircuitBreaker.ClosedCountsStreak | backend/infrastructure/resilience.py:132-163 | a closed breaker counts the failures since the last success and keeps the time of the last one |
| CircuitBreaker.OpensExactlyOnTheStreak | backend/infrastructure/resilience.py:132-163 | it opens exactly when that many failures in a row reach the threshold, for a full timeout |
| CircuitBreaker.OpenRefusesExactlyForItsTimeout | backend/infrastructure/resilience.py:109-170 | however the calls in flight end, an open breaker admits nothing until its timeout has passed since it opened, and the first call after that |
| CircuitBreaker.ClosingForgets | backend/infrastructure/resilience.py:172-178 | a trial that closes the breaker leaves it as new but for the totals |
| CircuitBreaker.Breaker.Call | backend/infrastructure/resilience.py:75-107 | a call is admitted exactly when not open or due for a trial, and how its end is recorded |
| CircuitBreaker.Breaker.RecordSuccess | backend/infrastructure/resilience.py:132-142 | state and counters after a success in each state |
| CircuitBreaker.Breaker.RecordFailure | backend/infrastructure/resilience.py:144-163 | state and counters after a failure, excluded ones without effect |
| CircuitBreaker.Breaker.OpenCircuit | backend/infrastructure/resilience.py:165-170 | opening stamps the change only on a real change |
| CircuitBreaker.Breaker.CloseCircuit | backend/infrastructure/resilience.py:172-178 | closing forgets failures and successes |
| JobCluster.JobsAreConserved | backend/workers/runtime.py:263-500 | whatever the workers interleave, each submitted job is once in the queue, in one worker's hands, or finished |
| JobCluster.HandlerRunsStayInBudget | backend/workers/runtime.py:372-476 | a job's handler runs at most max(1, max_retries) times, deferrals included; a dead letter that is no poison pill has used them up and records one attempt less |
| JobCluster.OpenBreakerIsForever | backend/workers/runtime.py:294-332 | once open, a worker's breaker for a job type never changes and no handler of that type runs on that worker again |
| JobLaws.TheRunsDecideTheEnd | backend/workers/runtime.py:324-476 | whatever the interleaving, a job is COMPLETED exactly if its last handler run succeeded and a dead letter exactly if that run failed and was a poison pill or used up the budget; it is marked as a poison pill exactly if that run was one, and all earlier runs were plain failures within the budget |
| JobLaws.CancelledJobRunsNoMore | backend/workers/runtime.py:274-292 | once its marker is set no worker starts the handler of a job again |
| JobLaws.BeginDecides | backend/workers/runtime.py:274-312 | a marked job is cancelled, one behind an open breaker is deferred with its attempts unchanged, every other one starts |
| JobLaws.QueueIsFirstInFirstOut | backend/queues/redis_queue.py:69-81 | jobs leave the queue in the order they entered it, retried and deferred ones included |
| JobLaws.BreakerOpensAfterFiveInARow | backend/workers/runtime.py:314-332 | the breaker of a worker for a job type is open if and only if the last five runs of that type at that worker failed |
| JobLaws.InlineRunsDecideTheEnd | backend/workers/runtime.py:372-433 | without a queue, too, the handler runs of the one call decide how the job ends |
| WorkerRuntime.GaugeIsRestored | backend/workers/runtime.py:304-370 | the active-jobs gauge is back at its value after any inline recursion |
| WorkerRuntime.InlineJobIsSettled | backend/workers/runtime.py:372-433 | without a queue one call ends the job, never CANCELLED, and runs its handler at most as often as the retry budget left allows |
| WorkerRuntime.InlineJobIsLostExactlyWhen | backend/workers/runtime.py:294-302 | without a queue a job ends deferred and held by nothing if and only if its breaker is open or the coming plain failures open it within the retry budget; otherwise it ends finished |
| WorkerRuntime.InlineJobIsLost | backend/workers/runtime.py:478-500 | with three retries and three failures already counted, two plain failures of a fresh job lose it |
| WorkerRuntime.ProcessIsThreeClusterSteps | backend/workers/runtime.py:263-500 | the worker's method refines three steps of the interleaving model |
| WorkerRuntime.Worker.ProcessJob | backend/workers/runtime.py:263-370 | cancel check, breaker check, handler, failure path and gauge on the real objects, with the recursion's termination |
| WorkerRuntime.Worker.HandleJobFailure | backend/workers/runtime.py:372-433 | retry, inline recursion or dead letter |
| WorkerRuntime.Worker.DeferJob | backend/workers/runtime.py:478-500 | a deferred job goes back to the queue unchanged |
| WorkerRuntime.Worker.PollOnce | backend/workers/runtime.py:520-548 | one turn of the worker loop processes exactly the oldest queued job |
| WorkerRuntime.RedisQueue.Enqueue | backend/queues/redis_queue.py:69-71 | appends to the tail, and fails without effect when there is no client |
| WorkerRuntime.RedisQueue.Pop | backend/queues/redis_queue.py:73-81 | takes from the head, nothing when empty or disabled |
| TokenFamilies.FamiliesAreLinear | backend/services/session_security_service.py:170-265 | over any run, foreign sessions included, a family's generations are 1..n, each one token, and an active token is the newest |
| TokenFamilies.TokensAreOneTime | backend/repositories/token_repository.py:105-123 | along any run no token is used up by two successful rotations |
| TokenSecrets.RotationIsGrantedExactlyWhen | backend/repositories/token_repository.py:77-145 | a rotation is granted if and only if the token is stored with the hash of the presented secret, is active, has not expired, and the session exists |
| TokenSecrets.GrantedSecretsWereHandedOut | backend/services/session_security_service.py:149-275 | along any run a granted rotation presents exactly the secret that was handed out with that token, at most seven days after that |
| TokenSecrets.RotationStores | backend/services/session_security_service.py:200-265 | the old token is used up, the new one has the new secret, the next generation and a full lifetime, and nothing else changes |
| TokenSecrets.RevokingASessionSilences | backend/services/session_security_service.py:277-330 | exactly the active tokens of the session's family are revoked and the session is marked |
| TokenSecrets.LogoutSilencesTheUser | backend/services/session_security_service.py:332-381 | exactly the user's sessions are marked, and exactly the active tokens in the families of the live ones are revoked |
| TokenFamilies.ReplayIsRefusedWithoutRevocation | backend/services/session_security_service.py:170-198 | a rotated token presented again is refused and changes nothing |
| TokenFamilies.RevokedFamiliesStaySilent | backend/services/session_security_service.py:277-374 | once a session is revoked by any route, no later run makes a token of its family acceptable |
| TokenFamilies.LimitKeepsTheNewest | backend/services/session_security_service.py:407-436 | after enforcing the limit exactly the newest sessions live, at most max_sessions of them |
| SessionChains.SessionListsItsFamily | backend/services/session_security_service.py:200-265 | if tokens are presented with their own sessions, previous tokens plus the current one are the whole family in the order of generations 1..n, and only the current one may be active |
| SessionChains.RotationKeepsListsExactlyWhenOwn | backend/services/session_security_service.py:200-265 | a successful rotation keeps that if and only if the token belongs to the session it is presented with |
| SessionSecurity.TokenRepository.StoreToken | backend/repositories/token_repository.py:44-75 | stores the hash, never the secret |
| SessionSecurity.TokenRepository.VerifyAndGetToken | backend/repositories/token_repository.py:77-145 | only existing, matching, active and unexpired tokens are returned |
| SessionSecurity.TokenRepository.Rotate | backend/repositories/token_repository.py:147-199 | the old token is marked, the new one stored, all others stay |
| SessionSecurity.TokenRepository.Revoke | backend/repositories/token_repository.py:201-230 | one token revoked, whatever its status |
| SessionSecurity.TokenRepository.RevokeTokenFamily | backend/repositories/token_repository.py:232-278 | the loop revokes exactly the active tokens of the family and counts them |
| SessionSecurity.SessionSecurityService.Create | backend/services/session_security_service.py:48-147 | session and first token of a new family |
| SessionSecurity.SessionSecurityService.Rotate | backend/services/session_security_service.py:149-275 | one rotation, with proof that the replay branch cannot be reached |
| SessionSecurity.SessionSecurityService.Revoke | backend/services/session_security_service.py:277-330 | the session is marked and its family silenced |
| SessionSecurity.SessionSecurityService.Logout | backend/services/session_security_service.py:332-381 | the loop over a user's live sessions revokes all of them at once, in any order, and counts them |
| SessionSecurity.SessionSecurityService.EnforceConcurrentSessionLimit | backend/services/session_security_service.py:407-436 | the loop revokes the oldest sessions beyond the limit |
| TokenStore.LogoutOneMore | backend/services/session_security_service.py:345-374 | revoking sessions one by one adds up to revoking the set, which is why the order does not matter |
| ForensicRateLimiter.CallsAreLimited | backend/forensic_engine.py:203-223 | at most 2 * max_calls - 1 calls fall into any window (t - period, t], whatever the calls and oversleeping |
| ForensicRateLimiter.BoundIsReached | backend/forensic_engine.py:203-223 | for every setting there is a run that reaches that bound |
| ForensicRateLimiter.LimitIsKeptExactlyForOne | backend/forensic_engine.py:185-201 | the documented bound of max_calls holds for all runs if and only if max_calls is at most one |
| ForensicRateLimiter.SleepsExactlyWhenFull | backend/forensic_engine.py:203-223 | a call sleeps exactly if max_calls stamps of the list lie within the period |
| ForensicRateLimiter.RateLimiter.Acquire | backend/forensic_engine.py:203-223 | prune, sleep, clear and record in place, and the failure with no calls allowed |
| GeminiCapacity.GrantsAreLimited | backend/core/gemini_api_manager.py:67-82 | all threads together are granted at most max_calls calls in any window (t - period, t] |
| GeminiCapacity.GrantedExactlyWhenRoom | backend/core/gemini_api_manager.py:71-78 | an attempt is granted if and only if the window that ends now has room |
| GeminiCapacity.OneSleepIsEnough | backend/core/gemini_api_manager.py:79-82 | after the computed sleep the next attempt is granted unless another thread came between |
| GeminiCapacity.SleepLastsUntilRoom | backend/core/gemini_api_manager.py:79 | over any run the computed sleep lasts exactly until the oldest of the last max_calls granted calls leaves the window, and at least ten milliseconds |
| GeminiCapacity.OnlyGrantsAreRecorded | backend/core/gemini_api_manager.py:75-77 | an attempt is recorded, with its own time, exactly if it is granted |
| GeminiCapacity.GeminiApiManager.TryCapacity | backend/core/gemini_api_manager.py:69-79 | the purge loop and the locked part of one attempt |
| GeminiCapacity.GeminiApiManager.AwaitCapacity | backend/core/gemini_api_manager.py:67-82 | the endless loop ends after at most one sleep when nobody competes, and when |
| RateLimitStore.HitsAreLimited | backend/infrastructure/rate_limit_store.py:16-25 | any closed window holds at most limit recorded hits and at most limit - 1 that the middleware lets through |
| RateLimitStore.RemainingIsExact | backend/middleware/rate_limit.py:35-43 | the answer is the room left in the closed window that ends now less one, so a request passes if and only if fewer than limit - 1 hits are in it |
| RateLimitStore.ThreeHitsAtOnce | backend/infrastructure/rate_limit_store.py:16-25 | three hits at once with a limit of two are answered 1, 0, 0 |
| RateLimitStore.KeysAreIndependent | backend/infrastructure/rate_limit_store.py:16-20 | a key's deque depends on that key's requests alone |
| RateLimitStore.InMemoryRateLimitStore.Hit | backend/infrastructure/rate_limit_store.py:16-25 | the purge loop and the answer, leaving other keys alone |
| DeviceSessionDoc.AcceptedAreNewestTwo | backend/services/device_session_service.py:23-88 | for any history the accepted secrets are the last two different neighbours since the last revocation, and the version is one plus the number of changes over all epochs |
| DeviceSessionDoc.UpsertIsStoredExactlyForTheOwner | backend/services/device_session_service.py:31-35 | an upsert takes effect if and only if it comes from the owner the history determines and has a secret |
| DeviceSessionDoc.RevokedBeforeStoredIsBlocked | backend/repositories/device_session_repository.py:26-39 | a session revoked before it was stored accepts no secret ever after |
| DeviceSessionDoc.RunRefines | backend/repositories/device_session_repository.py:17-39 | owner, version, revocation mark, fingerprint and ciphertexts of the merged document follow from the history |
| DeviceSessionDoc.FingerprintsAlwaysMatch | backend/services/device_session_service.py:36-66 | over any history each stored fingerprint is that of the ciphertext stored beside it |
| DeviceSessionDoc.UpsertStores | backend/services/device_session_service.py:36-66 | an accepted upsert stores its own ciphertext, and keeps the one it replaces exactly if the secret is another one |
| DeviceSessions.DeviceSessionRepository.Set | backend/repositories/device_session_repository.py:17-24 | a merging write changes the named fields of one document |
| DeviceSessions.DeviceSessionRepository.RevokeSession | backend/repositories/device_session_repository.py:26-39 | revocation deletes the secret fields, keeps the version and changes the owner |
| DeviceSessions.DeviceSessionService.UpsertSession | backend/services/device_session_service.py:23-66 | the three refusals leave everything as it was; otherwise the field-by-field payload is the upsert of the document |
| DeviceSessions.DeviceSessionService.GetRequestSigningSecrets | backend/services/device_session_service.py:74-88 | the loop returns the current and then the previous secret, as far as stored |

## Left out

- MarathonLoop.Loop.RunSingleStep: concurrent ticks on one session are not modelled; the code loads and saves without a guard, so steps are taken one after the other.
- MarathonTheorems.CompletedHasAllEvidence: holds for image analysis switched on and object names without the marker; MarathonNames.CompletionIsBackedExactlyWhen says that it holds for no others.
- Text extraction from memory lines: the case context is an input. Of the memory lines' texts only those are kept that can decide the search for "Image Analysis:"; all others are fixed texts without it or are written when that search is over.
- Text.Lower: lower-casing and stripping are modelled for ASCII.
- Prompts, findings' wording, evidence-backed flags, the stored pin coordinates, notifications and telemetry carry no property.
- Broadcaster.Broadcaster.Publish: Redis Pub/Sub, the Redis stream fanout and publishing from background threads are not modelled; the listener repeats an instance's own messages, so delivery is not exactly-once there.
- Hub.DeliveryIsInOrderWithoutDuplicates: the shutdown event that stopping the broadcaster puts straight into the queues (backend/realtime/broadcaster.py:131-137) is not modelled; it is the one event that is not in the fanout log.
- EventStore.StreamReplay: stored payloads that are not JSON are not modelled.
- Hub.RunKeepsGood: the per-connection counter used as the stream id is not modelled; the last event id is the event's own id.
- WorkerRuntime.Worker.ProcessJob: worker crashes, backoff delays, the direct status write of cancelling a job, the expiry of cancel marks and repeated pushes after a Redis retry are not modelled; the poison detector's verdict is an input.
- CircuitBreaker.Breaker.Call: each entry and each ending reads the clock once.
- SessionSecurity.SessionSecurityService.Rotate: two rotations of one token at the same time, failed batches and the cleanup of expired tokens are not modelled; device, address and risk fields carry no property.
- TokenFamilies.LimitKeepsTheNewest: the ordered query's answer is an input that must list the live sessions oldest first.
- RateLimitStore.HitsAreLimited: limit and window are fixed for one key over the run, and the stamps are nondecreasing although the clock is read before the lock; the Redis store is not modelled, it keeps whole seconds as set members and so does not count requests.
- GeminiCapacity.GeminiApiManager.AwaitCapacity: with competing threads a caller may sleep again; only the uncontended loop is shown to end. The cache and the semaphore around it are not modelled.
- DeviceSessions.DeviceSessionService.UpsertSession: device, platform and app version fields carry no property; ciphertexts that fail to decrypt are not modelled.
- Policy evaluation, role tables, redaction, timeouts, secret caching, routers and the Flutter application: they would only add easy members.
