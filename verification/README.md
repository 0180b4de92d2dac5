# Verified model of the sales-conversation platform's core

This project models, in Dafny, the stateful protocols and the algorithms at the heart of the platform,
and proves what they keep over every input, every run and every interleaving. `dafny verify dfyconfig.toml`
checks everything.

Protocols are transition systems: each database transaction, each dispatch and each critical section is
one atomic step, and steps of all actors interleave freely. Where the program changes objects in place, a
class with the same fields and methods is proved to perform those steps. The two workers are proved under
every script of failures, delays and concurrent enqueues that the world may choose, and the token endpoint
under every choice of delays. Ghost histories (dispatches, sends, answers) say what an outside observer sees.

| Files | Part of the program |
|---|---|
| `OutboxTable`, `OutboxProtocol`, `OutboxSafety`, `OutboxStrays`, `OutboxContent`, `OutboxRetries`, `OutboxOrder`, `OutboxOverlap`, `CrmWorker` | CRM outbox, dead letters and sync worker |
| `OutboundQueue`, `OutboundRuns`, `OutboundSafety`, `OutboundContent`, `OutboundTally`, `OutboundTruth`, `CampaignWorkers` | outbound message queue and campaign worker |
| `Batching` | the claim of both queues: least due rows, up to a limit |
| `Debounce` | per-phone debounce of inbound messages |
| `Fsm`, `Keywords`, `Replay` | conversation state machine, keyword inference, live path and replay |
| `Words`, `WordPacking`, `DocumentText`, `NormalForm`, `SlidingWindow` | chunking of knowledge documents |
| `RepetitionGuard` | Jaccard repetition guard |
| `Numerals`, `CsvRow` | amounts in messages, rows of the dashboard's CSV import |
| `MondaySync`, `StageLadder` | incremental column sync and stage ladder of the CRM board |
| `LoginLockout`, `LoginRuns`, `LoginBound`, `LoginGate`, `TokenIssuer` | login lockout, its promise, the token endpoint |

## What the proofs brought to light

- A retry that collides with a newer pending row of its key is rejected by the unique index. The exception
  leaves the batch, and that row and all rows of the batch behind it stay in processing for good
  (`OutboxSafety.CollisionStrandsTheQueue` with `OutboxSafety.SettledIsForever`). A whole run strands no row
  exactly when no step cuts a worker's run short: by the process dying, by the repository failing inside the
  except block, or by such a collision (`OutboxStrays.FreshRunStrandsIff`).
- Dispatch order per key rests on the scheduler running one CRM job at a time; two open runs can send an older
  payload after a newer one (`OutboxOrder.OverlappingRunsCanGoBackwards`). What matters is that no claim takes a
  row of a key that an open run may still dispatch. That is enough for any number of workers
  (`OutboxOrder.ClearClaimsNeverGoBackwards`), and it is exact claim by claim: from a state in order, a claim keeps
  to this if and only if no run that keeps to it from there on dispatches an older payload after a newer one
  (`OutboxOverlap.ClaimIsHarmlessIff`). An item behind one whose retry collides does not count: it is never
  reached (`OutboxOrder.BlockedStays`).
- A campaign item whose "mark as sent" fails ends up failed although it was delivered
  (`OutboundTally.FailedMarkHidesADelivery`). No failed row was delivered exactly when no step marked a delivered
  item as failed (`OutboundTruth.FailedIsUndeliveredIff`), which takes a mark as sent that raised before
  (`OutboundTruth.FailedWasNotDelivered`). Every delivered row gets marked as sent exactly when no mark fails and
  no worker stops between delivery and mark (`OutboundTruth.SentIsDeliveredIff`).
- An action that fails leaves the machine's state as it was, but the actions before it are not undone
  (`Fsm.FSMEngine.ProcessEvent`).
- Replay reads keywords inside words, the live path whole words only: "trabajar" replays as the opt-out "baja"
  (`Keywords.ReplayCanSayMore`). Replay also knows nothing of unsupported messages and campaign replies;
  `Keywords.WhenReplayDiffers` gives the exact condition under which the two read a message differently. A
  message whose media could not be processed is replayed although the live path never ran the machine on it;
  `Replay.FailedMediaIsReplayed` says exactly when the states then part.
- A single separator followed by three digits is always read as a thousands separator, so grouping plus a
  three-digit decimal part of a number below one thousand does not read back
  (`Numerals.FractionRoundTripIff` gives the exact condition).
- A column that is new to a non-empty snapshot and arrives blank is taken for unchanged and not sent
  (`MondaySync.IncrementalIsFullIff`, `MondaySync.AcceptedUpdate`); the optional-column fallback records columns
  the board may not show (`MondaySync.FallbackAgreesIff`).
- A phrase up to one character longer than the overlap is never cut by the sliding windows; one character more
  can be (`SlidingWindow.OverlapKeepsPhrasesWhole`, `SlidingWindow.LongerPhraseIsCut`). With an overlap of a
  whole window or more the loop does not end on a long text (`SlidingWindow.LoopEndsIff`).
- With k overlapping requests of one IP a lockout window can hold 4 + k failures, and never more
  (`LoginRuns.NoWindowHoldsMore`, `LoginBound.BoundIsAttained`). For sequential requests the per-minute gate is
  redundant as long as failures get recorded (`LoginGate.GateNeverRefuses`, `TokenIssuer.ServeInTurn`). With more than five failures in the
  window the reported wait, which counts from the oldest, can fall short; `LoginLockout.WaitFallsShortIff` says
  exactly when.
- `items[-0:]` is everything: a lookback of 0 compares with all messages (`RepetitionGuard.LastItems`).

## Model

| member | source | states |
|---|---|---|
| OutboxTable.EnqueueLeavesOneFreshPendingRow | adapters/storage/repositories/crm_outbox_repo.py:44-144 | After an enqueue the key has exactly one pending row; it carries the new payload with a clean retry state, keeps the creation time of the row it overwrites, and is due at once; no other row and no dead letter changed |
| OutboxTable.OldestRowsGoFirst | adapters/storage/repositories/crm_outbox_repo.py:149-163 | A claimed batch is in order of creation, and no due row left behind was created before one taken |
| OutboxTable.CrmOutboxRepository.EnqueueOperation | adapters/storage/repositories/crm_outbox_repo.py:54-83 | The upsert: one new pending row, or the key's pending row with new payload and reset retry state; returns that row |
| OutboxTable.CrmOutboxRepository.GetPendingBatch | adapters/storage/repositories/crm_outbox_repo.py:146-169 | Claims the oldest due pending rows up to the limit and puts exactly those in processing |
| OutboxTable.CrmOutboxRepository.MarkAsDone | adapters/storage/repositories/crm_outbox_repo.py:171-183 | The row becomes done with error and retry time cleared; a missing row changes nothing |
| OutboxTable.CrmOutboxRepository.MarkAsFailedWithRetry | adapters/storage/repositories/crm_outbox_repo.py:185-200 | Raises, with nothing changed, exactly when another pending row of the key exists; otherwise the row is pending again with its attempt count and retry time |
| OutboxTable.CrmOutboxRepository.MoveItemToDlq | adapters/storage/repositories/crm_outbox_repo.py:202-222 | One dead letter with the row's payload and the error is added, and the row becomes dlq |
| Batching.SelectBatch | adapters/storage/repositories/crm_outbox_repo.py:149-163 | Distinct due rows in order, as many as the limit allows, none left behind that ranks before one taken |
| OutboxProtocol.RunSnoc | core/services/crm_worker.py:27-63 | A run followed by a possible step is a run, also under the one-run-at-a-time schedule |
| OutboxSafety.StepKeepsSafe | adapters/storage/repositories/crm_outbox_repo.py:44-222 | Every step of every worker and every enqueue keeps: one pending row per key, one owner per queued row, dead letters matching dlq rows one to one, attempts in 0..2 |
| OutboxSafety.ReachableIsSafe | adapters/storage/models.py:156-165 | These hold in every reachable state for any number of workers |
| OutboxSafety.DoneAndDlqAreSettled | adapters/storage/repositories/crm_outbox_repo.py:171-222 | Rows in done or dlq belong to no worker's queue |
| OutboxSafety.SettledIsForever | adapters/storage/repositories/crm_outbox_repo.py:146-222 | A finished or ownerless row is frozen in every continuation: done and dlq are absorbing and nothing reclaims a stranded row |
| OutboxSafety.CollisionStrandsTheQueue | core/services/crm_worker.py:41-50 | A retry that meets a newer pending row ends the run with the table unchanged, and every row still queued stays in processing without an owner |
| OutboxStrays.StepStrandsIff | core/services/crm_worker.py:41-63 | From a state with every processing row in some queue, a step strands a row exactly when it ends a run early: process death, a repository error in the except block, or a rejected retry |
| OutboxStrays.RunStrandsIff | core/services/crm_worker.py:27-63 | A whole run of any number of workers leaves no row stranded in processing exactly when none of its steps does that |
| OutboxStrays.FreshRunStrandsIff | core/services/crm_worker.py:27-63 | The same from the empty tables on |
| OutboxContent.DispatchesAreTraced | core/services/crm_worker.py:33-38 | Over every run a dispatch carries exactly the key and payload of the enqueue call its version names |
| OutboxContent.StepKeepsTraced | adapters/storage/repositories/crm_outbox_repo.py:54-83 | Every step keeps rows and dispatches traceable to the enqueue calls |
| OutboxRetries.ReachableIsDisciplined | core/services/crm_worker.py:41-58 | Every run keeps the retry counters equal to the failed dispatches on record and the waits written into the rows |
| OutboxRetries.RetryBudget | core/services/crm_worker.py:41-58 | Over every run: at most three dispatches of one payload version, attempts in 0..2, a dlq row had exactly three dispatches, a pending row as many as its counter, a done row one to three |
| OutboxRetries.ThirdFailureIsDead | core/services/crm_worker.py:42-58 | A failure whose repository call goes through sends the row to the dead letters exactly when it was the third dispatch, whether or not a newer row of its key is pending, and back to pending otherwise |
| OutboxRetries.BackOffIsKept | core/services/crm_worker.py:43-50 | Two dispatches of one payload version are apart by at least five minutes times the earlier attempt's number |
| OutboxOrder.StepKeepsOrder | core/services/crm_worker.py:27-63 | Each step, of any number of workers, keeps everything that may still be dispatched for a key at least as new as what was dispatched, provided a claim takes no key that is live in an open run |
| OutboxOrder.ClearClaimsNeverGoBackwards | core/services/crm_worker.py:27-63 | For any number of workers, while every claim takes no key that is live in an open run, the versions dispatched for a key never decrease |
| OutboxOrder.BlockedStays | core/services/crm_worker.py:41-50 | A worker whose failed item meets a newer pending row on retry stays so until its run ends, while claims are clear |
| OutboxOrder.DispatchesNeverGoBackwards | infra/scheduler.py:80-86 | With one worker run at a time, and enqueues, failures, rejected retries and cut-short runs anywhere, the versions dispatched for a key never decrease |
| OutboxOrder.OverlappingRunsCanGoBackwards | core/services/crm_worker.py:27-63 | Without that schedule there is a run that dispatches an older payload after a newer one |
| OutboxOverlap.UnclearClaimCanGoBackwards | core/services/crm_worker.py:27-63 | From a state in order, a claim that takes a key live in an open run has a continuation, with clear claims only, that dispatches an older payload after a newer one |
| OutboxOverlap.ClaimIsHarmlessIff | core/services/crm_worker.py:27-63 | From a state in order, a claim takes no key live in an open run if and only if no continuation with clear claims dispatches an older payload after a newer one |
| OutboxOverlap.OrderedCannotGoBackwards | core/services/crm_worker.py:27-63 | From a state in order no run with clear claims goes backwards |
| OutboxOverlap.ReachableClaimIsHarmlessIff | core/services/crm_worker.py:27-63 | The same equivalence after every run from empty tables whose claims were clear |
| CrmWorker.CrmSyncWorker.Wait | core/services/crm_worker.py:28-39 | What others do during an await is a run of enqueues, exactly those of the script, and leaves every row that is not pending alone |
| CrmWorker.CrmSyncWorker.ProcessBatch | core/services/crm_worker.py:27-63 | Under every script a run of the protocol. Unless the claim raises, the batch is the oldest due rows at that moment, as many as the batch size allows; items are dispatched once each in order; a handled item is done when its dispatch and mark raise nothing, else pending below three attempts, else dlq; with no exception every claimed row is done; it raises exactly when the claim fails or part of the batch stays unhandled, and that part is left in processing |
| CrmWorker.CrmSyncWorker.ClaimAndProcess | core/services/crm_worker.py:28-63 | The same from the claim on: which rows are claimed and what becomes of each |
| CrmWorker.CrmSyncWorker.ClaimBatch | core/services/crm_worker.py:28-30 | Claims the least due rows for the limit and takes their contents along |
| CrmWorker.CrmSyncWorker.ProcessItem | core/services/crm_worker.py:31-63 | One turn of the loop: exactly one dispatch, of this item as it was claimed; the row is done when neither the dispatch nor the mark raises; after an exception it is pending with one attempt more and a wait, or dlq at the third; no other row changes except by enqueues |
| CrmWorker.CrmSyncWorker.TryItem | core/services/crm_worker.py:32-40 | The try block: one dispatch, then done unless an exception came, and which |
| CrmWorker.CrmSyncWorker.Attempt | core/services/crm_worker.py:33-38 | One dispatch of the item's payload is made, whether it raises or not |
| CrmWorker.CrmSyncWorker.Complete | core/services/crm_worker.py:39-40 | The item leaves processing as done unless the repository raises |
| CrmWorker.CrmSyncWorker.HandleFailure | core/services/crm_worker.py:41-63 | Retry below three attempts, dead letter otherwise; escapes exactly when the repository fails or a retry meets a newer pending row |
| CrmWorker.CrmSyncWorker.RetryOrBury | core/services/crm_worker.py:42-58 | The tables after the except block: untouched when it escapes, else the retry or the dead letter |
| CrmWorker.RunSchedule | infra/scheduler.py:80-86 | On a fresh table, however the world behaves over any number of batches: one pending row per key, matching dead letters, ordered and spaced dispatches, at most three per version; and batch by batch the oldest due rows are claimed and dealt with, all of them when nothing raises |
| OutboundQueue.UrgentRowsGoFirst | adapters/storage/repositories/outbound_queue_repo.py:76-85 | A due row that is left behind, or comes later in the batch, has no smaller priority number than a claimed one and, at equal priority, no earlier schedule |
| OutboundQueue.ShortBatchIsEverything | adapters/storage/repositories/outbound_queue_repo.py:76-85 | A batch below the limit is all due rows |
| OutboundQueue.OutboundQueueRepository.Enqueue | adapters/storage/repositories/outbound_queue_repo.py:45-72 | Appends one pending row with no attempts; raises with nothing changed exactly when the priority is neither 0 nor 1 or the lead has no profile |
| OutboundQueue.OutboundQueueRepository.GetNextBatch | adapters/storage/repositories/outbound_queue_repo.py:74-109 | Claims the least due rows by priority and schedule, puts exactly those in processing with one more attempt, and returns each with its payload and its lead's phone, if there is one |
| OutboundQueue.OutboundQueueRepository.MarkAsSent | adapters/storage/repositories/outbound_queue_repo.py:111-121 | The row becomes sent now with its error cleared; nothing else changes |
| OutboundQueue.OutboundQueueRepository.MarkAsFailed | adapters/storage/repositories/outbound_queue_repo.py:123-132 | The row becomes failed with the error; nothing else changes |
| OutboundRuns.PhoneIsFirstUsable | core/services/campaign_worker.py:114-126 | The phone is the first non-blank one of lead, "phone" and "to"; none exactly when all are blank or missing |
| OutboundRuns.DeliversIff | core/services/campaign_worker.py:52-67 | An item is sent exactly when its template renders to a non-empty text and a phone is found |
| OutboundSafety.StatusesMoveForward | adapters/storage/repositories/outbound_queue_repo.py:74-132 | Each step leaves a row as it is, or moves it from pending to processing with one more attempt, or from processing to sent or failed; settled rows never change |
| OutboundSafety.StepKeepsSafe | core/services/campaign_worker.py:48-84 | Every step of every worker keeps single ownership, one claim and at most one send per row, and sent rows delivered |
| OutboundSafety.ReachableIsSafe | core/services/campaign_worker.py:43-96 | In every run of any number of workers, whatever raises and whoever stops: each row is claimed at most once, sent at most once, held by one worker, and marked as sent only after delivery |
| OutboundContent.ReachableIsFaithful | core/services/campaign_worker.py:51-67 | Every message ever sent has a phone and carries the rendered, non-empty text of its own row |
| OutboundTally.TallyAddsUp | core/services/campaign_worker.py:85-96 | Sent and failed rows of a settled batch add up to the batch |
| OutboundTally.ReachableIsHonest | core/services/campaign_worker.py:47-84 | At every moment a run's counters equal the sent and failed rows among the items it has passed, all settled |
| OutboundTally.ResultsAddUp | core/services/campaign_worker.py:85-96 | Every completed run has processed = succeeded + failed, and these numbers stay true of its rows ever after |
| OutboundTally.FailedMarkHidesADelivery | core/services/campaign_worker.py:67-84 | When marking a delivered item as sent raises, the item ends up failed although it was delivered |
| OutboundTruth.FailedStaysTrueIff | core/services/campaign_worker.py:67-78 | One step ends "failed rows, and items about to fail, are undelivered" exactly when it is a mark as sent that raises |
| OutboundTruth.FailedWasNotDelivered | core/services/campaign_worker.py:43-96 | Over every run of any number of workers, whoever stops: while no mark as sent raises, no failed row was delivered |
| OutboundTruth.OneStepHidesIff | core/services/campaign_worker.py:76-78 | After a step failed rows are undelivered exactly when they were before it and it does not mark a delivered item as failed |
| OutboundTruth.FailedIsUndeliveredIff | core/services/campaign_worker.py:43-96 | Over every run, whoever stops: no failed row was delivered if and only if no step marked a delivered item as failed |
| OutboundTruth.StepLosesIff | core/services/campaign_worker.py:62-78 | One step leaves a delivery unrecorded exactly when the mark as sent raises or the worker stops before it |
| OutboundTruth.SentIsDeliveredIff | core/services/campaign_worker.py:43-96 | Over every run: each delivered row is marked as sent, or about to be, exactly when no step did that; a lost delivery stays lost |
| CampaignWorkers.CampaignWorker.Attempt | core/services/campaign_worker.py:50-66 | Rejects an item without phone or text, else makes exactly one send; an exception leads to the except block |
| CampaignWorkers.CampaignWorker.Complete | core/services/campaign_worker.py:67-68 | Marks as sent and counts a success, unless the repository raises |
| CampaignWorkers.CampaignWorker.HandleFailure | core/services/campaign_worker.py:76-78 | The except block marks as failed and counts a failure; a repository error there ends the run |
| CampaignWorkers.CampaignWorker.TryItem | core/services/campaign_worker.py:50-75 | The try block ends in a counted success, a counted failure or an exception, and makes one send exactly for an item with phone and text |
| CampaignWorkers.CampaignWorker.ProcessItem | core/services/campaign_worker.py:49-79 | One turn of the loop: one send exactly when there are a phone and a non-empty text; the row ends sent when nothing raised, else failed with the reason; an exception escapes exactly when the except block raises too; no other row changes except by enqueues |
| CampaignWorkers.CampaignWorker.ProcessBatch | core/services/campaign_worker.py:47-82 | The loop settles every item in order as its payload and the script have it, or stops at the first item whose except block raises too |
| CampaignWorkers.CampaignWorker.RunOnce | core/services/campaign_worker.py:43-96 | Under every script, with any other runs open: the batch is the most urgent due rows at the claim, as many as the batch size allows; each item is sent and marked, or failed with its reason, as payload and script have it; no result comes back exactly when the claim raises or an except block does; a result adds up and is true of the rows |
| CampaignWorkers.CampaignWorker.ClaimAndProcess | core/services/campaign_worker.py:45-96 | The same from the claim on |
| CampaignWorkers.RunSchedule | infra/scheduler.py:73-79 | On a fresh queue, run after run: no message sent twice, no row claimed twice, sent rows delivered, results adding up; and run by run the most urgent due rows are claimed and settled, with the results of the completed runs in order |
| Debounce.OnlyTheNewestOnce | core/services/inbound_handler.py:1173-1221 | For every interleaving, even if cancelled tasks wake: True is answered only for the newest arrival of the phone, and no task answers twice |
| Debounce.ArrivalBetweenTrues | core/services/inbound_handler.py:1173-1221 | Two Trues of a phone have an arrival of that phone between them |
| Debounce.OneTruePerBurst | core/services/inbound_handler.py:1198-1221 | Once every task has ended both tables are empty and each burst of a phone got exactly one True |
| Debounce.PhonesAreIndependent | core/services/inbound_handler.py:1178-1191 | Removing all other phones from a run leaves a phone's tables and answers exactly as they were |
| Debounce.StepKeepsInv | core/services/inbound_handler.py:1173-1221 | Arrivals, wake-ups and cancellations keep the two tables, the sleeping tasks and the observed answers in agreement |
| Debounce.TrueIsForNewest | core/services/inbound_handler.py:1206-1212 | A waking task that finds its message registered is the one of the newest arrival |
| Debounce.Debouncer.HandleWithDebounce | core/services/inbound_handler.py:1178-1191 | The locked part of an arrival: registers message and task, cancels the phone's previous sleeper |
| Debounce.Debouncer.DebounceExecute | core/services/inbound_handler.py:1198-1221 | The locked part of a wake-up: the answer, and which table entries go |
| Fsm.ValidateStateTargets | core/fsm/schema.py:38-59 | Accepts exactly the configurations whose initial state, transition targets and timeout targets are all defined; otherwise names a real offence |
| Fsm.Decide | core/fsm/engine.py:43-54 | Finds the first transition of the event that is not skipped by its guard |
| Fsm.FirstMatchIsTaken | core/fsm/engine.py:39-79 | The first matching transition whose guard holds is taken exactly when all its actions complete, and they ran in the order exit, transition, enter |
| Fsm.NoMatchStays | core/fsm/engine.py:81-87 | With no guard holding the state stays and no action runs |
| Fsm.FirstFailureIsReported | core/fsm/engine.py:65-71 | When an action of the chosen transition does not complete, exactly the actions before the first such one have run, and the outcome names it as unknown or as raising |
| Fsm.UnknownGuardFails | core/fsm/engine.py:43-54 | An unregistered guard is an error exactly where it is reached: no earlier transition of the event holds; no action has run |
| Fsm.TargetsStayKnown | core/fsm/engine.py:39-87 | The resulting state is one of the configuration |
| Fsm.StateAfter | core/fsm/engine.py:39-87 | After any sequence of events, failed ones included, the state is one of the configuration |
| Fsm.PlanFailure | core/fsm/engine.py:66-71 | Running three lists one after the other fails where their concatenation fails |
| Fsm.FSMEngine.constructor | core/fsm/engine.py:20-37 | The engine starts in the given known state |
| Fsm.FSMEngine.ExecuteActions | core/fsm/engine.py:96-107 | Runs the actions in order up to the first unknown or raising one |
| Fsm.FSMEngine.ExecuteAll | core/fsm/engine.py:65-71 | Exit, transition and enter actions, in this order, up to the first failure |
| Fsm.FSMEngine.ProcessEvent | core/fsm/engine.py:39-87 | Computes the specified outcome; the state changes only on success; exactly the actions before a failure have run |
| Keywords.MatchKeyword | core/services/orchestrator.py:84-97 | The first keyword of the list that occurs as a whole word; none exactly when no non-empty keyword does |
| Keywords.ReplayOverApproximates | core/services/replay_engine.py:208-223 | Live opt-out implies replayed opt-out, live handoff implies replayed handoff or opt-out, and a replayed plain message was neither live |
| Keywords.WhenReplayDiffers | core/services/replay_engine.py:208-223 | The two paths read a message differently exactly when: it is unsupported and holds a keyword; or no opt-out keyword is a whole word and one occurs inside words; or no keyword is a whole word and a handoff keyword occurs inside words or the message answers a campaign |
| Keywords.ReplayCanSayMore | core/services/replay_engine.py:218-219 | "trabajar" replays as the opt-out "baja" and is plain conversation live |
| Replay.ReplayEvent | core/services/replay_engine.py:160-196 | One turn of the loop: the record, with the opt-out flag up only for its own event, and the engine's next state |
| Replay.ReplayConversation | core/services/replay_engine.py:141-206 | The loop computes the specified records; the final state is the last record's |
| Replay.ChosenIsRecorded | core/services/replay_engine.py:160-196 | A chosen transition is recorded with its target and its actions in order, the opt-out flag being up exactly for an opt-out |
| Replay.ReplayChains | core/services/replay_engine.py:160-206 | Each record starts in the state where the one before ended, stays within the configuration and belongs to its log event in order |
| Replay.UntilIsPrefix | core/services/replay_engine.py:198-199 | Replay up to an event is the prefix of the full replay that ends with that event's first occurrence |
| Replay.DryStepNeedsOnlyGuards | core/services/replay_engine.py:225-236 | With no-op actions an event fails only for an unregistered guard |
| Replay.DryRunKnowsEveryAction | core/services/replay_engine.py:225-236 | A dry run over any log never meets an unknown action |
| Replay.Resolve | core/services/inbound_handler.py:750-759 | An unknown stored state falls back to the initial state, so the engine always starts in a known one |
| Replay.InboundHandler.Handle | core/services/inbound_handler.py:203-334 | One message: an active handoff and media that failed leave the state; otherwise a new engine runs from the stored state; a raised error leaves the session, a handoff request ends in the active handoff |
| Replay.HandoffIsKept | core/services/inbound_handler.py:201-212 | An active handoff is kept over every sequence of messages |
| Replay.ChosenIsStored | core/services/inbound_handler.py:248-334 | With a chosen transition: when all its exit, own and enter actions complete the stored state is its target, or the active handoff for a handoff request; when one does not, it is what it was |
| Replay.UnmatchedIsStored | core/services/inbound_handler.py:248-334 | Without a matching transition a handoff request is stored all the same, and any other message leaves the state the engine started in |
| Replay.FailedMediaIsReplayed | core/services/inbound_handler.py:218-246 | For media that failed the live state stays and the replayed one differs exactly when the first matching transition whose guard holds leads elsewhere |
| Replay.EnginesAgree | core/services/inbound_handler.py:256-262 | With agreeing guards and completing actions the live engine moves where the replay engine moves |
| Replay.LiveAndReplayAgree | core/services/inbound_handler.py:248-295 | Up to the first handoff the states stored message by message are exactly the states the replay visits |
| Replay.TextsAreMessages | core/services/orchestrator.py:30-82 | Texts that both paths read alike in the state they arrive in become messages with the replay's machine events |
| Replay.TextsAndReplayAgree | core/services/inbound_handler.py:248-295 | From the texts: up to the first handoff, the states stored while the log's texts are classified and processed one by one are those of the replay |
| Words.SplitJoin | adapters/knowledge/pgvector_adapter.py:171-189 | Splitting joined words gives back the words |
| Words.JoinIsShortest | adapters/knowledge/pgvector_adapter.py:178-189 | No text with these words is shorter than the words joined by single spaces |
| Words.SplitStrip | adapters/knowledge/pgvector_adapter.py:156-156 | Stripping does not change the words |
| Words.StripFacts | adapters/knowledge/pgvector_adapter.py:156-156 | Stripping cuts white space only and leaves none at either end; nothing is left exactly of blank text |
| Words.SplitOfLines | adapters/knowledge/pgvector_adapter.py:155-157 | The words of the lines, in order, are the words of the text |
| Words.SplitLinesAreLines | adapters/knowledge/pgvector_adapter.py:156-156 | The lines are what stands between the breaks, none of them holding a break, and a carriage return with its line feed is one |
| WordPacking.SplitLongParagraph | adapters/knowledge/pgvector_adapter.py:170-189 | The loop computes the greedy grouping |
| WordPacking.GreedyIsAhead | adapters/knowledge/pgvector_adapter.py:178-189 | With a group open, the greedy loop needs no more groups than any admissible split of the same words |
| WordPacking.GreedySplitIsOptimal | adapters/knowledge/pgvector_adapter.py:170-189 | The words are kept in order, every chunk fits unless it is one oversized word, and no list of texts doing both is shorter |
| WordPacking.PackedIsGreedy | adapters/knowledge/pgvector_adapter.py:170-189 | Every chunk is its words joined by single spaces, fits unless it is one word, and could not have taken the first word of the next |
| WordPacking.PackedIsShortest | adapters/knowledge/pgvector_adapter.py:170-189 | No list of admissible texts with these words is shorter |
| WordPacking.ChunkLine | adapters/knowledge/pgvector_adapter.py:156-165 | No chunk for a blank line, its stripped text if that is within the limit, otherwise the greedy split of its words, which no admissible list is shorter than |
| WordPacking.BlocksFacts | adapters/knowledge/pgvector_adapter.py:155-167 | Blocks for consecutive lines hold together exactly the words of the lines, every chunk within the limit or one word |
| WordPacking.ChunkContent | adapters/knowledge/pgvector_adapter.py:155-167 | The chunks fall into consecutive blocks, one for each line as it must be; over the whole document the words are kept in order and every chunk is within the limit or one word |
| DocumentText.NormalizeKeepsWords | core/services/document_chunker.py:71-75 | Normalization keeps the words of a text, in order |
| NormalForm.NormalizedIsNormal | core/services/document_chunker.py:71-75 | Normalized text has no carriage returns, tabs, double spaces or three line feeds in a row, and no white space at its ends |
| NormalForm.NormalStays | core/services/document_chunker.py:71-75 | Such text is left as it is, so normalizing twice changes nothing |
| NormalForm.FixBreaksAt | core/services/document_chunker.py:72-72 | Line breaks are replaced one by one; only a line feed behind a carriage return goes with it |
| NormalForm.SquashBlanksAt | core/services/document_chunker.py:73-73 | Blanks are squashed run by run, independently of what is around |
| NormalForm.SquashBlanksOfRun | core/services/document_chunker.py:73-73 | A run of blanks becomes one space, and text without blanks stays |
| NormalForm.SquashFeedsAt | core/services/document_chunker.py:74-74 | Line feeds are squashed run by run, independently of what is around |
| NormalForm.SquashFeedsOfRun | core/services/document_chunker.py:74-74 | Of three or more line feeds in a row two are left, and shorter runs and other text stay |
| DocumentText.SectionsStartAtHeadings | core/services/document_chunker.py:52-52 | The sections joined by line feeds are the document, each but the first starts with a heading, and none has a heading on a later line |
| SlidingWindow.WindowShape | core/services/document_chunker.py:26-34 | Windows step by chunk size minus overlap, are full except perhaps the last, and reach the end exactly once |
| SlidingWindow.WindowCount | core/services/document_chunker.py:26-34 | Exactly one window, or 1 + ceil((n - size)/(size - overlap)) |
| SlidingWindow.LoopEndsIff | core/services/document_chunker.py:26-34 | The loop ends exactly when the text fits one window or the overlap is smaller than the window |
| SlidingWindow.WindowsOverlap | core/services/document_chunker.py:33-34 | Each window starts the overlap before the end of the one before it |
| SlidingWindow.WindowsRebuild | core/services/document_chunker.py:26-34 | The first window and the rest without their overlap rebuild the text |
| SlidingWindow.OverlapKeepsPhrasesWhole | core/services/document_chunker.py:26-34 | Every substring of at most overlap + 1 characters lies inside one window |
| SlidingWindow.LongerPhraseIsCut | core/services/document_chunker.py:26-34 | On a text longer than a window some substring of overlap + 2 characters lies in none |
| SlidingWindow.NoCharacterIsLost | core/services/document_chunker.py:28-31 | Every character that is not white space survives into some chunk |
| SlidingWindow.TrimWindow | core/services/document_chunker.py:28-31 | The stripped slice of a window is nothing exactly for a blank window; else it is a slice of the window with the characters that are not white space at its ends and only white space around it |
| SlidingWindow.WindowTextFacts | core/services/document_chunker.py:28-31 | Every chunk text is non-empty, no longer than a window, and has no white space at its ends |
| SlidingWindow.WindowTexts | core/services/document_chunker.py:24-34 | Whenever the loop ends: one text for each window that is not blank, in order, each the window without the white space at its ends, and nothing for the others |
| SlidingWindow.ChunkText | core/services/document_chunker.py:20-44 | Nothing for a text that normalizes to nothing; otherwise these window texts of the normalized text, numbered from 0 with their total and source |
| SlidingWindow.ChunkMarkdown | core/services/document_chunker.py:51-60 | For each section cut at a heading, in order, its window texts; the chunks numbered from 0 across the document with the document-wide total |
| RepetitionGuard.SimilarityRange | core/services/repetition_guard.py:31-42 | Similarity is between 0 and 1, and 1 exactly for equal non-empty token sets |
| RepetitionGuard.SimilarityIsShare | core/services/repetition_guard.py:31-42 | Similarity times the number of all tokens is the number of shared tokens, and 0 without tokens |
| RepetitionGuard.SimilarityIsSymmetric | core/services/repetition_guard.py:31-42 | Similarity is symmetric |
| RepetitionGuard.TriangleInequality | core/services/repetition_guard.py:31-42 | 1 - similarity obeys the triangle inequality over all token sets, the empty ones included |
| RepetitionGuard.RepetitionsOfOneText | core/services/repetition_guard.py:11-11 | Two texts at 0.75 or more with a common third text are at 0.5 or more with each other |
| RepetitionGuard.LastItems | core/services/repetition_guard.py:61-61 | The slice keeps the last lookback items, everything for 0 |
| RepetitionGuard.IsRepetition | core/services/repetition_guard.py:45-73 | True exactly when the candidate is not empty and one of those messages reaches the threshold |
| RepetitionGuard.FlaggedCandidatesAreAlike | core/services/repetition_guard.py:45-73 | Two candidates flagged against the same single message are at least half alike |
| CsvRow.ParseCsvRow | api/routers/admin_panel.py:4050-4075 | The loop computes the specified parse |
| CsvRow.AnyLineIsCut | api/routers/admin_panel.py:4050-4075 | Any line, well-formed or not, is cut at the commas with an even number of quotes before them and nowhere else, and its fields with commas between them are the line again but for quotes |
| CsvRow.RoundTrip | api/routers/admin_panel.py:4050-4075 | Every writing of a non-empty row by section 2 of RFC 4180, each field quoted or bare where allowed, parses back to exactly its fields |
| CsvRow.WritingsTellRowsApart | api/routers/admin_panel.py:4050-4075 | Two rows with a common writing are the same row |
| CsvRow.ExportedRowParses | api/routers/admin_panel.py:175-178 | Every non-empty row can be exported as the csv writer does, and parses back to exactly its fields |
| Numerals.UniformParses | core/services/slot_extractor.py:225-229 | A uniformly grouped match is read as its digits and never yields nothing |
| Numerals.ParsedExactly | core/services/slot_extractor.py:267-296 | Every match of digits and separators, exactly: no number without a digit; the number of its digits without separators or with one kind and three digits after each; otherwise a number exactly when the last separator is the only one of its kind, which is then the decimal point |
| Numerals.ThousandsRoundTrip | core/services/slot_extractor.py:276-289 | Reading inverts thousands grouping with either separator, for every number |
| Numerals.MixedParsesIff | core/services/slot_extractor.py:273-277 | A grouped text with both separators is read exactly when the kind that comes last occurs once, and then as the decimal separator |
| Numerals.OneSeparator | core/services/slot_extractor.py:278-289 | A single separator is a thousands separator exactly when three digits follow, else the decimal point |
| Numerals.FractionAfterGroups | core/services/slot_extractor.py:273-277 | Grouping with one separator plus a decimal part of any length after the other reads back, for every number with a group |
| Numerals.FractionWithoutGroups | core/services/slot_extractor.py:278-289 | Without a group, three decimals are read as thousands; any other decimal part reads back |
| Numerals.FractionRoundTripIff | core/services/slot_extractor.py:267-296 | Grouping plus a decimal part reads back exactly when there is a group, or the decimals are not three, or all is zero |
| MondaySync.DiffColumns | adapters/crm/monday_adapter.py:110-126 | The loop keeps exactly the columns whose serialized value differs from the snapshot, all of them without a snapshot |
| MondaySync.IncrementalIsFullIff | adapters/crm/monday_adapter.py:110-126 | Sending the diff leaves the board of a full write exactly when every blank newcomer is blank on the board already |
| MondaySync.AcceptedUpdate | adapters/crm/monday_adapter.py:291-371 | An accepted update keeps board and snapshot in agreement and matches the full write exactly when every blank newcomer is blank on the board already; when it sends anything, that decides the agreement alone |
| MondaySync.IncrementalRefinesFull | adapters/crm/monday_adapter.py:291-371 | Over any run of updates without the fallback whose accepted blank newcomers show blank, the agreement is kept and the board is that of a full sync of the same run |
| MondaySync.RepeatSendsNothing | adapters/crm/monday_adapter.py:302-311 | After a payload was accepted the same payload sends nothing |
| MondaySync.FallbackAgreesIff | adapters/crm/monday_adapter.py:341-371 | After the fallback the agreement holds exactly when every column left out already had its new value on the board |
| MondaySync.UpdateLead | adapters/crm/monday_adapter.py:291-371 | The update path leaves board, snapshot and item id as specified; a raised error leaves all three |
| MondaySync.AcceptedColumn | adapters/crm/monday_adapter.py:267-371 | After an accepted update every named column with a value, optional over base, that is not kept by hand shows that value, unless it is blank and new to a non-empty snapshot; every other column shows what it did |
| MondaySync.FallbackColumn | adapters/crm/monday_adapter.py:341-371 | After the fallback every base column not kept by hand shows its value, and every other column what it did |
| MondaySync.SnapshotColumn | adapters/crm/monday_adapter.py:291-371 | Something is sent exactly when a column to sync differs from the snapshot or there is none; then the new snapshot holds the values of exactly the columns to sync; otherwise nothing changes |
| StageLadder.StageColumn.Change | adapters/crm/monday_adapter.py:495-535 | The label changes exactly when there is none or the ladder lets the change through |
| StageLadder.RefusedIff | adapters/crm/monday_adapter.py:66-90 | A change is refused exactly when both labels are on the ladder, the new one no higher than the current one, and neither a special label nor a reopening lets it through |
| StageLadder.AcceptedClimbsOrReopens | adapters/crm/monday_adapter.py:66-90 | Between labels on the ladder a change is accepted exactly when it climbs or reopens |
| StageLadder.RunByRung | adapters/crm/monday_adapter.py:66-90 | Runs over labels and over rung numbers accept and reopen alike |
| StageLadder.AcceptedAreBounded | adapters/crm/monday_adapter.py:66-90 | On any ladder a run accepts at most the rungs above its start plus, per reopening, the rungs from the reopening one up |
| StageLadder.DefaultLadderBound | adapters/crm/monday_adapter.py:30-40 | With the default ladder a run with r reopenings accepts at most 4 + 4r changes |
| StageLadder.DefaultRungs | adapters/crm/monday_adapter.py:30-40 | The default labels form a ladder of five rungs, whose top rung reopens on the second |
| StageLadder.BoundIsMet | adapters/crm/monday_adapter.py:30-40 | From "Nuevo" some run over the default labels with r reopenings accepts exactly 4 + 4r changes |
| LoginLockout.FailuresAreCounted | adapters/storage/repositories/login_attempt_repo.py:24-36 | The count is the number of log entries of the IP that failed at or after the cut: successes and other IPs do not matter |
| LoginLockout.OldestIsLeast | adapters/storage/repositories/login_attempt_repo.py:38-47 | The oldest failure is the earliest of exactly these entries, and missing exactly when there are none |
| LoginLockout.OldestIsTheFirstToGo | adapters/storage/repositories/login_attempt_repo.py:24-47 | Count and oldest failure agree: moving the cut to the oldest loses none, moving it beyond loses at least that one |
| LoginLockout.WaitIsBounded | core/services/login_attempt_service.py:24-34 | The reported wait is between 0 and 15 minutes |
| LoginLockout.LockedExactlyUntil | core/services/login_attempt_service.py:16-19 | With n failures in the window and no new ones the lock holds exactly until the (n - 4)-th oldest is fifteen minutes old, and not at all with fewer than five |
| LoginLockout.FailureTimesFacts | core/services/login_attempt_service.py:24-29 | The ordered list of failures agrees with the count at every later cut and with the oldest failure |
| LoginLockout.WaitFallsShortIff | core/services/login_attempt_service.py:24-34 | The IP is still locked at some time after the reported wait exactly when the fifth newest failure is less than fifteen minutes old then |
| LoginLockout.WaitIsEnough | core/services/login_attempt_service.py:24-34 | With at most five failures, after the reported wait and with no new failures the IP is not locked; a minute less would not do |
| LoginRuns.StepKeepsCapped | api/routers/auth.py:129-154 | Every step keeps recorded failures plus requests let through within 4 + overlap per IP and window |
| LoginRuns.NoWindowHoldsMore | api/routers/auth.py:129-154 | When an IP has at most k requests in progress together, no closed window of fifteen minutes ever holds more than 4 + k of its failures: five for sequential requests |
| LoginRuns.PromiseIsKept | core/services/login_attempt_service.py:16-34 | In every run of sequential requests the wait is 0..15 minutes, is enough, and a minute less is not |
| LoginRuns.WaitWithOverlap | core/services/login_attempt_service.py:16-34 | In every run with at most k requests of an IP together: the wait is 0..15 minutes, covers at most 4 + k failures, and when it falls short |
| LoginBound.BoundIsAttained | api/routers/auth.py:129-154 | For every k some run with k overlapping requests puts 4 + k failures into one window |
| LoginRuns.PruneIsExact | api/routers/auth.py:136-138 | Pruning drops exactly the leading entries older than a minute |
| LoginGate.RoomAtTheGate | api/routers/auth.py:136-144 | With its failures on record, a request that passed the check finds room in the pruned deque |
| LoginGate.RoomForTheNext | api/routers/auth.py:136-144 | Between requests the minute has room for an IP that is not locked out |
| LoginGate.GateNeverRefuses | api/routers/auth.py:136-144 | For sequential requests whose failures get recorded, the per-minute gate never refuses |
| TokenIssuer.LoginAttemptService.CheckLockout | core/services/login_attempt_service.py:16-19 | True exactly when five or more failures of the IP lie within fifteen minutes before the clock as read ahead of the query |
| TokenIssuer.LoginAttemptService.GetRemainingLockout | core/services/login_attempt_service.py:24-34 | The specified wait, with the clock read before and after the query |
| TokenIssuer.LoginAttemptService.RecordAttempt | adapters/storage/repositories/login_attempt_repo.py:14-22 | Appends one attempt stamped with the database's time |
| TokenIssuer.TokenEndpoint.CheckIn | api/routers/auth.py:127-130 | Arrival and lockout check are steps of the protocol |
| TokenIssuer.TokenEndpoint.PassGate | api/routers/auth.py:136-144 | Prunes the IP's deque and admits exactly when fewer than five entries remain |
| TokenIssuer.TokenEndpoint.Conclude | api/routers/auth.py:147-171 | The outcome goes to the log, and for a bad password the arrival time to the deque |
| TokenIssuer.AnsweredRightly | api/routers/auth.py:127-171 | Locked out exactly with five failures of the last fifteen minutes on record; otherwise turned away exactly with five entries of the last minute in the deque; otherwise the password decides |
| TokenIssuer.TokenEndpoint.IssueToken | api/routers/auth.py:127-171 | The answer to one request, what it adds to the log, and the deque it leaves, as a run of the protocol |
| TokenIssuer.ServeInTurn | api/routers/auth.py:117-171 | Served in turn on a fresh log, request by request: an IP with five failures in fifteen minutes is locked out with a wait of 0..15 and leaves no trace; any other request is answered by its password, which goes on record, and the gate never refuses; no fifteen minutes ever hold more than five failures of one IP |

## Left out

- SQL, database sessions, serialization failures and the missing-index fallback of `enqueue_operation`; a repository call is one atomic step that may also fail without effect.
- A repository call that commits and then reports an error.
- HTTP, LLM, WhatsApp, spreadsheet and GraphQL calls: a call is an oracle that succeeds or raises. Whether a dispatch reached the CRM, or a message went out, when the call raised is not modelled: `delivered` means that the send call returned.
- Normalization of aggregate ids to UUIDs: keys are compared as they are.
- The claim of one batch while another CRM run is open does not happen with the scheduler's single job (infra/scheduler.py:80-86); for other schedules the dispatch order holds under the stated condition on claims only.
- `_check_dlq_alerts`, `_dispatch_operation`, `count_dlq_items` and the other counters of both queues.
- The debounce's bypass for commands, other event types and a zero delay, and cancellation of a request from outside; only a newer message cancels.
- Messages the live path defers in the debounce are in the log all the same; the agreement of live and replay speaks of the messages that are processed.
- Bodies of guards and actions, `validate_timeout_pair`, timeouts, and failures of the session store or of the reply after the state was stored.
- Case folding, accents and trimming of keywords, amounts and messages, Python's regular expression engine and Unicode digit classes: these texts arrive normalized, word and white-space characters are predicates.
- Floating-point rounding: similarities, amounts and waits are exact.
- Reading PDF or DOCX.
- SlidingWindow.ChunkText: takes sizes and overlaps with which the loop ends, as `SlidingWindow.LoopEndsIff` characterizes them; negative sizes and overlaps are not modelled.
- The patterns of `_extract_budget` before the grouped number, and units of amounts.
- JSON serialization of columns: an abstract function of the value. Creating an item, finding it by phone, and notes are not modelled.
- `upsert_lead` writing the stage column directly, and stage reads that fail, for the ladder property.
- TOTP, JWT, password hashing and audit log of the login: the password check is an oracle.
- TokenIssuer.TokenEndpoint.IssueToken: lets time pass during its awaits, but requests of other IPs interleave with it in the transition system only.
- CampaignWorkers.CampaignWorker.RunOnce: other workers' runs may be open, but only enqueues and time interleave with the method itself; runs of several workers interleave in the transition system.
- CrmWorker.CrmSyncWorker.ProcessBatch: likewise, only enqueues and time interleave with the method itself.
- The clock moves during awaits only: readings with no await between them, as on arrival of a login request, are one reading.
- Template rendering of a campaign message: an oracle that yields a text or raises. The pause between two messages is part of the time that may pass.
- Order among rows with equal claim rank, which the database leaves open.
- Guard keyword lists, human delay, friction detection, handoff texts, photo cursor, dashboard, migrations and brand loading: they would only add easy members.
