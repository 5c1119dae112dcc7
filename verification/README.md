# Outbound dialer: call control

This project models the call-control core of an outbound dialer: the transactions that create, advance and end calls in
a PostgreSQL database while FreeSWITCH, agents, administrators and background jobs all act on them, and the protocols
around those transactions. It proves what every interleaving of them keeps.

| files | what they are about |
|---|---|
| `DialerDb`, `Finalization`, `VoicemailDrop`, `ChannelEvents`, `CallActions`, `UserAccess` | the rows, the SQL statements with the row trigger, and every transaction as a function of the database |
| `Terms`, `TransactionEffects`, `CallEndings`, `SmallUpdates`, `StepRules` | what the transactions and statements mean to their callers, stated on the rows before and after in literal states, outcomes and causes |
| `DialerStore` | the same transactions as methods that update the tables statement by statement, proved against those functions and effects |
| `ConsistencyRepair`, `RepairRules` | the self-repair, its convergence, and what it looks for |
| `ExactlyOnce`, `EventOrder`, `EventDelivery` | at-least-once delivery, independence of event order, and the handler driven by the persistence queue |
| `Lifecycle`, `LifecycleTransactions`, `CallTransactions`, `LifecycleInvariant`, `AgentFreeing`, `LifecycleTheorems`, `LegsAfterEnd`, `LostRelease`, `LateLegStart` | the whole call control as one state machine, its invariant, what holds in every reachable state and what the repair finds there, and the runs that strand an agent and restart a leg |
| `RetryQueue`, `CoalescedTask`, `ReconcileWiring` | the persistence queue, the coalesced reconciliation, and the two wired together |
| `JsText`, `EslFraming`, `HeaderText` | the incremental reader of the FreeSWITCH event socket, and what it makes of what a sender printed |
| `CsvText`, `CsvSpelling`, `CsvRoundTrip`, `Batching`, `CsvImport`, `SuppressionImport`, `ImportRules` | the CSV printer and parser for every spelling of a table, and the batched imports with their rules for columns and rows |
| `EarlyMedia` | the controller of the local ringback tone |
| `HistoryExport`, `RecordingClaims`, `RuntimeSettings` | the keyset-paged export, the recording claims, the settings updates |

How the model reads the system:

- A SQL transaction, or a single statement on the pool, is one step. An operation that holds what it read across an
  await is a suspended task; any task may run next, or be lost.
- The check constraint that a locked call is final (`SchemaValid`) holds before a transaction; the contracts that need it
  say so.
- Timestamps are ticks of one logical clock. Two claims of a recording never get the same one.
- The row trigger `calls_state_progression_guard` and the check on manual locks are part of the model
  (`apps/api/db/migrations/023_manual_call_status_lock.sql`); with them the unguarded update after an originate needs
  no assumption about when it runs.
- FreeSWITCH commands, file writes, phone normalisation, case folding and number parsing are parameters that may answer
  anything they can answer. Callbacks such as `onRetry` do not throw.
- Text of the event socket is single-byte. A Dafny `char` is a Unicode scalar value; lengths in UTF-16 units and UTF-8
  bytes are computed from it.
- The histories a property needs (what a queue accepted, when leads were last reset, which release was lost) are kept
  beside the state; no step reads them.

Where the code does not do what its surroundings suggest, the model follows the code and says exactly when:

- A waiter that calls `waitForIdle` after `stop` while an attempt is still awaited is never woken
  (`RetryQueue.WaiterIsWokenIffRunning`, `RetryQueue.LateWaiterExample`). The listener stops its task first, so it never
  gets there (`ReconcileWiring.IdleQueueWakesTheRun`).
- A replay of an event without a UUID adds to the event log (`ExactlyOnce.ReplayInvisibleIff`).
- Two different header names can be sanitised into one, which the parser then refuses
  (`CsvRoundTrip.PrintThenParse`, `CsvRoundTrip.MergedNamesAreRefused`, `CsvRoundTrip.MergedHeaderExample`).
- The break that stops the ringback tone goes to the leg the last agent event named, so it reaches the toned leg if and
  only if that is the same one (`EarlyMedia.BreakNamesTonedLegIff`, `EarlyMedia.BreakMissesTheTone`).
- A recording whose claim is still held and whose mark committed but was reported as an error is counted as skipped
  (`RecordingClaims.FinalizeClaims`, `RecordingClaims.CommitIsHidden`).
- An agent without an active call stays in_call exactly after a release that was lost between its statements, until a
  later call or a repair frees it (`LifecycleTheorems.AgentsAreFreed`, `LostRelease.AgentIsStranded`,
  `LifecycleTheorems.RepairFreesTheAgent`).
- The leg updates after an originate are unguarded, so one that runs after the end of the call starts the agent's leg
  again. An ended call has an unfinished leg, and is a candidate of the repair for it, exactly then and until the leg is
  closed again (`LegsAfterEnd.UnfinishedLegIff`, `LegsAfterEnd.RepairFindsExactly`, `LateLegStart.EndedCallIsFoundAgain`).
- An update of the settings that touched the file and then failed to write it back leaves file and database apart until
  a later update writes the file (`RuntimeSettings.AgreementLostIff`, `RuntimeSettings.AgreementReturnsIff`,
  `RuntimeSettings.QueueIsSerial`).

## Model

| member | source | states |
|---|---|---|
| `DialerStore.Database.FinalizeCallTransaction` | apps/api/src/call-finalization.ts:95-259 | every case listed out: a missing call, a replay of a final one, a running one nobody decides about, and a decision; a decided row keeps any outcome, end time and terminal state it had and gets the rest from the caller's decision or what it implies, cause by cause; then legs, lead, agent and log as stated; nothing else changes |
| `Finalization.DecisionPassesGuard` | apps/api/src/call-finalization.ts:146-205 | whatever the finalization decides, the row trigger lets the update through and the row is then final: ended, terminal, with an outcome |
| `Finalization.FinalizedRow` | apps/api/src/call-finalization.ts:146-216 | a deciding finalization succeeds and its call row is the decided one |
| `Finalization.FirstFinalizationWins` | apps/api/src/call-finalization.ts:118-145 | the first of any two finalizations fixes the call: the second, whatever it would decide, changes no call row |
| `Finalization.CustomerHangupMeansAnswered` | apps/api/src/esl-events.ts:2175-2191 | an answered call ends as hung up or voicemail; an unanswered one as busy exactly for USER_BUSY, not answered exactly for no answer, no response, rejected or canceled, failed exactly for the other causes; the state is failed exactly for that, and the lead is done exactly when somebody answered |
| `CallEndings.RunningCallEnds` | apps/api/src/call-finalization.ts:95-259 | a running call ends failed when its caller gave up on it, hung up or failed when FreeSWITCH does not know it, and by the hangup cause when its customer left; its legs have ended, its agent is let go, and its lead, unless another running call has it, is done for an answered outcome and to be called again for any other |
| `Finalization.FinalizeFrame` | apps/api/src/call-finalization.ts:95-259 | finalizing one call touches no other call, no user, session, campaign or suppression, creates no row and keeps the event log so far |
| `DialerStore.Database.RepairFinalizedCallConsistency` | apps/api/src/esl-events.ts:1782-1837 | a pass repairs as many calls as it may read; the number of inconsistent calls drops by at least that; no recorded outcome, end time or terminal state changes |
| `DialerStore.Database.SelectCandidates` | apps/api/src/esl-events.ts:1788-1826 | the query's page: distinct candidates, oldest first, as many as the limit allows, none left out that is older |
| `ConsistencyRepair.RepairedRowIsFinal` | apps/api/src/call-finalization.ts:323-358 | the repaired row is final and keeps any outcome, end time and terminal state it had |
| `ConsistencyRepair.RepairIsUpdateThenCleanup` | apps/api/src/call-finalization.ts:261-268 | a repair is that row update followed by the cleanup of legs, lead and agent, and it reports success |
| `RepairRules.CandidatesAreListed` | apps/api/src/esl-events.ts:1788-1826 | a candidate is a call that is over in one column and not in all, or that left a lead calling, a leg running or an agent in_call although no running call has it |
| `RepairRules.PagesTakeTheOldest` | apps/api/src/esl-events.ts:1788-1826 | a page holds distinct candidates, all of them if it is not full, and none that is left out has been over for longer |
| `RepairRules.RepairMeans` | apps/api/src/call-finalization.ts:261-268 | a repaired candidate is finalized by what its row says or only cleaned up after, counted either way, and logs nothing |
| `ConsistencyRepair.RepairClearsCandidate` | apps/api/src/call-finalization.ts:218-259 | after a repair its call is no candidate, no other call has become one, and all history is kept |
| `ConsistencyRepair.RepairAllClears` | apps/api/src/esl-events.ts:1828-1836 | the loop repairs every row of the page, even rows an earlier repair of the page already settled |
| `ConsistencyRepair.PassShrinks` | apps/api/src/esl-events.ts:1782-1837 | the convergence measure: the candidate count drops by the size of the page, strictly for a limit of at least one while a candidate is left |
| `ConsistencyRepair.RepairConverges` | apps/api/src/esl-events.ts:1782-1837 | from any database the schema admits, any passes with limits of at least one reach no candidate after at most as many passes as there were candidates, keeping all history |
| `DialerStore.Database.PersistTaggedEvent` | apps/api/src/esl-events.ts:366-532 | one handling of a tagged channel event: the customer's hangup in a drop ends the call as voicemail-dropped with its lead done exactly for NORMAL_CLEARING and ORIGINATOR_CANCEL and as failed with its lead to be called again for any other cause; outside a drop it finalizes the call by its cause; any other event only tells log, leg and call what it means |
| `DialerStore.Database.PersistGenericEvent` | apps/api/src/esl-events.ts:546-663 | event by event: which states a create, progress, answer or bridge moves a call to, that an ended call stays, that a leg's state never goes back and the first time of everything is kept, and the one log row, all or nothing |
| `ExactlyOnce.CutAttemptInvisible` | apps/api/src/esl-events.ts:366-532 | an attempt that stops after any of its writes, followed by a full one, leaves what the full one alone leaves, up to timestamps |
| `ExactlyOnce.HandledTwice` | apps/api/src/esl-events.ts:366-532 | handling an event with a UUID again changes nothing but timestamps and agent rows |
| `ExactlyOnce.DeliveryIsOneHandling` | apps/api/src/ordered-retry-queue.ts:79-122 | any number of failed prefixes followed by a full attempt is one handling |
| `ExactlyOnce.ExactlyOnceEffect` | apps/api/src/ordered-retry-queue.ts:79-122 | at-least-once delivery of any sequence of identified events has exactly-once effect on calls, legs, contacts and the event log |
| `ExactlyOnce.ReplayInvisibleIff` | apps/api/src/esl-events.ts:693-695 | a replay is invisible if and only if the event carries a UUID |
| `EventDelivery.QueueAppliesInOrder` | apps/api/src/esl-events.ts:95-134 | every run of queue and handler together, with any failed attempts, retries, rejections and a stop: up to timestamps each accepted event, in order, was handled once as far as its furthest attempt came; persisted events to the end, nothing behind the first unsettled one |
| `EventDelivery.SettledAreHandledOnce` | apps/api/src/esl-events.ts:95-134 | while no event was rejected, the database is that of handling the settled events exactly once in their order, followed by the furthest attempt of the next one |
| `EventDelivery.DrainedQueueHandledAll` | apps/api/src/esl-events.ts:95-134 | once such a queue is idle, every accepted event has had its effect exactly once, in arrival order |
| `EventDelivery.AttemptsJoin` | apps/api/src/esl-events.ts:366-532 | two attempts of one identified event leave what the one that came further leaves |
| `EventOrder.AdvanceIsJoin` | apps/api/src/esl-events.ts:559-654 | a non-terminal event moves a dialing call to the higher of its rank and the event's |
| `EventOrder.JoinLegStateIsMax` | apps/api/src/esl-events.ts:559-584 | the leg update is the maximum of started, answered and ended |
| `EventOrder.EventsJoinCall` | apps/api/src/esl-events.ts:559-654 | any events in any order leave the call at the highest rank among them and where it started, answered exactly when one of them answers |
| `EventOrder.EventsJoinLeg` | apps/api/src/esl-events.ts:2151-2159 | any events in any order, terminal ones included, leave a leg at the maximum of its state and theirs |
| `EventOrder.OrderAndRepetitionInvisible` | apps/api/src/esl-events.ts:559-654 | two deliveries of the same events, permuted and repeated at will, leave the call and every leg in the same state |
| `VoicemailDrop.DropEndsPass` | apps/api/src/esl-events.ts:1216-1259 | both ways a drop ends a call pass the row trigger unchanged when no manual lock is set |
| `DialerStore.Database.FinalizeCompletedPlayback` | apps/api/src/esl-events.ts:1200-1307 | background playback completion touches nothing unless the call is in a drop; then the call and no other ends as voicemail-dropped, all its legs have ended, its lead, if still calling, is done, and its agent is let go unless it was released before or another call occupies it |
| `TransactionEffects.CompletedMeans` | apps/api/src/esl-events.ts:1200-1307 | that statement for every database whose locked rows are final, which is the check constraint of the calls table |
| `DialerStore.Database.FinalizeIncompletePlayback` | apps/api/src/esl-events.ts:1309-1434 | an interrupted drop ends as failed or hung up as its caller says; the lead its caller read, if still calling, goes back to be called again, and the agent is let go unless the caller read that it was released |
| `TransactionEffects.IncompleteMeans` | apps/api/src/esl-events.ts:1309-1434 | the same for every database and anything the caller may have read before the transaction |
| `DialerStore.Database.ReleaseAgentForPlayback` | apps/api/src/esl-events.ts:1128-1198 | after the release the call is still open, keeps its outcome and its lead, no longer occupies an agent and remembers the first release; its agent leg has ended and its agent is let go unless another call occupies it |
| `TransactionEffects.ReleaseMeans` | apps/api/src/esl-events.ts:1128-1198 | the same as a statement about the database before and after |
| `DialerStore.Database.MarkVoicemailPlaybackStarted` | apps/api/src/esl-events.ts:957-1055 | playback started is recorded once however often it is reported, moves only the call's state, leaves a released call as it is and never changes whether the call occupies its agent |
| `DialerStore.Database.FinishAgentCall` | apps/api/src/agent-availability.ts:59-81 | the agent is no longer in_call exactly when no active call occupies it: ready if registered, offline if not, a pause kept, any wrap-up over; every other agent is as before |
| `DialerStore.Database.CreateCall` | apps/api/src/dashboard/calls.ts:195-490 | a call is created if and only if the caller may dial, the lead may be dialed and the identifiers are new; then one dialing call of that agent, lead and the lead's campaign with nothing else set, one fresh leg of each kind, an agent in_call and a lead with one more attempt are all that changed; otherwise nothing changed |
| `CallActions.FirstBrokenRuleIsNamed` | apps/api/src/dashboard/calls.ts:205-372 | what is answered is the first broken rule in the order in which they are checked |
| `CallActions.LeadAcceptedIff` | apps/api/src/dashboard/calls.ts:33-158 | a lead is refused exactly when it is unknown, blocked, being called, suppressed, in a stopped campaign, or, unless the request confirms that, done, or waiting for its retry, or when it is out of attempts; an accepted lead is the one asked for, with its campaign |
| `DialerStore.Database.EndCall` | apps/api/src/dashboard/calls.ts:1248-1364 | a user ends exactly the active calls of its own agents, and otherwise nothing changes; an ended call is final as answered or canceled, its legs have ended, its lead is done or to be called again accordingly, and its agent is let go |
| `TransactionEffects.AgentEndMeans` | apps/api/src/dashboard/calls.ts:1248-1364 | the same as a statement about the database before and after |
| `DialerStore.Database.SetManualCallStatus` | apps/api/src/dashboard/manual-call-status.ts:11-122 | a status is set if and only if the call is the user's, is over and is not locked; then it has the outcome asked for in its terminal state, is locked, keeps its end time, lead and agent, and no other call changed; otherwise nothing changed |
| `TransactionEffects.ManualStatusIsSetOnce` | apps/api/src/dashboard/manual-call-status.ts:11-122 | after a status was set, asking for the same one again is reported as already set and any other one as locked, and neither changes anything |
| `DialerStore.Database.ResetLeads` | apps/api/src/dashboard/campaigns.ts:92-145 | without an open call in the campaign all its leads, and no others, are new and unattempted again with their numbers kept; otherwise nothing changes |
| `DialerStore.Database.ChangeUser` | apps/api/src/auth/routes.ts:185-347 | an account changes if and only if it exists and the change cuts off no active call by deactivation and no live supervision by deactivation or demotion; a deactivation retires its agents; nothing else changes |
| `TransactionEffects.ChangeUserCutsNobodyOff` | apps/api/src/auth/routes.ts:199-251 | whatever is asked for, a user with an active call or a live supervision stays active, and a supervising admin stays admin |
| `DialerStore.Database.RemoveUser` | apps/api/src/auth/routes.ts:349-453 | a user is removed if and only if it exists, is on no active call and supervises nobody; it is then inactive with its role kept and its agents offline and unregistered; otherwise nothing changes |
| `DialerStore.Database.StartSupervisorSession` | apps/api/src/dashboard/supervisor.ts:247-296 | a session starts if and only if the actor is an active admin on no call and in no live session and its identifier is new; then there is one more, connecting, and nothing else changed; otherwise nothing changed |
| `LifecycleTransactions.TransactionKeepsInv` | apps/api/src/call-finalization.ts:95-259 | any transaction that changes one call's row, returns its lead exactly when the call stops being open and frees its agent when it stops occupying it keeps the whole invariant |
| `CallTransactions.FinalizeIs` | apps/api/src/call-finalization.ts:95-259 | a finalization, first or replayed, has that shape, even while a newer call holds the lead |
| `CallTransactions.OnlyHolder` | apps/api/src/call-finalization.ts:218-241 | the guarded return of a lead is the plain one for the call that holds it |
| `CallTransactions.NothingToReturn` | apps/api/src/call-finalization.ts:218-241 | a replay finds no lead to return, so it cannot take one from a newer call |
| `CallTransactions.CompletedIs` | apps/api/src/esl-events.ts:1200-1307 | playback completion has that shape: it frees the agent exactly when the call still occupied it, also after the agent moved on |
| `CallTransactions.IncompleteIs` | apps/api/src/esl-events.ts:1309-1434 | so has the incomplete end, with a contact and a released flag read before the transaction |
| `CallTransactions.ReleaseIs` | apps/api/src/esl-events.ts:1128-1198 | so has the release during playback |
| `CallTransactions.AgentEndIs` | apps/api/src/dashboard/calls.ts:1248-1364 | so has the agent's end |
| `CallTransactions.SetStatusIs` | apps/api/src/dashboard/manual-call-status.ts:44-85 | so has the manual status, which neither opens a call nor moves its end time |
| `CallTransactions.GenericIs` | apps/api/src/esl-events.ts:559-654 | so has a generic event: it never ends a call and never takes a voicemail state back |
| `CallTransactions.QueueOriginateIs` | apps/api/src/dashboard/calls.ts:606-615 | so has the update after the originate was queued, in any state the row trigger lets it through |
| `LifecycleInvariant.CreateKeepsInv` | apps/api/src/dashboard/calls.ts:195-490 | a new call keeps the invariant: one open call per lead, one active call per agent, no live supervision of its owner, one more attempt counted |
| `LifecycleInvariant.ResetKeepsInv` | apps/api/src/dashboard/campaigns.ts:105-136 | a reset strands no lead and starts the attempt count afresh |
| `LifecycleInvariant.ReleaseTaskKeepsInv` | apps/api/src/dashboard/calls.ts:1035-1119 | the release after a drop's transfer, statement by statement: from its mark on a suspended task stands for the agent until it is freed |
| `LifecycleInvariant.ChangeUserKeepsInv` | apps/api/src/auth/routes.ts:199-251 | account changes keep calling and supervising apart |
| `LifecycleInvariant.SuperviseKeepsInv` | apps/api/src/dashboard/supervisor.ts:247-296 | so does a new supervision |
| `LifecycleInvariant.StepKeepsInv` | apps/api/src/call-finalization.ts:95-259 | every step of the model keeps the invariant and rewrites no ended call but by one manual status |
| `LifecycleInvariant.RunKeepsInvariant` | apps/api/src/call-finalization.ts:95-259 | so does every run |
| `LifecycleTheorems.EndedRowsAgree` | apps/api/src/call-finalization.ts:146-205 | in every reachable state a call has an end time iff its state is terminal iff it has an outcome, and its state is failed iff its outcome is |
| `LifecycleTheorems.EndIsFinal` | apps/api/src/dashboard/manual-call-status.ts:44-85 | once ended, a call's end time never changes, its state and outcome change at most once, and not at all once locked, over any continuation |
| `LifecycleTheorems.LeadsAreReserved` | apps/api/src/call-finalization.ts:218-241 | in every reachable state a lead is calling iff a call that has not ended holds it, and at most one does |
| `LifecycleTheorems.AttemptsCountCalls` | apps/api/src/dashboard/calls.ts:451-463 | a lead's attempt count is the number of calls created for it since its campaign's last reset |
| `LifecycleTheorems.AgentsAreExclusive` | apps/api/src/dashboard/calls.ts:276-309 | no agent has two active calls, and an agent with one is in_call |
| `LifecycleTheorems.AgentsAreFreed` | apps/api/src/agent-availability.ts:59-81 | in every run, an agent without an active call and without a pending release is in_call if and only if some step lost a release of it half way while it was in_call and no later step has freed it: finished it while no active call occupies it, or retired its user |
| `AgentFreeing.InCallUntilFreed` | apps/api/src/agent-availability.ts:59-81 | a step takes an agent out of in_call exactly if it runs finishAgentCall for it and leaves it no active call, or retires its user; every other step leaves it in_call |
| `LifecycleTheorems.LostIsHistory` | apps/api/src/dashboard/calls.ts:1035-1119 | the set of lost releases is exactly that history of the run, agent by agent |
| `LostRelease.AgentIsStranded` | apps/api/src/dashboard/calls.ts:1035-1119 | the run that strands an agent: create, bridge, claim a drop, agent leg gone, mark, operation lost; the agent is on no call, nothing is pending and it is in_call |
| `LifecycleTheorems.RepairFreesTheAgent` | apps/api/src/call-finalization.ts:218-259 | from any state the repair of an ended call frees its agent and forgets the lost release, unless another call occupies the agent |
| `LifecycleTheorems.RegisteredIsNeverOffline` | apps/api/src/agent-availability.ts:59-81 | in every reachable state a registered agent is not offline, whoever freed, retired or registered it last |
| `CallActions.CallStartsIffAllowed` | apps/api/src/dashboard/calls.ts:195-372 | a call starts exactly when every rule on caller, agent and lead holds and its identifiers are new; an automatic choice confirms nothing and stays in its campaign |
| `Terms.TriggerAdmitsIff` | apps/api/db/migrations/023_manual_call_status_lock.sql:20-86 | which updates of a call the row trigger lets through, state by state, and that a locked row keeps its result whatever is asked |
| `Terms.LogLogs` | apps/api/db/migrations/009_call_lifecycle_hardening.sql:35-43 | a log row is added at the end unless the log has its event or, for the five milestones, the call's |
| `StepRules.TransactionsMean` | apps/api/src/esl-events.ts:366-532 | what finalizations, events and the transactions of a drop do as steps of the machine, in the words of their callers; nothing suspended and no history is touched |
| `StepRules.RequestsMean` | apps/api/src/dashboard/calls.ts:195-490 | the same for what users ask for: a call, its end, its result, accounts, a supervision; refused requests change nothing |
| `StepRules.ClaimMeans` | apps/api/src/dashboard/calls.ts:893-978 | a drop is claimed exactly on a connected call of the user's agent, keeping the first request time and logging the request once; the operation goes on with the agent and the state it claimed from |
| `StepRules.AnswersMean` | apps/api/src/dashboard/calls.ts:988-1082 | a rejected transfer takes the call back to where it was claimed if it still only is requested; with the agent's leg gone the release is logged and goes on to its mark; after an unclear answer nothing more is done |
| `StepRules.ReleasesMean` | apps/api/src/dashboard/calls.ts:1083-1106 | the release statement by statement: the mark only on a call in a drop and keeping the first release, then the agent's leg, then the agent unless another call needs it |
| `StepRules.EndsMean` | apps/api/src/esl-events.ts:1309-1434 | an incomplete end acts on what its caller had read, whatever happened since |
| `SmallUpdates.QueuedMeans` | apps/api/src/dashboard/calls.ts:606-615 | the update after the originate makes the call ring unless it is over, in a drop or locked |
| `SmallUpdates.RegistrationMeans` | apps/api/src/esl-events.ts:1557-1579 | registration brings an offline agent back, losing it takes an idle one without a running call offline, and nobody leaves a call by it |
| `SmallUpdates.SupervisorsMean` | apps/api/src/dashboard/supervisor.ts:330-457 | a mode switch of the own connected session reconnects it on a new leg, stopping ends it, and nothing else does either |
| `SmallUpdates.SessionsMean` | apps/api/src/dashboard/supervisor.ts:459-496 | the supervisor's leg alone connects a connecting session and ends a live one |
| `SmallUpdates.FailuresMean` | apps/api/src/dashboard/supervisor.ts:498-514 | a failed job fails a session that still connects on it |
| `SmallUpdates.LegUpdatesMean` | apps/api/src/dashboard/calls.ts:573-592 | the updates after an originate start the agent's leg whatever it was before and name the customer's |
| `LifecycleTheorems.NewCallsObeyTheRules` | apps/api/src/dashboard/calls.ts:33-158 | only a call start brings a call into being, for the acting user's own agent, and never for a lead that is suppressed, in a stopped campaign, already being called or out of attempts |
| `LifecycleTheorems.CallingExcludesSupervising` | apps/api/src/dashboard/supervisor.ts:247-296 | nobody owns an active call and a live supervision; callers are active, supervisors active admins with one session each |
| `LegsAfterEnd.UnfinishedLegIff` | apps/api/src/dashboard/calls.ts:573-592 | in every run, an ended call has an unfinished leg if and only if its agent's leg was started after the end and no finalization or repair of the call, pending release of it or terminal event of that leg has closed it since; only that leg can be unfinished |
| `LateLegStart.EndedCallIsFoundAgain` | apps/api/src/dashboard/calls.ts:573-592 | three steps from an initial state, a call start, the agent's end and the late leg update, leave an ended call that is a candidate of the repair |
| `LegsAfterEnd.RepairOnlyFinishesReleases` | apps/api/src/esl-events.ts:1782-1837 | in every run the repair has no outcome to decide: its candidates are final calls whose agent's leg was started late, or whose agent waits for a release under way or lost |
| `LegsAfterEnd.RepairFindsExactly` | apps/api/src/esl-events.ts:1788-1826 | with no release of its agent pending, a call is a candidate if and only if it has ended and its agent's leg was started late and not closed since, or a release of its unoccupied agent was lost and nobody has freed it since |
| `RetryQueue.RunKeepsValid` | apps/api/src/ordered-retry-queue.ts:42-138 | every run keeps order, capacity and drive, and histories only grow |
| `RetryQueue.NothingIsLost` | apps/api/src/ordered-retry-queue.ts:42-138 | settled, then discarded, then pending items are the accepted ones in order; depth never exceeds capacity and is what was reported |
| `RetryQueue.AttemptsFollowOrder` | apps/api/src/ordered-retry-queue.ts:79-92 | the awaited attempt is for the oldest accepted item that is not settled |
| `RetryQueue.WorkIsDriven` | apps/api/src/ordered-retry-queue.ts:79-122 | while not stopped the queue is non-empty iff exactly one of an awaited attempt and a retry timer is on, and the timer has the backoff of its attempts |
| `RetryQueue.NoLostWakeUp` | apps/api/src/ordered-retry-queue.ts:129-138 | an idle queue that was not stopped owes nobody a wake-up |
| `RetryQueue.SuccessDrains` | apps/api/src/ordered-retry-queue.ts:79-122 | once attempts succeed, as many as there are entries settle everything in order and wake everybody |
| `RetryQueue.WaiterIsWokenIffRunning` | apps/api/src/ordered-retry-queue.ts:53-61 | a registered waiter can still be woken by the queue's own progress if and only if the queue was not stopped when it is looked at |
| `RetryQueue.LateWaiterExample` | apps/api/src/ordered-retry-queue.ts:63-77 | the history in which a waiter is never woken: stop during an attempt, then waitForIdle |
| `RetryQueue.DelaysGrow` | apps/api/src/ordered-retry-queue.ts:124-127 | delays start at the initial one, never shrink and respect the maximum |
| `RetryQueue.DelaysDouble` | apps/api/src/ordered-retry-queue.ts:124-127 | the delays exactly: the initial one, then twice the one before up to the thirty-first attempt, and none above the maximum |
| `RetryQueue.OrderedRetryQueue.EnqueueOne` | apps/api/src/ordered-retry-queue.ts:42-51 | refuses when stopped or full, otherwise appends and starts an attempt if none is under way |
| `RetryQueue.OrderedRetryQueue.WaitUntilIdle` | apps/api/src/ordered-retry-queue.ts:53-61 | resolves at once exactly when idle |
| `RetryQueue.OrderedRetryQueue.StopAll` | apps/api/src/ordered-retry-queue.ts:63-77 | discards everything pending, clears the timer, wakes everybody and returns the number discarded |
| `RetryQueue.OrderedRetryQueue.AttemptSucceeded` | apps/api/src/ordered-retry-queue.ts:90-96 | settles the head only if it is still the entry of this attempt |
| `RetryQueue.OrderedRetryQueue.AttemptFailed` | apps/api/src/ordered-retry-queue.ts:97-117 | a transient failure sets the timer, a permanent one settles the head, a stopped queue drops the result |
| `RetryQueue.OrderedRetryQueue.TimerFired` | apps/api/src/ordered-retry-queue.ts:106-109 | the timer starts the next attempt |
| `CoalescedTask.RequestsAreAnswered` | apps/api/src/coalesced-task.ts:12-57 | for every history: runs never overlap, there are no more of them than requests, an idle task has answered every request unless stopped, and nobody waits for a task that is not running |
| `CoalescedTask.NextEndAnswers` | apps/api/src/coalesced-task.ts:41-56 | what was requested during a run is answered as soon as that run ends |
| `CoalescedTask.CoalescingTask.RequestRun` | apps/api/src/coalesced-task.ts:12-18 | a request starts a run exactly when none is under way and the task is not stopped |
| `CoalescedTask.CoalescingTask.TaskSettled` | apps/api/src/coalesced-task.ts:41-56 | the loop runs again exactly when something was requested meanwhile |
| `CoalescedTask.CoalescingTask.StopRuns` | apps/api/src/coalesced-task.ts:27-33 | cancels what was requested and wakes waiters unless a run is under way |
| `ReconcileWiring.ReconcilesBehindTheQueue` | apps/api/src/esl-events.ts:136-144 | each reconciliation starts only after every event accepted before its run began was persisted or permanently rejected: the settled items begin with exactly those |
| `ReconcileWiring.RequestsAreFollowed` | apps/api/src/esl-events.ts:136-144 | runs never overlap and no request is forgotten while the listener runs |
| `ReconcileWiring.IdleQueueWakesTheRun` | apps/api/src/esl-events.ts:136-144 | a run never hangs on a queue that is idle or stopped |
| `EslFraming.ExtractFrames` | apps/api/src/esl-events.ts:1914-1941 | the extraction loop returns the frames and the rest of the specification, and the rest is no longer than the buffer |
| `EslFraming.FrameShortensRest` | apps/api/src/esl-events.ts:1918-1938 | every pass of the loop shortens the rest |
| `EslFraming.SizedWaitsForTheNumber` | apps/api/src/esl-events.ts:1925-1931 | waiting compares the bytes at hand with the content length as a number, fractions included |
| `EslFraming.ExtractInTwo` | apps/api/src/esl-events.ts:1914-1941 | extracting a prefix and carrying its rest over is extracting the whole |
| `EslFraming.ChunkingDoesNotMatter` | apps/api/src/esl-events.ts:179-187 | any two ways of cutting a stream give the same frames and the same rest |
| `EslFraming.MessagesArrive` | apps/api/src/esl-events.ts:1914-1941 | round trip: well-framed messages, cut anywhere, arrive as exactly their frames with nothing left over |
| `EslFraming.EndlessFrameStalls` | apps/api/src/esl-events.ts:1923-1929 | an infinite content length stalls the stream for good |
| `HeaderText.PrintedHeadersAreRead` | apps/api/src/esl-events.ts:1968-1981 | parsing header lines as a sender printed them: every name, lower-cased and trimmed, has the trimmed value of its last line, and there is nothing else |
| `HeaderText.PrintedMessagesArrive` | apps/api/src/esl-events.ts:1914-1941 | round trip from printed lines: messages whose Content-Length, in any spelling, announces the body, cut anywhere, arrive one frame each in order with their headers as said and their body or reply |
| `HeaderText.PrintedEventIsUnwrapped` | apps/api/src/esl-events.ts:1943-1967 | a printed text/event-plain event with a name arrives with its own headers in front of the socket's and its payload as body, after either kind of line ending; without a name the frame stays |
| `HeaderText.SpellingDoesNotMatter` | apps/api/src/esl-events.ts:1914-1941 | the stream Content-Length: 3, a blank line and abc is one frame with that body and nothing left |
| `HeaderText.InfiniteLengthStalls` | apps/api/src/esl-events.ts:1923-1929 | a printed message whose announced length is infinite is never taken, nor anything after it |
| `EslFraming.HeadCompletesIff` | apps/api/src/esl-events.ts:1914-1941 | some continuation completes a head if and only if its content length is not infinite |
| `EslFraming.FrameReader.OnData` | apps/api/src/esl-events.ts:184-187 | after any data events, frames and buffer are those of the whole stream |
| `CsvText.DetectCsvDelimiter` | apps/api/src/dashboard/csv.ts:492-535 | the scanning loop computes the specified delimiter |
| `CsvText.ParseCsvText` | apps/api/src/dashboard/csv.ts:392-490 | the parsing loop computes the specified table or the first error |
| `CsvText.BomIsTrimmed` | apps/api/src/dashboard/csv.ts:468-471 | removing a byte-order mark after trimming never finds one |
| `CsvSpelling.SpelledTableIsParsed` | apps/api/src/dashboard/csv.ts:392-490 | any spelling of a table, cells bare or quoted, either delimiter, any line endings, with or without a last one, is parsed into its trimmed rows without blank ones, or the first limit it exceeds, or what is wrong with its header or widths |
| `CsvSpelling.MajorityDecides` | apps/api/src/dashboard/csv.ts:492-535 | the delimiter is the semicolon exactly if the first line with text has more semicolons than commas outside quotes |
| `CsvSpelling.LeadingBlanksAreSkipped` | apps/api/src/dashboard/csv.ts:492-535 | lines without text before it do not count |
| `CsvRoundTrip.PrintedIsCommaSeparated` | apps/api/src/dashboard/csv.ts:492-535 | whatever the cells hold, the delimiter detected in a printed table is the comma |
| `CsvRoundTrip.ScanQuoted` | apps/api/src/dashboard/csv.ts:412-424 | a quoted cell is read back whole, with any quotes, delimiters and newlines in it |
| `CsvRoundTrip.ScanTable` | apps/api/src/dashboard/csv.ts:408-466 | the scan of a printed table returns its rows that are not blank |
| `CsvRoundTrip.PrintThenParse` | apps/api/src/dashboard/routes.ts:2101-2104 | round trip: parsing the printed table gives back every non-blank row with its cells sanitised and trimmed, unless two sanitised header names agree case-insensitively, which is refused as a duplicate |
| `CsvRoundTrip.SanitisingMergesNames` | apps/api/src/dashboard/routes.ts:2101-2104 | two distinct header names can be stored as one, so distinct raw names are not enough |
| `CsvRoundTrip.MergedNamesAreRefused` | apps/api/src/dashboard/routes.ts:2101-2104 | a printed table whose header holds a formula and the same with a quote before it is refused by the parser as a duplicate header, whatever its rows |
| `CsvRoundTrip.MergedHeaderExample` | apps/api/src/dashboard/csv.ts:468-490 | the header =a,'=a as printed, and its refusal under every limits that admit it |
| `Batching.ChunkValues` | apps/api/src/dashboard/csv.ts:572-578 | the chunks loop cuts as specified |
| `Batching.ChunksFlatten` | apps/api/src/dashboard/csv.ts:572-578 | chunks lose nothing, keep the order and respect the size |
| `Batching.ChunksAreDistinct` | apps/api/src/dashboard/csv.ts:572-578 | no chunk repeats a key if the sequence does not |
| `Batching.SortAscends` | apps/api/src/dashboard/csv.ts:580-597 | the keys are taken in strictly ascending order |
| `CsvImport.ImportContacts` | apps/api/src/dashboard/csv.ts:184-359 | the batched import leaves the table, counts, failures and duplicate verdicts of the row-by-row insert: first row wins, imported plus failed is the total |
| `CsvImport.SortedFirstsSuffice` | apps/api/src/dashboard/csv.ts:259-267 | inserting the sorted first rows is inserting all rows in their order |
| `CsvImport.OneVerdictAgrees` | apps/api/src/dashboard/csv.ts:313-323 | the code calls a row a duplicate exactly when the loop would find its number taken |
| `CsvImport.InsertChunks` | apps/api/src/dashboard/csv.ts:272-311 | chunk by chunk the numbers reported inserted are exactly those added |
| `ImportRules.ColumnsAreFound` | apps/api/src/dashboard/csv.ts:560-570 | a column is the first whose words, in small letters and joined by underscores, are one of its names |
| `ImportRules.ContactRowMeans` | apps/api/src/dashboard/csv.ts:208-236 | a contact row without a name is refused for that, else the normaliser decides; a valid row keeps its number, phone, name and every cell under its last header of that name |
| `ImportRules.SuppressionRowMeans` | apps/api/src/dashboard/csv.ts:47-58 | a suppression row is valid exactly if its number is; a missing or empty reason becomes the standard one |
| `SuppressionImport.ImportSuppression` | apps/api/src/dashboard/csv.ts:25-180 | the import is refused exactly without a phone column; otherwise it leaves the table and counts of the row-by-row upsert: last row wins, imported plus updated plus failed is the total, one event per valid row about an entry that exists, all failures counted and the first 50 reported |
| `SuppressionImport.SortedLastsSuffice` | apps/api/src/dashboard/csv.ts:70-77 | upserting the sorted last rows is upserting all rows in their order |
| `SuppressionImport.UpsertChunks` | apps/api/src/dashboard/csv.ts:84-126 | each chunk's statement is accepted where it runs, so none updates one number twice; together they are one upsert of all rows, and the count is of the numbers added |
| `EarlyMedia.OperationsNeverOverlap` | apps/api/src/early-media-fallback.ts:61-64 | operations of a record never overlap and at most one of its timers is live |
| `EarlyMedia.ToneIsAllowedOnce` | apps/api/src/early-media-fallback.ts:104-164 | no tone is requested after termination or after callee media was detected, and one starts at most once |
| `EarlyMedia.DetectedIsSilent` | apps/api/src/early-media-fallback.ts:118-128 | once callee media is detected no tone is active and one that started was followed by a break |
| `EarlyMedia.IdleAfterTerminationIsSilent` | apps/api/src/early-media-fallback.ts:166-178 | once the chain is idle after termination no tone is active and one that started was followed by a break |
| `EarlyMedia.BreakNamesTonedLegIff` | apps/api/src/early-media-fallback.ts:166-178 | in every run of a record, a break goes to the leg that hears the tone if and only if that leg is the one the last agent event with a leg named |
| `EarlyMedia.BreakNamesTonedLeg` | apps/api/src/early-media-fallback.ts:74-91 | as long as all agent events of a run name one leg, every tone requested or started and every break goes to that leg |
| `EarlyMedia.BreakCanMissTheTone` | apps/api/src/early-media-fallback.ts:74-91 | in any valid state with an active tone and an idle chain, an agent event with another leg followed by a bridge sends the break to that other leg |
| `EarlyMedia.BreakMissesTheTone` | apps/api/src/early-media-fallback.ts:74-91 | eleven steps from a fresh record after which leg 1 has the tone and only leg 3 was told to stop |
| `EarlyMedia.FallbackState.HandleFrame` | apps/api/src/early-media-fallback.ts:180-239 | an event names its own side's leg; the customer's answer, the end of either leg and a bridge end the ringing: the timer is cleared and a stop queued behind what runs; otherwise the record stays as it is but for an inspection timer, set by the customer's creation or progress media unless media was detected or the ringing has ended |
| `EarlyMedia.FallbackState.StartQueued` | apps/api/src/early-media-fallback.ts:104-113 | case by case: a stop breaks an active tone on the agent's leg, an inspection ends at once after termination or detection, is tried again while a leg is missing, and else asks for statistics |
| `EarlyMedia.FallbackState.ResumeOperation` | apps/api/src/early-media-fallback.ts:115-163 | case by case for each awaited command and each way it ends: a positive packet count means detected media and breaks an active tone; otherwise the tone is asked for after the answer hook is in place unless the ringing has ended or it plays already; a failed command only leads to another try |
| `EarlyMedia.FallbackState.TerminateRecord` | apps/api/src/early-media-fallback.ts:166-178 | the record is terminated without a timer and with a stop queued behind whatever runs; nothing else about it changes |
| `EarlyMedia.RingingEndsForGood` | apps/api/src/early-media-fallback.ts:166-239 | whatever came before, an event that ends the ringing ends it for good: no tone is asked for in any continuation of the run |
| `EarlyMedia.DetectedIff` | apps/api/src/early-media-fallback.ts:115-128 | media is detected exactly by a step that reads a positive packet count, and stays detected |
| `HistoryExport.TailIsBelow` | apps/api/src/dashboard/responders.ts:691-697 | what follows the k-th row of the listing is the listing of the rows below it |
| `HistoryExport.NextPage` | apps/api/src/dashboard/responders.ts:686-697 | with the newest row as snapshot, the next page shows the next rows, whatever newer ones came in between |
| `HistoryExport.EmitPages` | apps/api/src/dashboard/routes.ts:2127-2162 | the paging loop emits each row at most once, in order; all of them while the table is stable up to the snapshot, and every row that is there at every query while matching rows up to the snapshot only disappear |
| `HistoryExport.ExportHistory` | apps/api/src/dashboard/routes.ts:2165-2176 | the export is refused exactly above the maximum; otherwise its rows strictly descend, equal one sorted query when only newer calls come and go, and hold every call present throughout when older ones only disappear |
| `RecordingClaims.OneResultPerRecording` | apps/api/src/call-recording-finalizer.ts:141-284 | with any number of workers and stale re-claims a recording gets at most one finalized-or-failed event, from its newest claim, and is available or failed as that event says |
| `RecordingClaims.ClaimMeans` | apps/api/src/call-recording-finalizer.ts:141-183 | a recording is claimed exactly when its call is over, it has a file, and it waits since the grace period or was claimed too long ago |
| `RecordingClaims.MarkMeans` | apps/api/src/call-recording-finalizer.ts:185-284 | a mark is written exactly while its claim's token is on the row, with the status of its verdict and one event |
| `RecordingClaims.StaleClaimIsFenced` | apps/api/src/call-recording-finalizer.ts:185-284 | a superseded claim's mark changes nothing |
| `RecordingClaims.FinalizeClaims` | apps/api/src/call-recording-finalizer.ts:66-94 | a completed run, other workers running before every mark, counts every claim once; its claims wrote as many failed events as it counts as failed, and as many finalized ones as it counts as available plus one for each pass whose claim was still held and whose mark committed but reported an error |
| `RecordingClaims.PassMeans` | apps/api/src/call-recording-finalizer.ts:76-92 | one pass: available and counted so for a good file, failed and counted so for a bad one, skipped when the claim is not held any more; a mark that seems to fail is followed by one as failed |
| `RecordingClaims.CommitIsHidden` | apps/api/src/call-recording-finalizer.ts:76-92 | the run in which a recording is claimed, marked and logged, and counted as skipped |
| `RecordingClaims.ClaimPage` | apps/api/src/call-recording-finalizer.ts:141-183 | every claim of the page is held when it is returned, with a fresh token |
| `RuntimeSettings.UpdateIsAllOrNothing` | apps/api/src/runtime-settings.ts:117-179 | whatever step fails, row, configuration and file afterwards describe one value: the new one if the update went through, the previous one if not |
| `RuntimeSettings.ApplyMeans` | apps/api/src/runtime-settings.ts:185-207 | an empty caller id is none, and a channel is on exactly when it is asked for and configured |
| `RuntimeSettings.RenderMeans` | apps/api/src/runtime-settings.ts:366-392 | the file lists each channel that is on once, with its own addresses, webhook before Slack before Telegram |
| `RuntimeSettings.AgreementLostIff` | apps/api/src/runtime-settings.ts:162-175 | the three can disagree exactly when the file had been touched and the rollback's own write failed |
| `RuntimeSettings.AgreementReturnsIff` | apps/api/src/runtime-settings.ts:117-179 | from any state, a disagreement included: row and configuration never part, and with a file path the file agrees again exactly after an update that goes through or whose rollback leaves the file whole; an update that does not reach the file changes nothing about it |
| `RuntimeSettings.QueueIsSerial` | apps/api/src/runtime-settings.ts:108-115 | after any queue of updates, rollbacks that fail included, the last one that went through is in force in row and configuration, and the file agrees with them if and only if the last update that touched it left it whole |
| `RuntimeSettings.WritingRollbacksAgree` | apps/api/src/runtime-settings.ts:108-115 | nothing is lost while every rollback can write |
| `RuntimeSettings.StatusIsCurrent` | apps/api/src/runtime-settings.ts:263-329 | whatever updates and late answers interleave, the reported status is never that of a superseded configuration |
| `RuntimeSettings.StatusIsHeard` | apps/api/src/runtime-settings.ts:263-323 | in every run: the status is applied exactly after a success of the newest configuration's own reload, failed exactly after its tenth failure, and pending with the loop going on until then; answers to older reloads do not count |
| `RuntimeSettings.RuntimeSettingsService.Initialize` | apps/api/src/runtime-settings.ts:67-78 | start-up applies the stored row over the environment and writes the file; when the write fails it stops there, with row and configuration in agreement and no reload scheduled |
| `RuntimeSettings.RuntimeSettingsService.PerformUpdate` | apps/api/src/runtime-settings.ts:117-179 | an update succeeds exactly when it is valid and no step fails, and leaves the specified state |
| `RuntimeSettings.RuntimeSettingsService.RunQueue` | apps/api/src/runtime-settings.ts:108-115 | the queue is worked off in order, whatever fails; afterwards row, configuration and file agree exactly if there is no file or its last write was whole |

## Left out

- Row locks, deadlocks and the re-evaluation of conditions under READ COMMITTED: transactions are atomic steps.
- ExactlyOnce.ExactlyOnceEffect: does not compare agent rows, because a replay may refresh an agent's status from its registration.
- EventDelivery.QueueAppliesInOrder: the queue is the only writer of the database; other writers interleave in the lifecycle model.
- The log rows of `startCallRecording` and `startVoicemailDetection` and the claim of the recording columns before them: the event log the exactly-once statements compare is the one without them.
- A stored settings row that does not parse, which ends the start-up before anything changes.
- The admin route that marks a contact complete and the retention jobs that delete rows: they would only weaken the reservation statements by a further writer outside the protocol.
- The log rows of commands sent or failed (such as `voicemail_drop_failed` and `agent_release_failed`): nothing in the model reads them.
- The late error write of `startCallRecording` and the removal of expired recordings: they are not part of the claim protocol.
- Voicemail detection as a FreeSWITCH command, media statistics, packet captures and their coordinator, metrics, dashboards, login and password handling.
- Recording and media columns of a call in the lifecycle model, and the modes and target legs of a supervision: no guard of the modelled transactions reads them.
- The Prometheus counters and log lines around every operation.
- The early-media controller's map of records by call: a record begins with the first creation or progress-media event of a leg and is dropped after its termination settled; the model is one record.
- Multi-byte bodies on the event socket, where the code mixes byte lengths with character offsets.
- CsvRoundTrip.PrintThenParse: lone surrogates are not characters of the model.
- The claim of a voicemail drop, the updates of a running supervision, registration and availability, and the wiring of queue and reconciliation: functions of the state without a method that updates it in place.
- Real delays of timers: a timer fires at any later moment.
- Rendering of the alert manager's YAML: the file is the list of receivers and the repeat interval it is rendered from.
- Reads that only report (call detail, live calls, provisioning), and the channel checks before a supervision starts.
