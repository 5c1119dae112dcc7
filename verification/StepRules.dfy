/**
 What one step of the call control does, step by step: the transactions as their
 callers know them, and the operations that go on after an await with what they read.
 */
module StepRules {
  import opened Wrappers
  import opened DialerDb
  import opened Terms
  import opened Finalization
  import opened VoicemailDrop
  import opened ChannelEvents
  import opened CallActions
  import opened UserAccess
  import opened TransactionEffects
  import opened CallEndings
  import opened SmallUpdates
  import opened Lifecycle

  // ---------------------------------------------------------------- transactions

  /** What the caller of each transaction may rely on, for the database before and after. */
  ghost predicate TransactionMeans(a: Db, b: Db, step: Step, now: Time) {
    match step
    case Create(actor, agent, lead, policy, id, agentLeg, customerLeg) =>
      if && agent in a.agents && a.agents[agent].userId == actor
         && MayDial(a, actor, agent, policy, now, LeadOf(lead), lead.ChosenLead? && lead.confirmCompleted,
                    lead.ChosenLead? && lead.confirmRetryWait)
         && (lead.NextLead? ==> lead.picked.Some? && a.contacts[lead.picked.value].campaignId == lead.campaign)
         && id !in a.calls && agentLeg !in a.legs && customerLeg !in a.legs && agentLeg != customerLeg
      then CallStartedFor(a, b, agent, lead, id, agentLeg, customerLeg, now) else b == a
    case Generic(e) => EventSeen(a, b, e, now)
    case LogHangup(e) => b == a.(events := b.events) && Logged(a.events, b.events, CallEvent(e.callId, ChannelEventSeen, e.uuid))
    case Finalize(id, resolver, event, logWhenFinal) =>
      exists status :: CallFinalized(a, b, status, id, resolver, event, logWhenFinal, now)
    case PlaybackStarted(id) => PlaybackStarts(a, b, id, now)
    case ReleaseForPlayback(id) => AgentReleasedFrom(a, b, id, now)
    case PlaybackCompleted(id) => PlaybackCompletes(a, b, id, now)
    case AgentEnds(id, user) =>
      if Owns(a, id, user) && NeedsAgent(a.calls[id]) then AgentEnded(a, b, id, now) else b == a
    case SetStatus(id, user, outcome) =>
      if Owns(a, id, user) && IsOver(a.calls[id]) && a.calls[id].lockedAt.None? then StatusSet(a, b, id, outcome, now) else b == a
    case ChangeUser(user, role, active) =>
      if user in a.users && !CutsOff(a, user, role, active) then AccountSet(a, b, user, role, active) else b == a
    case RemoveUser(user) =>
      if user in a.users && !OnACall(a, user) && !Supervising(a.sessions, user) then UserRemoved(a, b, user) else b == a
    case Supervise(session, actor, call, leg) =>
      if MaySupervise(a, actor) && session !in a.sessions then SessionOpened(a, b, session, actor, call, leg) else b == a
    case _ => true
  }

  /** Transactions on calls leave suspended operations and histories alone and mean what their callers rely on. */
  lemma TransactionsMean(w: World, step: Step)
    requires SchemaValid(w.db)
    requires step.Generic? || step.LogHangup? || step.Finalize? || step.PlaybackStarted? || step.ReleaseForPlayback?
             || step.PlaybackCompleted?
    ensures OnlyDb(w, step) && TransactionMeans(w.db, After(w, step), step, w.now)
  {
    hide EventSeen, CallFinalized, PlaybackStarts, AgentReleasedFrom, PlaybackCompletes, SchemaValid, Logged, FinalizeCall,
      GenericEvent, Log, MarkPlaybackStarted, ReleaseAgent, FinalizeCompleted;
    match step
    case Generic(e) => GenericMeans(w.db, e, w.now);
    case LogHangup(e) => LogLogs(w.db, CallEvent(e.callId, ChannelEventSeen, e.uuid));
    case Finalize(id, resolver, event, logWhenFinal) => FinalizeMeans(w.db, id, resolver, event, logWhenFinal, w.now);
    case PlaybackStarted(id) => PlaybackStartedMeans(w.db, id, w.now);
    case ReleaseForPlayback(id) => ReleaseMeans(w.db, id, w.now);
    case PlaybackCompleted(id) => CompletedMeans(w.db, id, w.now);
  }

  /** So do the transactions of users. */
  lemma RequestsMean(w: World, step: Step)
    requires SchemaValid(w.db)
    requires step.Create? || step.AgentEnds? || step.SetStatus? || step.ChangeUser? || step.RemoveUser? || step.Supervise?
    ensures OnlyDb(w, step) && TransactionMeans(w.db, After(w, step), step, w.now)
  {
    hide CallStartedFor, AgentEnded, StatusSet, AccountSet, UserRemoved, SessionOpened, MayDial, NeedsAgent, IsOver, CutsOff,
      OnACall, Supervising, MaySupervise, Owns, CreateDialerCall, EndDialerCall, SetManualStatus, UpdateUser, DeleteUser, StartSession;
    match step
    case Create(actor, agent, lead, policy, id, agentLeg, customerLeg) =>
      CallStartsIffAllowed(w.db, actor, agent, lead, policy, id, agentLeg, customerLeg, w.now);
      CreateMeans(w.db, actor, agent, lead, policy, id, agentLeg, customerLeg, w.now);
    case AgentEnds(id, user) => AgentEndOfStored(w.db, id, user, w.now);
    case SetStatus(id, user, outcome) => ManualStatusMeans(w.db, id, user, outcome, w.now);
    case ChangeUser(user, role, active) => ChangeUserMeans(w.db, user, role, active);
    case RemoveUser(user) => RemoveUserMeans(w.db, user);
    case Supervise(session, actor, call, leg) => SuperviseMeans(w.db, session, actor, call, leg);
  }

  lemma AgentEndOfStored(db: Db, id: CallId, user: UserId, now: Time)
    requires SchemaValid(db)
    ensures var (b, ended) := EndDialerCall(db, id, user, now);
            && (ended <==> Owns(db, id, user) && NeedsAgent(db.calls[id]))
            && (if ended then AgentEnded(db, b, id, now) else b == db)
  {
    AgentEndMeans(db, id, user, now);
    hide EndDialerCall, AgentEnded, NeedsAgent, LockValid;
  }

  /** A campaign's reset is remembered with its time, and only when it took place. */
  lemma ResetsMean(w: World, campaign: CampaignId)
    ensures var after := Effect(w, Reset(campaign));
            if campaign in w.db.campaigns && CampaignQuiet(w.db, campaign)
            then
              && LeadsReset(w.db, after.db, campaign)
              && after == w.(db := after.db, lastReset := w.lastReset[campaign := w.now])
            else after == w
  {
    ResetMeans(w.db, campaign);
    hide ResetCampaign, LeadsReset, CampaignQuiet, CampaignBusy;
  }

  // ---------------------------------------------------------------- a voicemail drop between its awaits

  /** The statements of the claim. */
  lemma ClaimedRow(db: Db, id: CallId, user: UserId, now: Time)
    requires SchemaValid(db)
    ensures var after := ClaimDrop(db, id, user, now);
            if Owns(db, id, user) && db.calls[id].endedAt.None? && db.calls[id].state in {Bridged, VoicemailSignalDetected}
            then
              && after == db.(calls := after.calls, events := after.events)
              && after.calls
                 == db.calls[id := db.calls[id].(state := VoicemailDropRequested, updatedAt := now,
                                                 dropRequestedAt := if db.calls[id].dropRequestedAt.Some?
                                                                    then db.calls[id].dropRequestedAt else Some(now))]
              && Logged(db.events, after.events, CallEvent(id, DropRequestedEvent, None))
            else after == db
  {
    if id in db.calls {
      assert LockValid(db.calls[id]);
      var call := db.calls[id];
      var row := call.(state := VoicemailDropRequested, dropRequestedAt := Coalesce(call.dropRequestedAt, Some(now)), updatedAt := now);
      LogLogs(db.(calls := db.calls[id := row]), CallEvent(id, DropRequestedEvent, None));
      hide Log, Logged;
    }
  }

  /**
   The claim of a drop: a connected call of the user's agent, with the first request kept and the request logged
   once; the operation goes on with the agent and the state it claimed from.
   */
  lemma ClaimMeans(w: World, id: CallId, user: UserId)
    requires SchemaValid(w.db)
    ensures var (db, after) := (w.db, Effect(w, ClaimVoicemail(id, user)));
            if Owns(db, id, user) && db.calls[id].endedAt.None? && db.calls[id].state in {Bridged, VoicemailSignalDetected}
            then
              && after == w.(db := db.(calls := after.db.calls, events := after.db.events), tasks := after.tasks)
              && after.db.calls
                 == db.calls[id := db.calls[id].(state := VoicemailDropRequested, updatedAt := w.now,
                                                 dropRequestedAt := if db.calls[id].dropRequestedAt.Some?
                                                                    then db.calls[id].dropRequestedAt else Some(w.now))]
              && Logged(db.events, after.db.events, CallEvent(id, DropRequestedEvent, None))
              && after.tasks == w.tasks + multiset{SendDropCommands(id, db.calls[id].agentId.value, db.calls[id].state)}
            else after == w
  {
    ClaimedRow(w.db, id, user, w.now);
    hide ClaimDrop, Logged, SchemaValid;
  }

  /** The operation is over, or goes on as the next task; nothing but the database changed besides. */
  predicate GoesOn(w: World, after: World, task: Task, next: Option<Task>) {
    after == w.(db := after.db, tasks := w.tasks - multiset{task} + if next.Some? then multiset{next.value} else multiset{})
  }

  /**
   The answer to the drop's commands: a rejected transfer takes the call back to where it was claimed as long as it
   still only is requested; with the agent's leg gone the release is logged and goes on to its mark; after an unclear
   answer nothing more is done.
   */
  lemma AnswersMean(w: World, task: Task, answer: DropAnswer)
    requires SchemaValid(w.db) && task in w.tasks && task.SendDropCommands?
    requires task.claimedState in {Bridged, VoicemailSignalDetected}
    ensures var (db, after, id) := (w.db, Effect(w, AnswerDrop(task, answer)), task.callId);
            && GoesOn(w, after, task, if answer == AgentLegGone then Some(ReleaseMark(id, task.agent)) else None)
            && if answer == TransferRejected && id in db.calls && db.calls[id].endedAt.None?
                  && db.calls[id].state == VoicemailDropRequested
               then after.db == db.(calls := db.calls[id := db.calls[id].(state := task.claimedState, dropRequestedAt := None,
                                                                          updatedAt := w.now)])
               else if answer == AgentLegGone
               then after.db == db.(events := after.db.events)
                    && Logged(db.events, after.db.events, CallEvent(id, AgentReleasedEvent, None))
               else after.db == db
  {
    LogLogs(w.db, CallEvent(task.callId, AgentReleasedEvent, None));
    if task.callId in w.db.calls {
      assert LockValid(w.db.calls[task.callId]);
    }
    hide Log, Logged;
  }

  lemma MarkedRow(db: Db, id: CallId, now: Time)
    requires SchemaValid(db)
    ensures MarkReleased(db, id, now)
         == if InDrop(db, id)
            then db.(calls := db.calls[id := db.calls[id].(
                       state := AgentReleased, updatedAt := now,
                       agentReleasedAt := if db.calls[id].agentReleasedAt.Some? then db.calls[id].agentReleasedAt else Some(now))])
            else db
  {
    if id in db.calls {
      assert LockValid(db.calls[id]);
    }
  }

  /** The release after the transfer: its mark, with the first release kept; the agent's leg; the agent. */
  lemma ReleasesMean(w: World, task: Task)
    requires SchemaValid(w.db) && task in w.tasks && (task.ReleaseMark? || task.ReleaseLegs? || task.ReleaseFinish?)
    ensures var (db, after, id) := (w.db, Effect(w, RunTask(task)), task.callId);
            && GoesOn(w, after, task,
                      if task.ReleaseMark? then Some(ReleaseLegs(id, task.agent))
                      else if task.ReleaseLegs? then Some(ReleaseFinish(id, task.agent)) else None)
            && (task.ReleaseMark? ==>
                  if InDrop(db, id)
                  then after.db == db.(calls := db.calls[id := db.calls[id].(
                                         state := AgentReleased, updatedAt := w.now,
                                         agentReleasedAt := if db.calls[id].agentReleasedAt.Some?
                                                            then db.calls[id].agentReleasedAt else Some(w.now))])
                  else after.db == db)
            && (task.ReleaseLegs? ==> after.db == db.(legs := after.db.legs) && LegsOver(db, after.db, id, Some(AgentLeg)))
            && (task.ReleaseFinish? ==> after.db == db.(agents := after.db.agents) && AgentLetGo(db, after.db, Some(task.agent)))
  {
    MarkedRow(w.db, task.callId, w.now);
    CloseEndsLegs(w.db, task.callId, Some(AgentLeg), w.now);
    FinishLetsGo(w.db, Some(task.agent));
    hide LegsOver, AgentLetGo, CloseLegs, FinishAgent, MarkReleased, SchemaValid;
  }

  /** The caller of the incomplete end reads the contact and, unless it timed out, whether the agent was released. */
  lemma ReadsMean(w: World, id: CallId, failed: bool, timedOut: bool)
    ensures var after := Effect(w, ReadDrop(id, failed, timedOut));
            if InDrop(w.db, id)
            then
              var released := !timedOut && w.db.calls[id].state == AgentReleased;
              after == w.(tasks := w.tasks + multiset{EndDrop(id, failed, released, w.db.calls[id].contactId)})
            else after == w
  {
    InDropIsListed(w.db, id);
    hide InDrop, DropInProgress;
  }

  /** And ends the drop by what it read. */
  lemma EndsMean(w: World, task: Task)
    requires SchemaValid(w.db) && task in w.tasks && task.EndDrop?
    ensures var after := Effect(w, RunTask(task));
            && GoesOn(w, after, task, None)
            && PlaybackBreaksOff(w.db, after.db, task.callId, task.failed, task.agentReleased, task.contact, w.now)
  {
    IncompleteMeans(w.db, task.callId, task.failed, task.agentReleased, task.contact, w.now);
    hide PlaybackBreaksOff, FinalizeIncomplete, SchemaValid;
  }

  /** A lost operation changes no row; it is remembered for the agent when its mark was made and the agent not freed yet. */
  lemma LossesMean(w: World, task: Task)
    ensures var after := Effect(w, LoseTask(task));
            if task in w.tasks
            then
              && GoesOn(w, after.(lost := w.lost), task, None) && after.db == w.db
              && after.lost == w.lost + if task.ReleaseLegs? || task.ReleaseFinish? then {task.agent} else {}
            else after == w
  {
  }

  // ---------------------------------------------------------------- every step

  /** Time goes on with every step; a lost release is forgotten once its agent is not in a call any more. */
  lemma StepsTakeTime(w: World, step: Step)
    ensures var (done, after) := (Effect(w, step), Apply(w, step));
            && after == done.(lost := after.lost, now := after.now)
            && after.now == w.now + 1
            && forall a :: a in after.lost <==> a in done.lost && a in done.db.agents && done.db.agents[a].status == InCall
  {
    hide Effect;
  }
}
