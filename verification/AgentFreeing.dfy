/**
 Which steps take an agent out of "in_call": the transactions that finish with
 finishAgentCall (agent-availability.ts), when no active call occupies it then, and
 the retirement of its user (auth/routes.ts). No other step does.
 */
module AgentFreeing {
  import opened Wrappers
  import opened DialerDb
  import opened Finalization
  import opened VoicemailDrop
  import opened ChannelEvents
  import opened CallActions
  import opened UserAccess
  import opened TransactionEffects
  import opened Lifecycle
  import opened LifecycleTransactions
  import opened CallTransactions
  import opened LifecycleInvariant

  /** The agent a step runs finishAgentCall for. */
  function FinishedAgent(w: World, step: Step): Option<AgentId> {
    match step
    case Finalize(id, resolver, event, logWhenFinal) =>
      var status := FinalizeCall(w.db, id, resolver, event, logWhenFinal, w.now).1;
      if id in w.db.calls && (status == Finalized || status == AlreadyFinalized) then w.db.calls[id].agentId else None
    case PlaybackCompleted(id) =>
      if DropInProgress(w.db, id) && w.db.calls[id].agentReleasedAt.None? then w.db.calls[id].agentId else None
    case ReleaseForPlayback(id) => if DropInProgress(w.db, id) then w.db.calls[id].agentId else None
    case AgentEnds(id, user) => if OwnedBy(w.db, id, user) && Active(w.db.calls[id]) then w.db.calls[id].agentId else None
    case RunTask(task) =>
      if task !in w.tasks then None
      else if task.ReleaseFinish? then Some(task.agent)
      else if task.EndDrop? && DropInProgress(w.db, task.callId) && !task.agentReleased then w.db.calls[task.callId].agentId
      else None
    case _ => None
  }

  /** The step deactivates or removes the user of the agent. */
  predicate Retires(w: World, step: Step, a: AgentId) {
    && a in w.db.agents
    && match step
       case ChangeUser(user, role, active) =>
         && w.db.agents[a].userId == user && user in w.db.users && w.db.users[user].active && active == Some(false)
         && UpdateUser(w.db, user, role, active).1 == AccountChanged
       case RemoveUser(user) => w.db.agents[a].userId == user && DeleteUser(w.db, user).1 == AccountChanged
       case _ => false
  }

  predicate Frees(w: World, step: Step, a: AgentId) {
    || Retires(w, step, a)
    || (FinishedAgent(w, step) == Some(a) && !HasActiveCall(Apply(w, step).db.calls, a))
  }

  predicate IsInCall(db: Db, a: AgentId) {
    a in db.agents && db.agents[a].status == InCall
  }

  // ---------------------------------------------------------------- what each transaction does to the agents

  ghost predicate Finishes(a: Db, b: Db, agent: Option<AgentId>) {
    b.agents == FinishAgent(a.(calls := b.calls), agent).agents
  }

  lemma FinishIs(a: Db, m: Db, b: Db, agent: Option<AgentId>)
    requires m.agents == a.agents && b == FinishAgent(m, agent)
    ensures Finishes(a, b, agent)
  {
    hide FinishAgent;
    FinishReadsAgents(a.(calls := b.calls), m, agent);
  }

  lemma NothingFinishes(a: Db, b: Db)
    requires b.agents == a.agents
    ensures Finishes(a, b, None)
  {
  }

  lemma CleanupFinishes(a: Db, m: Db, id: CallId, now: Time)
    requires id in m.calls && m.agents == a.agents
    ensures Finishes(a, Cleanup(m, id, now), m.calls[id].agentId)
  {
    hide Finishes, FinishAgent, CloseLegs, ReturnLeadUnlessHeld;
    var closed := CloseLegs(m, id, None, now);
    var returned := ReturnLeadUnlessHeld(closed, m.calls[id].contactId, ContactStatusFor(m.calls[id].outcome), id);
    FinishIs(a, returned, Cleanup(m, id, now), m.calls[id].agentId);
  }

  lemma GuardKeepsAgent(call: Call, decision: Decision, now: Time)
    requires GuardUpdate(call, EndedRow(call, decision, now)).Some?
    ensures GuardUpdate(call, EndedRow(call, decision, now)).value.agentId == call.agentId
  {
  }

  lemma UnfinishedFinishes(db: Db, id: CallId, resolver: Resolver, event: Option<CallEvent>, now: Time)
    requires id in db.calls && !IsFinalized(db.calls[id])
    ensures var (b, status) := FinalizeUnfinished(db, id, resolver, event, now);
            Finishes(db, b, if status == Finalized then db.calls[id].agentId else None) && status != AlreadyFinalized
  {
    hide Finishes, LogOptional, Cleanup, EndedRow, Decide, IsFinalized, GuardUpdate;
    NothingFinishes(db, db);
    if Decide(db.calls[id], resolver).Some? {
      var decision := Decide(db.calls[id], resolver).value;
      var updated := PutCall(LogOptional(db, event), id, EndedRow(db.calls[id], decision, now));
      if updated.Some? {
        GuardKeepsAgent(db.calls[id], decision, now);
        CleanupFinishes(db, updated.value, id, now);
      }
    }
  }

  lemma FinalizeFinishes(db: Db, id: CallId, resolver: Resolver, event: Option<CallEvent>, logWhenFinal: bool, now: Time)
    ensures var (b, status) := FinalizeCall(db, id, resolver, event, logWhenFinal, now);
            Finishes(db, b, if id in db.calls && (status == Finalized || status == AlreadyFinalized)
                            then db.calls[id].agentId else None)
  {
    hide Finishes, LogOptional, Cleanup, FinalizeUnfinished, IsFinalized;
    NothingFinishes(db, db);
    if id in db.calls {
      if IsFinalized(db.calls[id]) {
        CleanupFinishes(db, if logWhenFinal then LogOptional(db, event) else db, id, now);
      } else {
        UnfinishedFinishes(db, id, resolver, event, now);
      }
    }
  }

  lemma CloseDropFinishes(a: Db, m: Db, event: CallEvent, contact: Option<ContactId>, status: ContactStatus,
                          agent: Option<AgentId>, now: Time)
    requires m.agents == a.agents
    ensures Finishes(a, CloseDrop(m, event, contact, status, agent, now), agent)
  {
    hide Finishes, FinishAgent, CloseLegs, ReturnLead, Log;
    var returned := ReturnLead(CloseLegs(Log(m, event), event.callId, None, now), contact, status);
    FinishIs(a, returned, CloseDrop(m, event, contact, status, agent, now), agent);
  }

  lemma CompletedFinishes(db: Db, id: CallId, now: Time)
    requires id in db.calls ==> CallRowOk(db.calls[id])
    ensures Finishes(db, FinalizeCompleted(db, id, now),
                     if DropInProgress(db, id) && db.calls[id].agentReleasedAt.None? then db.calls[id].agentId else None)
  {
    hide Finishes, CloseDrop, CompletedRow, GuardUpdate, CallRowOk, RowSteps, Open, Active, IsVoicemailDropActive;
    NothingFinishes(db, db);
    if DropInProgress(db, id) {
      var call := db.calls[id];
      DropEndRows(call, false, now);
      CloseDropFinishes(db, db.(calls := db.calls[id := CompletedRow(call, now)]), CallEvent(id, PlaybackCompletedEvent, None),
                        call.contactId, Done, if call.agentReleasedAt.None? then call.agentId else None, now);
    }
  }

  lemma IncompleteFinishes(db: Db, id: CallId, failed: bool, released: bool, contact: Option<ContactId>, now: Time)
    requires id in db.calls ==> CallRowOk(db.calls[id])
    ensures Finishes(db, FinalizeIncomplete(db, id, failed, released, contact, now),
                     if DropInProgress(db, id) && !released then db.calls[id].agentId else None)
  {
    hide Finishes, CloseDrop, IncompleteRow, GuardUpdate, CallRowOk, RowSteps, Open, Active, IsVoicemailDropActive;
    NothingFinishes(db, db);
    if DropInProgress(db, id) {
      var call := db.calls[id];
      DropEndRows(call, failed, now);
      CloseDropFinishes(db, db.(calls := db.calls[id := IncompleteRow(call, failed, now)]), IncompleteEvent(id, failed),
                        contact, New, if released then None else call.agentId, now);
    }
  }

  lemma MarkReleasedKeepsAgents(db: Db, id: CallId, now: Time)
    ensures MarkReleased(db, id, now).agents == db.agents
  {
    hide UpdateCall, IsVoicemailDropActive;
  }

  lemma ReleaseFinishes(db: Db, id: CallId, now: Time)
    ensures Finishes(db, ReleaseAgent(db, id, now), if DropInProgress(db, id) then db.calls[id].agentId else None)
  {
    hide Finishes, MarkReleased, Log, CloseLegs, FinishAgent, IsVoicemailDropActive;
    NothingFinishes(db, db);
    if DropInProgress(db, id) {
      var logged := Log(db, CallEvent(id, AgentReleasedEvent, None));
      MarkReleasedKeepsAgents(logged, id, now);
      FinishIs(db, CloseLegs(MarkReleased(logged, id, now), id, Some(AgentLeg), now), ReleaseAgent(db, id, now),
               db.calls[id].agentId);
    }
  }

  lemma AgentEndFinishes(db: Db, id: CallId, user: UserId, now: Time)
    requires id in db.calls ==> CallRowOk(db.calls[id])
    ensures Finishes(db, EndDialerCall(db, id, user, now).0,
                     if OwnedBy(db, id, user) && Active(db.calls[id]) then db.calls[id].agentId else None)
  {
    hide Finishes, CallRowOk, GuardUpdate, AgentEndedRow, Log, CloseLegs, ReturnLead, FinishAgent, Active, Open, RowSteps;
    NothingFinishes(db, db);
    if OwnedBy(db, id, user) && Active(db.calls[id]) {
      var call := db.calls[id];
      AgentEndRow(call, now);
      var m := db.(calls := db.calls[id := AgentEndedRow(call, now)]);
      var status := if InferAgentEndOutcome(call.state) == AgentCanceled then New else Done;
      var returned := ReturnLead(CloseLegs(Log(m, CallEvent(id, CallEndedEvent, None)), id, None, now), call.contactId, status);
      FinishIs(db, returned, EndDialerCall(db, id, user, now).0, call.agentId);
    }
  }

  lemma UpdatesKeepAgents(db: Db, id: CallId, detected: bool, now: Time)
    ensures OriginateQueued(db, id, now).agents == db.agents && VoicemailSignal(db, id, detected, now).agents == db.agents
  {
    hide UpdateCall, IsTerminal, Open;
  }

  lemma DropUpdatesKeepAgents(db: Db, id: CallId, claimed: CallState, now: Time)
    ensures MarkPlaybackStarted(db, id, now).agents == db.agents && RevertDrop(db, id, claimed, now).agents == db.agents
  {
    hide UpdateCall, Log, IsVoicemailDropActive;
  }

  lemma StatusKeepsAgents(db: Db, id: CallId, user: UserId, outcome: Outcome, now: Time)
    ensures SetManualStatus(db, id, user, outcome, now).0.agents == db.agents
  {
    hide Log, IsTerminal, TerminalStateFor, ManualRow, GuardUpdate;
    if OwnedBy(db, id, user) && db.calls[id].lockedAt.None? {
      ManualRowPasses(db.calls[id], outcome, now);
    }
  }

  lemma ClaimKeepsAgents(db: Db, id: CallId, user: UserId, now: Time)
    ensures ClaimDrop(db, id, user, now).agents == db.agents
  {
    hide PutCall, Log;
  }

  lemma GenericKeepsAgents(db: Db, e: TaggedEvent, now: Time)
    ensures GenericEvent(db, e, now).agents == db.agents
  {
    hide PutCall, LogTagged, TouchLegs, AdvancedRow;
  }

  // ---------------------------------------------------------------- every step

  lemma CallStepFinishes(w: World, step: Step)
    requires CallsOk(w)
    requires step.QueueOriginate? || step.Generic? || step.Signal? || step.PlaybackStarted? || step.ReleaseForPlayback?
             || step.PlaybackCompleted? || step.Finalize? || step.AgentEnds? || step.SetStatus?
    ensures Finishes(w.db, Effect(w, step).db, FinishedAgent(w, step))
  {
    hide OriginateQueued, GenericEvent, VoicemailSignal, MarkPlaybackStarted, ReleaseAgent, FinalizeCompleted, FinalizeCall,
      EndDialerCall, SetManualStatus, FinishAgent, RefsOk, CallRowOk, Active, OwnedBy, DropInProgress, Finishes;
    if step.Generic? {
      GenericKeepsAgents(w.db, step.e, w.now);
      NothingFinishes(w.db, Effect(w, step).db);
    } else if step.ReleaseForPlayback? {
      ReleaseFinishes(w.db, step.id, w.now);
    } else if step.PlaybackCompleted? {
      CompletedFinishes(w.db, step.id, w.now);
    } else if step.Finalize? {
      FinalizeFinishes(w.db, step.id, step.resolver, step.event, step.logWhenFinal, w.now);
    } else if step.AgentEnds? {
      AgentEndFinishes(w.db, step.id, step.user, w.now);
    } else {
      UpdatesKeepAgents(w.db, step.id, step.Signal? && step.detected, w.now);
      DropUpdatesKeepAgents(w.db, step.id, Bridged, w.now);
      if step.SetStatus? {
        StatusKeepsAgents(w.db, step.id, step.user, step.outcome, w.now);
      }
      NothingFinishes(w.db, Effect(w, step).db);
    }
  }

  lemma AnswerKeepsAgents(w: World, task: Task, answer: DropAnswer)
    ensures Answer(w, task, answer).db.agents == w.db.agents
  {
    hide RevertDrop, Log;
    if task.SendDropCommands? {
      DropUpdatesKeepAgents(w.db, task.callId, task.claimedState, w.now);
    }
  }

  lemma RunTaskFinishes(w: World, task: Task)
    requires CallsOk(w)
    ensures Finishes(w.db, Run(w, task).db, FinishedAgent(w, RunTask(task)))
  {
    hide FinalizeIncomplete, MarkReleased, FinishAgent, CloseLegs, DropInProgress, Finishes, RefsOk, CallRowOk;
    NothingFinishes(w.db, w.db);
    if task in w.tasks {
      match task
      case EndDrop(id, failed, released, contact) => IncompleteFinishes(w.db, id, failed, released, contact, w.now);
      case ReleaseMark(id, agent) =>
        MarkReleasedKeepsAgents(w.db, id, w.now);
        NothingFinishes(w.db, MarkReleased(w.db, id, w.now));
      case ReleaseLegs(id, agent) => NothingFinishes(w.db, CloseLegs(w.db, id, Some(AgentLeg), w.now));
      case ReleaseFinish(id, agent) => FinishIs(w.db, w.db, FinishAgent(w.db, Some(agent)), Some(agent));
      case _ =>
    }
  }

  lemma TaskStepFinishes(w: World, step: Step)
    requires CallsOk(w)
    requires step.ClaimVoicemail? || step.AnswerDrop? || step.ReadDrop? || step.RunTask? || step.LoseTask?
    ensures Finishes(w.db, Effect(w, step).db, FinishedAgent(w, step))
  {
    hide ClaimDrop, DropInProgress, Run, Answer, CallsOk, Finishes, Active, OwnedBy, FinishAgent;
    if step.RunTask? {
      RunTaskFinishes(w, step.task);
    } else {
      if step.ClaimVoicemail? {
        ClaimKeepsAgents(w.db, step.id, step.user, w.now);
      } else if step.AnswerDrop? {
        AnswerKeepsAgents(w, step.task, step.answer);
      }
      NothingFinishes(w.db, Effect(w, step).db);
    }
  }

  lemma FinishingFrees(a: Db, b: Db, agent: Option<AgentId>, g: AgentId)
    requires Finishes(a, b, agent) && IsInCall(a, g)
    ensures IsInCall(b, g) <==> !(agent == Some(g) && !HasActiveCall(b.calls, g))
  {
    hide HasActiveCall;
  }

  /** Accounts, leads, registration, and the start of a call never take an agent that is in a call out of it. */
  lemma CreateKeepsInCall(w: World, step: Step, a: AgentId)
    requires step.Create? && IsInCall(w.db, a)
    ensures IsInCall(Effect(w, step).db, a)
  {
    hide CreateRefusal, SelectLead, Log, NewCall, NewLeg, AttemptedContact;
  }

  lemma RegistrationKeepsInCall(w: World, step: Step, a: AgentId)
    requires (step.Register? || step.Pause?) && IsInCall(w.db, a)
    ensures IsInCall(Effect(w, step).db, a)
  {
    hide HasOpenCall;
  }

  lemma AccountFrees(w: World, step: Step, a: AgentId)
    requires (step.ChangeUser? || step.RemoveUser?) && IsInCall(w.db, a)
    ensures IsInCall(Effect(w, step).db, a) <==> !Retires(w, step, a)
  {
    hide OwnsActiveCall, HasLiveSession;
  }

  /** Sessions, statements without a guard and log entries leave the agents alone. */
  lemma OtherStepKeepsAgents(w: World, step: Step)
    requires step.LogHangup? || step.Reset? || step.Supervise? || step.Execute?
    ensures Effect(w, step).db.agents == w.db.agents
  {
    hide LogTagged, CampaignBusy, OwnsActiveCall, HasLiveSession, Executed;
    if step.Execute? {
      StatementFrame(w.db, step.statement);
    }
  }

  lemma OnlyCallsFinish(w: World, step: Step)
    requires !step.PlaybackCompleted? && !step.ReleaseForPlayback? && !step.Finalize? && !step.AgentEnds? && !step.RunTask?
    ensures FinishedAgent(w, step) == None
  {
  }

  lemma OnlyAccountsRetire(w: World, step: Step, a: AgentId)
    requires !step.ChangeUser? && !step.RemoveUser?
    ensures !Retires(w, step, a)
  {
  }

  /** An agent in a call stays in one until a step frees it, and that step does free it. */
  lemma InCallUntilFreed(w: World, step: Step, a: AgentId)
    requires Inv(w) && IsInCall(w.db, a)
    ensures IsInCall(Apply(w, step).db, a) <==> !Frees(w, step, a)
  {
    assert CallsOk(w);
    hide Inv, CallsOk, Effect, Finishes, FinishedAgent, Retires, IsInCall, HasActiveCall;
    var b := Effect(w, step).db;
    if step.ChangeUser? || step.RemoveUser? {
      OnlyCallsFinish(w, step);
      AccountFrees(w, step, a);
    } else {
      OnlyAccountsRetire(w, step, a);
      if step.Create? {
        OnlyCallsFinish(w, step);
        CreateKeepsInCall(w, step, a);
      } else if step.Register? || step.Pause? {
        OnlyCallsFinish(w, step);
        RegistrationKeepsInCall(w, step, a);
      } else {
        OtherFinishes(w, step);
        FinishingFrees(w.db, b, FinishedAgent(w, step), a);
      }
    }
  }

  lemma OtherFinishes(w: World, step: Step)
    requires CallsOk(w)
    requires !step.Create? && !step.Register? && !step.Pause? && !step.ChangeUser? && !step.RemoveUser?
    ensures Finishes(w.db, Effect(w, step).db, FinishedAgent(w, step))
  {
    hide CallsOk, Effect, Finishes, FinishedAgent;
    if step.QueueOriginate? || step.Generic? || step.Signal? || step.PlaybackStarted? || step.ReleaseForPlayback?
       || step.PlaybackCompleted? || step.Finalize? || step.AgentEnds? || step.SetStatus? {
      CallStepFinishes(w, step);
    } else if step.ClaimVoicemail? || step.AnswerDrop? || step.ReadDrop? || step.RunTask? || step.LoseTask? {
      TaskStepFinishes(w, step);
    } else {
      OnlyCallsFinish(w, step);
      if step.LogHangup? || step.Reset? || step.Supervise? || step.Execute? {
        OtherStepKeepsAgents(w, step);
      } else {
        SessionStepFrame(w, step);
      }
      NothingFinishes(w.db, Effect(w, step).db);
    }
  }
}
