/**
 Every transaction of the dialer about one existing call has the shape
 LifecycleTransactions.Transaction: which row update it makes, whether it returns
 the lead, and which agent it frees.
 */
module CallTransactions {
  import opened Wrappers
  import opened DialerDb
  import opened Finalization
  import opened VoicemailDrop
  import opened ChannelEvents
  import opened CallActions
  import opened Lifecycle
  import opened LifecycleTransactions

  /** A row update with no other effect than log entries and leg changes. */
  lemma UpdateOnly(a: Db, b: Db, id: CallId)
    requires id in a.calls && id in b.calls && b.calls == a.calls[id := b.calls[id]]
    requires RowSteps(a.calls[id], b.calls[id]) && Open(a.calls[id]) == Open(b.calls[id])
    requires b == a.(calls := b.calls, legs := b.legs, events := b.events)
    ensures Transaction(a, b, id, New, None)
  {
    hide RowSteps, Open;
  }

  /** A transaction that ends an open call, returns its lead and may free an agent. */
  lemma EndsCall(a: Db, b: Db, id: CallId, status: ContactStatus, freed: Option<AgentId>)
    requires id in a.calls && id in b.calls && b.calls == a.calls[id := b.calls[id]]
    requires RowSteps(a.calls[id], b.calls[id]) && Open(a.calls[id]) && !Open(b.calls[id]) && status != Calling
    requires b.contacts == ReturnLead(a, a.calls[id].contactId, status).contacts
    requires b.agents == FinishAgent(a.(calls := b.calls), freed).agents
    requires b == a.(calls := b.calls, legs := b.legs, contacts := b.contacts, agents := b.agents, events := b.events)
    ensures Transaction(a, b, id, status, freed)
  {
    hide RowSteps, Open, ReturnLead, FinishAgent;
  }

  lemma ReturnReadsContacts(a: Db, b: Db, contact: Option<ContactId>, status: ContactStatus)
    requires a.contacts == b.contacts
    ensures ReturnLead(a, contact, status).contacts == ReturnLead(b, contact, status).contacts
  {
  }

  lemma FinishReadsAgents(a: Db, b: Db, agent: Option<AgentId>)
    requires a.agents == b.agents && a.calls == b.calls
    ensures FinishAgent(a, agent).agents == FinishAgent(b, agent).agents
  {
  }

  // ---------------------------------------------------------------- updates that keep a call open

  lemma QueueRow(call: Call, now: Time)
    requires CallRowOk(call) && !IsTerminal(call.state)
    ensures GuardUpdate(call, call.(state := AgentRinging, updatedAt := now)).Some? ==>
              var row := GuardUpdate(call, call.(state := AgentRinging, updatedAt := now)).value;
              RowSteps(call, row) && Open(row) == Open(call) && Active(row) == Active(call)
  {
  }

  lemma QueueOriginateIs(db: Db, id: CallId, now: Time)
    requires id in db.calls && CallRowOk(db.calls[id])
    ensures Transaction(db, OriginateQueued(db, id, now), id, New, None)
    ensures Active(OriginateQueued(db, id, now).calls[id]) == Active(db.calls[id])
  {
    hide RowSteps, Transaction, CallRowOk, Active, Open;
    var call := db.calls[id];
    var b := OriginateQueued(db, id, now);
    Unchanged(db, id);
    if b != db {
      QueueRow(call, now);
      UpdateOnly(db, b, id);
    }
  }

  lemma Unchanged(db: Db, id: CallId)
    requires id in db.calls && CallRowOk(db.calls[id])
    ensures Transaction(db, db, id, New, None)
  {
  }

  lemma GenericRow(call: Call, e: TaggedEvent, now: Time)
    requires CallRowOk(call)
    ensures GuardUpdate(call, AdvancedRow(call, e, now)).Some?
    ensures var row := GuardUpdate(call, AdvancedRow(call, e, now)).value; RowSteps(call, row) && Open(row) == Open(call)
    ensures Active(GuardUpdate(call, AdvancedRow(call, e, now)).value) == Active(call)
  {
    AdvancePassesGuard(call, e, now);
  }

  lemma GenericIs(db: Db, e: TaggedEvent, now: Time)
    requires e.callId in db.calls && CallRowOk(db.calls[e.callId])
    ensures Transaction(db, GenericEvent(db, e, now), e.callId, New, None)
    ensures Active(GenericEvent(db, e, now).calls[e.callId]) == Active(db.calls[e.callId])
  {
    hide RowSteps, Transaction, CallRowOk, AdvancedRow, LogTagged, TouchLegs, GuardUpdate, Active, Open;
    GenericRow(db.calls[e.callId], e, now);
    UpdateOnly(db, GenericEvent(db, e, now), e.callId);
  }

  lemma SignalIs(db: Db, id: CallId, detected: bool, now: Time)
    requires id in db.calls && CallRowOk(db.calls[id])
    ensures Transaction(db, VoicemailSignal(db, id, detected, now), id, New, None)
    ensures Active(VoicemailSignal(db, id, detected, now).calls[id]) == Active(db.calls[id])
  {
    hide Transaction;
    Unchanged(db, id);
    if Open(db.calls[id]) {
      UpdateOnly(db, VoicemailSignal(db, id, detected, now), id);
    }
  }

  lemma ClaimIs(db: Db, id: CallId, user: UserId, now: Time)
    requires id in db.calls && CallRowOk(db.calls[id])
    ensures Transaction(db, ClaimDrop(db, id, user, now), id, New, None)
    ensures var b := ClaimDrop(db, id, user, now);
            b.calls[id].state == VoicemailDropRequested && db.calls[id].state != VoicemailDropRequested ==>
              db.calls[id].state == Bridged || db.calls[id].state == VoicemailSignalDetected
    ensures Active(ClaimDrop(db, id, user, now).calls[id]) == Active(db.calls[id])
  {
    hide Transaction, Log;
    Unchanged(db, id);
    var b := ClaimDrop(db, id, user, now);
    if b.calls != db.calls {
      UpdateOnly(db, b, id);
    }
  }

  lemma RevertIs(db: Db, id: CallId, claimed: CallState, now: Time)
    requires id in db.calls && CallRowOk(db.calls[id]) && (claimed == Bridged || claimed == VoicemailSignalDetected)
    ensures Transaction(db, RevertDrop(db, id, claimed, now), id, New, None)
    ensures Active(RevertDrop(db, id, claimed, now).calls[id]) == Active(db.calls[id])
  {
    hide Transaction;
    Unchanged(db, id);
    var b := RevertDrop(db, id, claimed, now);
    if b.calls != db.calls {
      UpdateOnly(db, b, id);
    }
  }

  lemma StartedRow(call: Call, now: Time)
    requires CallRowOk(call) && call.endedAt.None? && IsVoicemailDropActive(call.state) && call.state != AgentReleased
    ensures var row := call.(state := VoicemailPlaybackStarted, updatedAt := now);
            GuardUpdate(call, row) == Some(row) && RowSteps(call, row) && Open(row) && Open(call) && Active(row)
  {
  }

  /** One row update after a log entry, as the trigger leaves it. */
  lemma LoggedUpdateIs(db: Db, id: CallId, row: Call, logged: Db)
    requires id in db.calls && logged == db.(events := logged.events)
    requires GuardUpdate(db.calls[id], row) == Some(row)
    requires RowSteps(db.calls[id], row) && Open(db.calls[id]) == Open(row)
    ensures Transaction(db, UpdateCall(logged, id, row), id, New, None)
    ensures UpdateCall(logged, id, row).calls == db.calls[id := row]
  {
    hide Transaction, RowSteps, GuardUpdate, Open;
    UpdateOnly(db, UpdateCall(logged, id, row), id);
  }

  lemma StartedIs(db: Db, id: CallId, now: Time)
    requires id in db.calls && CallRowOk(db.calls[id])
    ensures Transaction(db, MarkPlaybackStarted(db, id, now), id, New, None)
    ensures Active(db.calls[id]) ==> Active(MarkPlaybackStarted(db, id, now).calls[id])
  {
    hide Transaction, RowSteps, CallRowOk, Log, GuardUpdate, Active, Open, IsVoicemailDropActive, UpdateCall;
    if !DropInProgress(db, id) {
      Unchanged(db, id);
    } else if db.calls[id].state == AgentReleased {
      QuietIs(db, MarkPlaybackStarted(db, id, now), id);
    } else {
      StartedRow(db.calls[id], now);
      LoggedUpdateIs(db, id, db.calls[id].(state := VoicemailPlaybackStarted, updatedAt := now),
                     Log(db, CallEvent(id, PlaybackStartedEvent, None)));
    }
  }

  lemma QuietIs(a: Db, b: Db, id: CallId)
    requires id in a.calls && CallRowOk(a.calls[id])
    requires b == a.(legs := b.legs, events := b.events)
    ensures Transaction(a, b, id, New, None)
  {
  }

  // ---------------------------------------------------------------- releasing the agent

  lemma ReleasedRow(call: Call, now: Time)
    requires CallRowOk(call) && call.endedAt.None? && IsVoicemailDropActive(call.state)
    ensures var row := call.(state := AgentReleased, agentReleasedAt := Coalesce(call.agentReleasedAt, Some(now)), updatedAt := now);
            GuardUpdate(call, row) == Some(row) && RowSteps(call, row) && Open(row) && Open(call) && row.state == AgentReleased
  {
  }

  lemma MarkReleasedIs(db: Db, id: CallId, now: Time)
    requires id in db.calls && CallRowOk(db.calls[id])
    ensures Transaction(db, MarkReleased(db, id, now), id, New, None)
  {
    hide Transaction, RowSteps, CallRowOk, GuardUpdate;
    var b := MarkReleased(db, id, now);
    if DropInProgress(db, id) {
      ReleasedRow(db.calls[id], now);
      UpdateOnly(db, b, id);
    } else {
      Unchanged(db, id);
    }
  }

  lemma FreeingIs(a: Db, m: Db, b: Db, id: CallId, freed: Option<AgentId>)
    requires Transaction(a, m, id, New, None) && (Open(a.calls[id]) ==> Open(m.calls[id]))
    requires b == m.(agents := FinishAgent(m, freed).agents, legs := b.legs, events := b.events)
    ensures Transaction(a, b, id, New, freed)
  {
    hide CallSteps, RowSteps;
    FinishReadsAgents(m, a.(calls := m.calls), freed);
  }

  lemma ReleaseIs(db: Db, id: CallId, now: Time)
    requires id in db.calls && CallRowOk(db.calls[id])
    ensures exists freed ::
              && Transaction(db, ReleaseAgent(db, id, now), id, New, freed)
              && (Active(db.calls[id]) && !Active(ReleaseAgent(db, id, now).calls[id]) ==> freed == db.calls[id].agentId)
  {
    hide Transaction, RowSteps, CallRowOk, Log, CloseLegs, FinishAgent, GuardUpdate;
    var b := ReleaseAgent(db, id, now);
    if !DropInProgress(db, id) {
      Unchanged(db, id);
      assert Transaction(db, b, id, New, None);
    } else {
      var logged := Log(db, CallEvent(id, AgentReleasedEvent, None));
      var marked := MarkReleased(logged, id, now);
      ReleasedRow(db.calls[id], now);
      assert marked == logged.(calls := db.calls[id := marked.calls[id]]);
      UpdateOnly(db, marked, id);
      var agent := db.calls[id].agentId;
      FinishReadsAgents(CloseLegs(marked, id, Some(AgentLeg), now), marked, agent);
      FreeingIs(db, marked, b, id, agent);
      assert Transaction(db, b, id, New, agent);
    }
  }

  // ---------------------------------------------------------------- ending a call

  lemma DropEndRows(call: Call, failed: bool, now: Time)
    requires CallRowOk(call) && call.endedAt.None? && IsVoicemailDropActive(call.state)
    ensures GuardUpdate(call, CompletedRow(call, now)) == Some(CompletedRow(call, now))
    ensures GuardUpdate(call, IncompleteRow(call, failed, now)) == Some(IncompleteRow(call, failed, now))
    ensures RowSteps(call, CompletedRow(call, now)) && RowSteps(call, IncompleteRow(call, failed, now))
    ensures Open(call) && !Open(CompletedRow(call, now)) && !Open(IncompleteRow(call, failed, now))
    ensures Active(call) <==> call.agentReleasedAt.None?
    ensures Active(call) <==> call.state != AgentReleased
  {
  }

  lemma CloseDropEnds(a: Db, row: Call, event: CallEvent, status: ContactStatus, freed: Option<AgentId>, now: Time)
    requires event.callId in a.calls && status != Calling
    requires RowSteps(a.calls[event.callId], row) && Open(a.calls[event.callId]) && !Open(row)
    ensures Transaction(a, CloseDrop(a.(calls := a.calls[event.callId := row]), event, a.calls[event.callId].contactId, status, freed, now),
                        event.callId, status, freed)
  {
    hide RowSteps, Open, Log, CloseLegs, ReturnLead, FinishAgent, Transaction;
    var m := a.(calls := a.calls[event.callId := row]);
    var b := CloseDrop(m, event, a.calls[event.callId].contactId, status, freed, now);
    var closed := CloseLegs(Log(m, event), event.callId, None, now);
    var returned := ReturnLead(closed, a.calls[event.callId].contactId, status);
    ReturnReadsContacts(closed, a, a.calls[event.callId].contactId, status);
    FinishReadsAgents(returned, m, freed);
    assert b.calls == m.calls;
    EndsCall(a, b, event.callId, status, freed);
  }

  lemma CompletedIs(db: Db, id: CallId, now: Time)
    requires id in db.calls && CallRowOk(db.calls[id])
    ensures exists status, freed ::
              && Transaction(db, FinalizeCompleted(db, id, now), id, status, freed)
              && (Active(db.calls[id]) && !Active(FinalizeCompleted(db, id, now).calls[id]) ==> freed == db.calls[id].agentId)
  {
    hide Transaction, RowSteps, CallRowOk, CloseDrop, GuardUpdate, CompletedRow, Active, Open, IsVoicemailDropActive;
    var call := db.calls[id];
    var b := FinalizeCompleted(db, id, now);
    if !DropInProgress(db, id) {
      Unchanged(db, id);
      assert Transaction(db, b, id, New, None);
    } else {
      DropEndRows(call, false, now);
      var freed := if call.agentReleasedAt.None? then call.agentId else None;
      CloseDropEnds(db, CompletedRow(call, now), CallEvent(id, PlaybackCompletedEvent, None), Done, freed, now);
      assert Transaction(db, b, id, Done, freed);
    }
  }

  lemma IncompleteIs(db: Db, id: CallId, failed: bool, released: bool, contact: Option<ContactId>, now: Time)
    requires id in db.calls && CallRowOk(db.calls[id]) && contact == db.calls[id].contactId
    requires released ==> db.calls[id].state == AgentReleased || db.calls[id].endedAt.Some?
    ensures exists freed ::
              && Transaction(db, FinalizeIncomplete(db, id, failed, released, contact, now), id, New, freed)
              && (Active(db.calls[id]) && !Active(FinalizeIncomplete(db, id, failed, released, contact, now).calls[id]) ==>
                    freed == db.calls[id].agentId)
  {
    hide Transaction, RowSteps, CallRowOk, CloseDrop, GuardUpdate, IncompleteRow, Active, Open, IsVoicemailDropActive;
    var call := db.calls[id];
    var b := FinalizeIncomplete(db, id, failed, released, contact, now);
    if !DropInProgress(db, id) {
      Unchanged(db, id);
      assert Transaction(db, b, id, New, None);
    } else {
      DropEndRows(call, failed, now);
      var freed := if released then None else call.agentId;
      CloseDropEnds(db, IncompleteRow(call, failed, now), IncompleteEvent(id, failed), New, freed, now);
      assert Transaction(db, b, id, New, freed);
    }
  }

  lemma AgentEndRow(call: Call, now: Time)
    requires CallRowOk(call) && Active(call)
    ensures GuardUpdate(call, AgentEndedRow(call, now)) == Some(AgentEndedRow(call, now))
    ensures RowSteps(call, AgentEndedRow(call, now)) && Open(call) && !Open(AgentEndedRow(call, now))
  {
  }

  lemma AgentEndIs(db: Db, id: CallId, user: UserId, now: Time)
    requires id in db.calls && CallRowOk(db.calls[id])
    ensures exists status, freed ::
              && Transaction(db, EndDialerCall(db, id, user, now).0, id, status, freed)
              && (Active(db.calls[id]) && !Active(EndDialerCall(db, id, user, now).0.calls[id]) ==> freed == db.calls[id].agentId)
  {
    hide Transaction, RowSteps, CallRowOk, GuardUpdate, AgentEndedRow, Log, CloseLegs, ReturnLead, FinishAgent,
      Active, Open;
    var call := db.calls[id];
    var b := EndDialerCall(db, id, user, now).0;
    if !OwnedBy(db, id, user) || !Active(call) {
      Unchanged(db, id);
      assert Transaction(db, b, id, New, None);
    } else {
      AgentEndRow(call, now);
      var status := if InferAgentEndOutcome(call.state) == AgentCanceled then New else Done;
      CloseDropEnds(db, AgentEndedRow(call, now), CallEvent(id, CallEndedEvent, None), status, call.agentId, now);
      assert Transaction(db, b, id, status, call.agentId);
    }
  }

  // ---------------------------------------------------------------- finalization and the manual status

  lemma EndRow(call: Call, resolver: Resolver, now: Time)
    requires CallRowOk(call) && !IsFinalized(call) && Decide(call, resolver).Some?
    ensures var row := EndedRow(call, Decide(call, resolver).value, now);
            GuardUpdate(call, row) == Some(row) && RowSteps(call, row) && Open(call) && !Open(row)
  {
  }

  /** While nobody else holds its lead, the guarded return is the plain one. */
  lemma OnlyHolder(a: Db, m: Db, id: CallId, contact: Option<ContactId>, status: ContactStatus)
    requires LeadsOk(a.calls, a.contacts) && id in a.calls && contact == a.calls[id].contactId && Open(a.calls[id])
    requires m.calls.Keys == a.calls.Keys && forall c | c in a.calls && c != id :: m.calls[c] == a.calls[c]
    ensures ReturnLeadUnlessHeld(m, contact, status, id) == ReturnLead(m, contact, status)
  {
    hide Open;
    if contact.Some? {
      var k := contact.value;
      assert Holds(a.calls, id, k);
      assert forall c | c in m.calls && c != id && Open(m.calls[c]) && m.calls[c].contactId == Some(k) :: Holds(a.calls, c, k);
      assert !HasOtherOpenCall(m.calls, k, id);
    }
  }

  /** A call that is over holds no lead, so its replay finds nothing to return. */
  lemma NothingToReturn(a: Db, id: CallId, status: ContactStatus)
    requires LeadsOk(a.calls, a.contacts) && id in a.calls && !Open(a.calls[id])
    ensures ReturnLeadUnlessHeld(a, a.calls[id].contactId, status, id).contacts == a.contacts
  {
    hide Open;
    var contact := a.calls[id].contactId;
    if contact.Some? && contact.value in a.contacts && a.contacts[contact.value].status == Calling {
      var c :| Holds(a.calls, c, contact.value);
      assert HasOtherOpenCall(a.calls, contact.value, id);
    }
  }

  /** A replayed finalization frees the agent if nobody occupies it and otherwise changes nothing that matters. */
  lemma ReplayIs(a: Db, m: Db, id: CallId, now: Time)
    requires id in a.calls && CallRowOk(a.calls[id]) && IsFinalized(a.calls[id]) && LeadsOk(a.calls, a.contacts)
    requires m == a.(events := m.events)
    ensures Transaction(a, Cleanup(m, id, now), id, New, a.calls[id].agentId)
  {
    hide Transaction, RowSteps, CallRowOk, CloseLegs, ReturnLeadUnlessHeld, FinishAgent, LeadsOk, Open;
    var call := a.calls[id];
    var closed := CloseLegs(m, id, None, now);
    var returned := ReturnLeadUnlessHeld(closed, call.contactId, ContactStatusFor(call.outcome), id);
    var b := Cleanup(m, id, now);
    assert !Open(call) by { FinalIsOver(call); }
    NothingToReturn(closed, id, ContactStatusFor(call.outcome));
    assert returned == closed;
    assert b == a.(agents := FinishAgent(closed, call.agentId).agents, legs := b.legs, events := b.events);
    Unchanged(a, id);
    FinishReadsAgents(closed, a, call.agentId);
    FreeingIs(a, a, b, id, call.agentId);
  }

  lemma FinalIsOver(call: Call)
    requires IsFinalized(call)
    ensures !Open(call)
  {
  }

  lemma CleanupEnds(a: Db, m: Db, id: CallId, row: Call, now: Time)
    requires id in a.calls && LeadsOk(a.calls, a.contacts)
    requires RowSteps(a.calls[id], row) && Open(a.calls[id]) && !Open(row)
    requires m == a.(calls := a.calls[id := row], events := m.events)
    ensures Transaction(a, Cleanup(m, id, now), id, ContactStatusFor(row.outcome), a.calls[id].agentId)
  {
    hide Transaction, CloseLegs, ReturnLead, ReturnLeadUnlessHeld, FinishAgent, LeadsOk, Open, CallRowOk, KeepsEnd,
      Active;
    var status := ContactStatusFor(row.outcome);
    var closed := CloseLegs(m, id, None, now);
    OnlyHolder(a, closed, id, row.contactId, status);
    var returned := ReturnLead(closed, row.contactId, status);
    ReturnReadsContacts(closed, a, row.contactId, status);
    FinishReadsAgents(returned, a.(calls := m.calls), row.agentId);
    EndsCall(a, Cleanup(m, id, now), id, status, row.agentId);
  }

  /** How a finalization ends a call that is not final: the decided row, its cleanup, its agent freed. */
  lemma UnfinishedIs(db: Db, id: CallId, resolver: Resolver, event: Option<CallEvent>, now: Time)
    requires id in db.calls && CallRowOk(db.calls[id]) && LeadsOk(db.calls, db.contacts)
    requires !IsFinalized(db.calls[id]) && Decide(db.calls[id], resolver).Some?
    ensures var status := ContactStatusFor(EndedRow(db.calls[id], Decide(db.calls[id], resolver).value, now).outcome);
            Transaction(db, FinalizeUnfinished(db, id, resolver, event, now).0, id, status, db.calls[id].agentId)
  {
    hide Transaction, RowSteps, CallRowOk, LeadsOk, Cleanup, LogOptional, Decide, EndedRow, GuardUpdate, IsFinalized,
      Open;
    var call := db.calls[id];
    EndRow(call, resolver, now);
    var row := EndedRow(call, Decide(call, resolver).value, now);
    var m := LogOptional(db, event).(calls := db.calls[id := row]);
    CleanupEnds(db, m, id, row, now);
    assert PutCall(LogOptional(db, event), id, row) == Some(m);
  }

  lemma FinalizeIs(db: Db, id: CallId, resolver: Resolver, event: Option<CallEvent>, logWhenFinal: bool, now: Time)
    requires id in db.calls && CallRowOk(db.calls[id]) && LeadsOk(db.calls, db.contacts)
    ensures exists status, freed ::
              && Transaction(db, FinalizeCall(db, id, resolver, event, logWhenFinal, now).0, id, status, freed)
              && (Active(db.calls[id]) && !Active(FinalizeCall(db, id, resolver, event, logWhenFinal, now).0.calls[id]) ==>
                    freed == db.calls[id].agentId)
  {
    hide CallSteps, LeadSteps, FinishAgent, CallRowOk, LeadsOk, Cleanup, LogOptional, Decide, EndedRow, IsFinalized,
      Active, Open, PutCall;
    var call := db.calls[id];
    var b := FinalizeCall(db, id, resolver, event, logWhenFinal, now).0;
    if IsFinalized(call) {
      var m := if logWhenFinal then LogOptional(db, event) else db;
      ReplayIs(db, m, id, now);
      assert Transaction(db, b, id, New, call.agentId);
    } else if Decide(call, resolver).None? {
      Unchanged(db, id);
      assert Transaction(db, b, id, New, None);
    } else {
      UnfinishedIs(db, id, resolver, event, now);
      var status := ContactStatusFor(EndedRow(call, Decide(call, resolver).value, now).outcome);
      assert Transaction(db, b, id, status, call.agentId);
    }
  }

  lemma ManualRowSteps(call: Call, outcome: Outcome, now: Time)
    requires CallRowOk(call) && call.lockedAt.None? && call.endedAt.Some?
    ensures GuardUpdate(call, ManualRow(call, outcome, now)) == Some(ManualRow(call, outcome, now))
    ensures RowSteps(call, ManualRow(call, outcome, now)) && !Open(call) && !Open(ManualRow(call, outcome, now))
  {
  }

  lemma SetStatusIs(db: Db, id: CallId, user: UserId, outcome: Outcome, now: Time)
    requires id in db.calls && CallRowOk(db.calls[id])
    ensures Transaction(db, SetManualStatus(db, id, user, outcome, now).0, id, New, None)
    ensures Active(db.calls[id]) ==> Active(SetManualStatus(db, id, user, outcome, now).0.calls[id])
  {
    hide Transaction, RowSteps, GuardUpdate, ManualRow, Log, Open;
    var b := SetManualStatus(db, id, user, outcome, now).0;
    if SetManualStatus(db, id, user, outcome, now).1 != ManualUpdated {
      Unchanged(db, id);
    } else {
      ManualRowSteps(db.calls[id], outcome, now);
      UpdateOnly(db, b, id);
    }
  }
}
