/**
 At-least-once delivery of tagged events has exactly-once effect. Delivery keeps
 the arrival order (the retry queue holds the head until it settles), so what has
 to be shown is that any number of attempts cut short, followed by one that runs
 through, leaves the same rows as one undisturbed attempt, up to timestamps.
 */
module ExactlyOnce {
  import opened Wrappers
  import opened DialerDb
  import opened Finalization
  import opened VoicemailDrop
  import opened ChannelEvents

  function Stamp(t: Option<Time>): Option<Time> {
    if t.Some? then Some(0) else None
  }

  function EraseCall(call: Call): Call {
    call.(answeredAt := Stamp(call.answeredAt), endedAt := Stamp(call.endedAt), updatedAt := 0,
          dropRequestedAt := Stamp(call.dropRequestedAt), agentReleasedAt := Stamp(call.agentReleasedAt),
          lockedAt := Stamp(call.lockedAt))
  }

  function EraseLeg(leg: Leg): Leg {
    leg.(answeredAt := Stamp(leg.answeredAt), endedAt := Stamp(leg.endedAt))
  }

  function EraseCalls(calls: map<CallId, Call>): map<CallId, Call> {
    map c | c in calls :: EraseCall(calls[c])
  }

  function EraseLegs(legs: map<LegId, Leg>): map<LegId, Leg> {
    map l | l in legs :: EraseLeg(legs[l])
  }

  /** What must agree: every table but agents, with each timestamp reduced to set or unset. */
  function Erase(db: Db): Db {
    db.(calls := EraseCalls(db.calls), legs := EraseLegs(db.legs), agents := map[])
  }

  // ---------------------------------------------------------------- erasure commutes with every write

  lemma ErasedRow(db: Db, id: CallId)
    ensures id in Erase(db).calls <==> id in db.calls
    ensures id in db.calls ==> Erase(db).calls[id] == EraseCall(db.calls[id])
  {
  }

  lemma GuardErases(before: Call, after: Call)
    ensures GuardUpdate(EraseCall(before), EraseCall(after)).Some? <==> GuardUpdate(before, after).Some?
    ensures GuardUpdate(before, after).Some? ==>
              GuardUpdate(EraseCall(before), EraseCall(after)).value == EraseCall(GuardUpdate(before, after).value)
  {
  }

  lemma PutErases(db: Db, id: CallId, row: Call)
    requires id in db.calls
    ensures PutCall(Erase(db), id, EraseCall(row)).Some? <==> PutCall(db, id, row).Some?
    ensures PutCall(db, id, row).Some? ==>
              Erase(PutCall(db, id, row).value) == PutCall(Erase(db), id, EraseCall(row)).value
  {
    GuardErases(db.calls[id], row);
  }

  lemma LogErases(db: Db, row: CallEvent)
    ensures Erase(Log(db, row)) == Log(Erase(db), row)
  {
  }

  lemma CloseLegsErases(db: Db, id: CallId, only: Option<LegKind>, now: Time)
    ensures Erase(CloseLegs(db, id, only, now)) == CloseLegs(Erase(db), id, only, 0)
  {
    assert EraseLegs(EndLegs(db.legs, id, only, now)) == EndLegs(EraseLegs(db.legs), id, only, 0);
  }

  lemma TouchLegsErases(db: Db, e: TaggedEvent, now: Time)
    ensures Erase(TouchLegs(db, e, now)) == TouchLegs(Erase(db), e, 0)
  {
    forall leg: Leg
      ensures EraseLeg(AdvancedLeg(leg, e, now)) == AdvancedLeg(EraseLeg(leg), e, 0)
    {
      AdvancedLegErases(leg, e, now);
    }
    hide EraseLeg, AdvancedLeg;
    ErasedLegKeepsOwner();
    assert EraseLegs(AdvanceLegs(db.legs, e, now)) == AdvanceLegs(EraseLegs(db.legs), e, 0);
  }

  lemma AdvancedLegErases(leg: Leg, e: TaggedEvent, now: Time)
    ensures EraseLeg(AdvancedLeg(leg, e, now)) == AdvancedLeg(EraseLeg(leg), e, 0)
  {
  }

  lemma ErasedLegKeepsOwner()
    ensures forall leg :: EraseLeg(leg).callId == leg.callId && EraseLeg(leg).kind == leg.kind
  {
  }

  lemma ReturnLeadErases(db: Db, contact: Option<ContactId>, status: ContactStatus)
    ensures Erase(ReturnLead(db, contact, status)) == ReturnLead(Erase(db), contact, status)
  {
  }

  lemma ReturnUnlessHeldErases(db: Db, contact: Option<ContactId>, status: ContactStatus, id: CallId)
    ensures Erase(ReturnLeadUnlessHeld(db, contact, status, id)) == ReturnLeadUnlessHeld(Erase(db), contact, status, id)
  {
    if contact.Some? {
      OtherOpenErases(db.calls, contact.value, id);
      ReturnLeadErases(db, contact, status);
    }
    hide HasOtherOpenCall, ReturnLead, EraseCall, EraseLeg;
  }

  lemma OpenErases(call: Call)
    ensures Open(EraseCall(call)) == Open(call) && EraseCall(call).contactId == call.contactId
  {
  }

  lemma OtherOpenErases(calls: map<CallId, Call>, k: ContactId, id: CallId)
    ensures HasOtherOpenCall(EraseCalls(calls), k, id) == HasOtherOpenCall(calls, k, id)
  {
    forall c | c in calls
      ensures Open(EraseCalls(calls)[c]) == Open(calls[c]) && EraseCalls(calls)[c].contactId == calls[c].contactId
    {
      OpenErases(calls[c]);
    }
    hide Open, EraseCall;
  }

  /** No agent is left in an erased database, so freeing one is invisible. */
  lemma FinishErases(db: Db, agent: Option<AgentId>)
    ensures Erase(FinishAgent(db, agent)) == Erase(db) == FinishAgent(Erase(db), agent)
  {
  }

  lemma AdvancedRowErases(call: Call, e: TaggedEvent, now: Time)
    ensures AdvancedRow(EraseCall(call), e, 0) == EraseCall(AdvancedRow(call, e, now))
  {
  }

  lemma EndedRowErases(call: Call, resolver: Resolver, now: Time)
    requires !IsFinalized(call)
    ensures Decide(EraseCall(call), resolver) == Decide(call, resolver)
    ensures forall d :: EndedRow(EraseCall(call), d, 0) == EraseCall(EndedRow(call, d, now))
  {
  }

  lemma GenericErases(db: Db, e: TaggedEvent, now: Time)
    ensures Erase(GenericEvent(db, e, now)) == GenericEvent(Erase(db), e, 0)
  {
    hide TouchLegs, PutCall, Erase, AdvancedRow;
    ErasedRow(db, e.callId);
    if e.callId in db.calls {
      var call := db.calls[e.callId];
      LogErases(db, CallEvent(e.callId, ChannelEventSeen, e.uuid));
      TouchLegsErases(LogTagged(db, e), e, now);
      AdvancedRowErases(call, e, now);
      PutErases(TouchLegs(LogTagged(db, e), e, now), e.callId, AdvancedRow(call, e, now));
    }
  }

  lemma CloseDropErases(db: Db, event: CallEvent, contact: Option<ContactId>, status: ContactStatus,
                        agent: Option<AgentId>, now: Time)
    ensures Erase(CloseDrop(db, event, contact, status, agent, now))
         == CloseDrop(Erase(db), event, contact, status, agent, 0)
  {
    hide Log, CloseLegs, ReturnLead, FinishAgent;
    LogErases(db, event);
    CloseLegsErases(Log(db, event), event.callId, None, now);
    var closed := CloseLegs(Log(db, event), event.callId, None, now);
    ReturnLeadErases(closed, contact, status);
    FinishErases(ReturnLead(closed, contact, status), agent);
  }

  lemma CompletedErases(db: Db, id: CallId, now: Time)
    ensures Erase(FinalizeCompleted(db, id, now)) == FinalizeCompleted(Erase(db), id, 0)
  {
    hide CloseDrop, PutCall, Erase;
    ErasedRow(db, id);
    if DropInProgress(db, id) {
      var call := db.calls[id];
      PutErases(db, id, CompletedRow(call, now));
      if PutCall(db, id, CompletedRow(call, now)).Some? {
        CloseDropErases(PutCall(db, id, CompletedRow(call, now)).value, CallEvent(id, PlaybackCompletedEvent, None),
                        call.contactId, Done, if call.agentReleasedAt.None? then call.agentId else None, now);
      }
    }
  }

  lemma IncompleteErases(db: Db, id: CallId, failed: bool, released: bool, contact: Option<ContactId>, now: Time)
    ensures Erase(FinalizeIncomplete(db, id, failed, released, contact, now))
         == FinalizeIncomplete(Erase(db), id, failed, released, contact, 0)
  {
    hide CloseDrop, PutCall, Erase;
    ErasedRow(db, id);
    if DropInProgress(db, id) {
      var call := db.calls[id];
      PutErases(db, id, IncompleteRow(call, failed, now));
      if PutCall(db, id, IncompleteRow(call, failed, now)).Some? {
        CloseDropErases(PutCall(db, id, IncompleteRow(call, failed, now)).value, IncompleteEvent(id, failed),
                        contact, New, if released then None else call.agentId, now);
      }
    }
  }

  lemma CleanupErases(db: Db, id: CallId, now: Time)
    requires id in db.calls
    ensures Erase(Cleanup(db, id, now)) == Cleanup(Erase(db), id, 0)
  {
    var call := db.calls[id];
    CloseLegsErases(db, id, None, now);
    var closed := CloseLegs(db, id, None, now);
    ReturnUnlessHeldErases(closed, call.contactId, ContactStatusFor(call.outcome), id);
    FinishErases(ReturnLeadUnlessHeld(closed, call.contactId, ContactStatusFor(call.outcome), id), call.agentId);
  }

  lemma LogOptionalErases(db: Db, event: Option<CallEvent>)
    ensures Erase(LogOptional(db, event)) == LogOptional(Erase(db), event)
  {
    if event.Some? {
      LogErases(db, event.value);
    }
  }

  lemma UnfinishedErases(db: Db, id: CallId, resolver: Resolver, event: Option<CallEvent>, now: Time)
    requires id in db.calls && !IsFinalized(db.calls[id])
    ensures Erase(FinalizeUnfinished(db, id, resolver, event, now).0)
         == FinalizeUnfinished(Erase(db), id, resolver, event, 0).0
  {
    hide Cleanup, LogOptional, PutCall, Erase, EndedRow, Decide;
    ErasedRow(db, id);
    var call := db.calls[id];
    LogOptionalErases(db, event);
    EndedRowErases(call, resolver, now);
    if Decide(call, resolver).Some? {
      var row := EndedRow(call, Decide(call, resolver).value, now);
      PutErases(LogOptional(db, event), id, row);
      if PutCall(LogOptional(db, event), id, row).Some? {
        CleanupErases(PutCall(LogOptional(db, event), id, row).value, id, now);
      }
    }
  }

  lemma FinalizeErases(db: Db, id: CallId, resolver: Resolver, event: Option<CallEvent>, logWhenFinal: bool, now: Time)
    ensures Erase(FinalizeCall(db, id, resolver, event, logWhenFinal, now).0)
         == FinalizeCall(Erase(db), id, resolver, event, logWhenFinal, 0).0
  {
    hide Cleanup, LogOptional, FinalizeUnfinished, Erase;
    ErasedRow(db, id);
    if id in db.calls {
      if IsFinalized(db.calls[id]) {
        LogOptionalErases(db, event);
        CleanupErases(if logWhenFinal then LogOptional(db, event) else db, id, now);
      } else {
        UnfinishedErases(db, id, resolver, event, now);
      }
    }
  }

  lemma WriteErases(db: Db, w: Write, now: Time)
    ensures Erase(RunWrite(db, w, now)) == RunWrite(Erase(db), w, 0)
  {
    match w
    case WriteGeneric(e) => GenericErases(db, e, now);
    case WriteTaggedLog(e) =>
    case WriteCompleted(id) => CompletedErases(db, id, now);
    case WriteIncomplete(id, failed, released, contact) => IncompleteErases(db, id, failed, released, contact, now);
    case WriteFinalize(e) =>
      FinalizeErases(db, e.callId, CustomerHangup(e.cause),
                     Some(CallEvent(e.callId, FinalizationEvent, e.uuid)), true, now);
  }

  lemma {:induction false} WritesErase(db: Db, writes: seq<Write>, now: Time)
    ensures Erase(RunWrites(db, writes, now)) == RunWrites(Erase(db), writes, 0)
    decreases |writes|
  {
    if writes != [] {
      WriteErases(db, writes[0], now);
      WritesErase(RunWrite(db, writes[0], now), writes[1..], now);
    }
  }

  /** A handler's choice of writes, and so its effect, depends on no timestamp's value and on no agent row. */
  lemma AttemptErases(db: Db, e: TaggedEvent, reached: nat, now: Time)
    ensures Erase(Attempt(db, e, reached, now)) == Attempt(Erase(db), e, reached, 0)
  {
    assert Writes(Erase(db), e) == Writes(db, e);
    var writes := Writes(db, e);
    WritesErase(db, if reached < |writes| then writes[..reached] else writes, now);
  }

  // ---------------------------------------------------------------- the schema constraint survives every write

  lemma UnfinishedKeepsSchema(db: Db, id: CallId, resolver: Resolver, event: Option<CallEvent>, now: Time)
    requires SchemaValid(db) && id in db.calls && !IsFinalized(db.calls[id])
    ensures SchemaValid(FinalizeUnfinished(db, id, resolver, event, now).0)
  {
    var decision := Decide(db.calls[id], resolver);
    if decision.Some? {
      var row := EndedRow(db.calls[id], decision.value, now);
      if PutCall(LogOptional(db, event), id, row).Some? {
        PutKeepsSchema(LogOptional(db, event), id, row);
      }
    }
  }

  lemma GenericKeepsSchema(db: Db, e: TaggedEvent, now: Time)
    requires SchemaValid(db)
    ensures SchemaValid(GenericEvent(db, e, now))
  {
    if e.callId in db.calls {
      var touched := TouchLegs(LogTagged(db, e), e, now);
      var row := AdvancedRow(db.calls[e.callId], e, now);
      if PutCall(touched, e.callId, row).Some? {
        PutKeepsSchema(touched, e.callId, row);
      }
    }
  }

  lemma CompletedKeepsSchema(db: Db, id: CallId, now: Time)
    requires SchemaValid(db)
    ensures SchemaValid(FinalizeCompleted(db, id, now))
  {
    if DropInProgress(db, id) && PutCall(db, id, CompletedRow(db.calls[id], now)).Some? {
      PutKeepsSchema(db, id, CompletedRow(db.calls[id], now));
    }
  }

  lemma IncompleteKeepsSchema(db: Db, id: CallId, failed: bool, released: bool, contact: Option<ContactId>, now: Time)
    requires SchemaValid(db)
    ensures SchemaValid(FinalizeIncomplete(db, id, failed, released, contact, now))
  {
    if DropInProgress(db, id) && PutCall(db, id, IncompleteRow(db.calls[id], failed, now)).Some? {
      PutKeepsSchema(db, id, IncompleteRow(db.calls[id], failed, now));
    }
  }

  lemma WriteKeepsSchema(db: Db, w: Write, now: Time)
    requires SchemaValid(db)
    ensures SchemaValid(RunWrite(db, w, now))
  {
    match w
    case WriteGeneric(e) => GenericKeepsSchema(db, e, now);
    case WriteTaggedLog(e) =>
    case WriteCompleted(id) => CompletedKeepsSchema(db, id, now);
    case WriteIncomplete(id, failed, released, contact) => IncompleteKeepsSchema(db, id, failed, released, contact, now);
    case WriteFinalize(e) =>
      if e.callId in db.calls && !IsFinalized(db.calls[e.callId]) {
        UnfinishedKeepsSchema(db, e.callId, CustomerHangup(e.cause),
                              Some(CallEvent(e.callId, FinalizationEvent, e.uuid)), now);
      }
  }

  lemma {:induction false} WritesKeepSchema(db: Db, writes: seq<Write>, now: Time)
    requires SchemaValid(db)
    ensures SchemaValid(RunWrites(db, writes, now))
    decreases |writes|
  {
    if writes != [] {
      WriteKeepsSchema(db, writes[0], now);
      WritesKeepSchema(RunWrite(db, writes[0], now), writes[1..], now);
    }
  }

  // ---------------------------------------------------------------- replays change nothing

  predicate Logged(events: seq<CallEvent>, uuid: Option<EventUuid>) {
    uuid.Some? && exists i | 0 <= i < |events| :: events[i].uuid == uuid
  }

  lemma InsertLogs(db: Db, row: CallEvent)
    requires row.uuid.Some? && !IsVoicemailLifecycleEvent(row.eventType)
    ensures Logged(Log(db, row).events, row.uuid)
  {
    if i :| 0 <= i < |db.events| && Conflicts(row, db.events[i]) {
      assert db.events[i].uuid == row.uuid;
    } else {
      assert Log(db, row).events[|db.events|].uuid == row.uuid;
    }
  }

  lemma LoggedStays(db: Db, uuid: Option<EventUuid>, row: CallEvent)
    requires Logged(db.events, uuid)
    ensures Logged(Log(db, row).events, uuid)
  {
    var i :| 0 <= i < |db.events| && db.events[i].uuid == uuid;
    assert Log(db, row).events[i].uuid == uuid;
  }

  lemma LoggedRowIsSkipped(db: Db, row: CallEvent)
    requires Logged(db.events, row.uuid)
    ensures Log(db, row) == db
  {
    var i :| 0 <= i < |db.events| && db.events[i].uuid == row.uuid;
    assert Conflicts(row, db.events[i]);
  }

  lemma AdvanceLegsTwice(legs: map<LegId, Leg>, e: TaggedEvent)
    ensures AdvanceLegs(AdvanceLegs(legs, e, 0), e, 0) == AdvanceLegs(legs, e, 0)
  {
  }

  lemma AdvanceRowTwice(call: Call, e: TaggedEvent)
    requires GuardUpdate(call, AdvancedRow(call, e, 0)).Some?
    ensures var once := GuardUpdate(call, AdvancedRow(call, e, 0)).value;
            GuardUpdate(once, AdvancedRow(once, e, 0)) == Some(once)
  {
  }

  lemma GenericStable(db: Db, e: TaggedEvent)
    requires e.callId in db.calls && Logged(db.events, e.uuid)
    requires TouchLegs(db, e, 0) == db
    requires GuardUpdate(db.calls[e.callId], AdvancedRow(db.calls[e.callId], e, 0)) == Some(db.calls[e.callId])
    ensures GenericEvent(db, e, 0) == db
  {
    LoggedRowIsSkipped(db, CallEvent(e.callId, ChannelEventSeen, e.uuid));
    assert db.calls[e.callId := db.calls[e.callId]] == db.calls;
  }

  lemma GenericTwice(db: Db, e: TaggedEvent)
    requires e.uuid.Some?
    ensures GenericEvent(GenericEvent(db, e, 0), e, 0) == GenericEvent(db, e, 0)
  {
    if e.callId in db.calls {
      var call := db.calls[e.callId];
      var touched := TouchLegs(LogTagged(db, e), e, 0);
      var put := PutCall(touched, e.callId, AdvancedRow(call, e, 0));
      if put.Some? {
        InsertLogs(db, CallEvent(e.callId, ChannelEventSeen, e.uuid));
        AdvanceLegsTwice(db.legs, e);
        AdvanceRowTwice(call, e);
        GenericStable(put.value, e);
      }
    }
  }

  /** What a replayed terminal event meets: nothing is left for its cleanup to do. */
  ghost predicate Settled(db: Db, e: TaggedEvent) {
    && e.callId in db.calls
    && IsFinalized(db.calls[e.callId])
    && Logged(db.events, e.uuid)
    && (forall l | l in db.legs && db.legs[l].callId == e.callId ::
          db.legs[l].state == LegEnded && db.legs[l].endedAt.Some?)
    && LeadSettled(db, e.callId)
    && db.agents == map[]
  }

  predicate LeadSettled(db: Db, id: CallId)
    requires id in db.calls
  {
    match db.calls[id].contactId
    case None => true
    case Some(k) => k !in db.contacts || db.contacts[k].status != Calling || HasOtherOpenCall(db.calls, k, id)
  }

  lemma SettledReplays(db: Db, e: TaggedEvent)
    requires IsCustomerTerminal(e) && Settled(db, e)
    ensures Handle(db, e, 0) == db
  {
    var call := db.calls[e.callId];
    var event := CallEvent(e.callId, FinalizationEvent, e.uuid);
    LoggedRowIsSkipped(db, event);
    assert EndLegs(db.legs, e.callId, None, 0) == db.legs;
    assert CloseLegs(db, e.callId, None, 0) == db;
    assert ReturnLeadUnlessHeld(db, call.contactId, ContactStatusFor(call.outcome), e.callId) == db;
    assert Cleanup(db, e.callId, 0) == db;
    assert Writes(db, e) == [WriteFinalize(e)];
    assert RunWrites(db, [WriteFinalize(e)], 0) == RunWrite(db, WriteFinalize(e), 0);
  }

  /** After the cleanup of a final call, its legs and its lead are settled. */
  lemma CleanupLeavesSettled(db: Db, e: TaggedEvent)
    requires e.callId in db.calls && IsFinalized(db.calls[e.callId]) && Logged(db.events, e.uuid) && db.agents == map[]
    ensures Settled(Cleanup(db, e.callId, 0), e)
  {
    var call := db.calls[e.callId];
    var closed := CloseLegs(db, e.callId, None, 0);
    var returned := ReturnLeadUnlessHeld(closed, call.contactId, ContactStatusFor(call.outcome), e.callId);
    assert LeadSettled(returned, e.callId);
  }

  /** A customer hangup always decides, and its update always passes the trigger. */
  lemma HangupDecides(db: Db, id: CallId, cause: HangupCause)
    requires id in db.calls && LockValid(db.calls[id]) && !IsFinalized(db.calls[id])
    ensures Decide(db.calls[id], CustomerHangup(cause)).Some?
    ensures var row := EndedRow(db.calls[id], Decide(db.calls[id], CustomerHangup(cause)).value, 0);
            PutCall(db, id, row).Some? && IsFinalized(PutCall(db, id, row).value.calls[id])
  {
    DecisionPassesGuard(db.calls[id], CustomerHangup(cause), 0);
  }

  lemma UnfinishedSettles(db: Db, e: TaggedEvent)
    requires e.callId in db.calls && LockValid(db.calls[e.callId]) && !IsFinalized(db.calls[e.callId])
    requires e.uuid.Some? && db.agents == map[]
    ensures Settled(FinalizeUnfinished(db, e.callId, CustomerHangup(e.cause),
                                       Some(CallEvent(e.callId, FinalizationEvent, e.uuid)), 0).0, e)
  {
    var event := CallEvent(e.callId, FinalizationEvent, e.uuid);
    var logged := Log(db, event);
    InsertLogs(db, event);
    HangupDecides(logged, e.callId, e.cause);
    var row := EndedRow(db.calls[e.callId], Decide(db.calls[e.callId], CustomerHangup(e.cause)).value, 0);
    CleanupLeavesSettled(PutCall(logged, e.callId, row).value, e);
  }

  lemma FinalizeSettles(db: Db, e: TaggedEvent)
    requires e.callId in db.calls && LockValid(db.calls[e.callId]) && e.uuid.Some? && db.agents == map[]
    ensures Settled(RunWrite(db, WriteFinalize(e), 0), e)
  {
    if IsFinalized(db.calls[e.callId]) {
      InsertLogs(db, CallEvent(e.callId, FinalizationEvent, e.uuid));
      CleanupLeavesSettled(Log(db, CallEvent(e.callId, FinalizationEvent, e.uuid)), e);
    } else {
      UnfinishedSettles(db, e);
    }
  }

  lemma CloseDropSettles(db: Db, e: TaggedEvent, event: CallEvent, status: ContactStatus, agent: Option<AgentId>)
    requires e.callId in db.calls && IsFinalized(db.calls[e.callId]) && event.callId == e.callId
    requires Logged(db.events, e.uuid) && db.agents == map[] && status != Calling
    ensures Settled(CloseDrop(db, event, db.calls[e.callId].contactId, status, agent, 0), e)
  {
    LoggedStays(db, e.uuid, event);
    var closed := CloseLegs(Log(db, event), e.callId, None, 0);
    var returned := ReturnLead(closed, db.calls[e.callId].contactId, status);
    assert LeadSettled(returned, e.callId);
  }

  lemma CompletedSettles(db: Db, e: TaggedEvent)
    requires DropInProgress(db, e.callId) && LockValid(db.calls[e.callId])
    requires Logged(db.events, e.uuid) && db.agents == map[]
    ensures Settled(FinalizeCompleted(db, e.callId, 0), e)
  {
    hide CloseDrop, Settled, Logged, GuardUpdate;
    var call := db.calls[e.callId];
    DropEndsPass(call, true, 0);
    var updated := PutCall(db, e.callId, CompletedRow(call, 0));
    CloseDropSettles(updated.value, e, CallEvent(e.callId, PlaybackCompletedEvent, None), Done,
                     if call.agentReleasedAt.None? then call.agentId else None);
  }

  lemma IncompleteSettles(db: Db, e: TaggedEvent, failed: bool, released: bool)
    requires DropInProgress(db, e.callId) && LockValid(db.calls[e.callId])
    requires Logged(db.events, e.uuid) && db.agents == map[]
    ensures Settled(FinalizeIncomplete(db, e.callId, failed, released, db.calls[e.callId].contactId, 0), e)
  {
    hide CloseDrop, Settled, Logged, GuardUpdate;
    var call := db.calls[e.callId];
    DropEndsPass(call, failed, 0);
    var updated := PutCall(db, e.callId, IncompleteRow(call, failed, 0));
    CloseDropSettles(updated.value, e, IncompleteEvent(e.callId, failed), New, if released then None else call.agentId);
  }

  /** The two writes of a hangup inside a voicemail drop. */
  lemma DropHangupSettles(db: Db, e: TaggedEvent)
    requires IsCustomerTerminal(e) && DropInProgress(db, e.callId) && LockValid(db.calls[e.callId])
    requires e.uuid.Some? && db.agents == map[]
    ensures Settled(RunWrite(LogTagged(db, e), Writes(db, e)[1], 0), e)
  {
    hide FinalizeCompleted, FinalizeIncomplete, FinalizeCall, GenericEvent, Settled, Logged;
    InsertLogs(db, CallEvent(e.callId, ChannelEventSeen, e.uuid));
    if IsNormalHangup(e.cause) {
      CompletedSettles(LogTagged(db, e), e);
    } else {
      IncompleteSettles(LogTagged(db, e), e, true, db.calls[e.callId].state == AgentReleased);
    }
  }

  /** A full handling of a customer's terminal event leaves nothing for a replay. */
  lemma HandlingSettles(db: Db, e: TaggedEvent)
    requires IsCustomerTerminal(e) && e.callId in db.calls && LockValid(db.calls[e.callId])
    requires e.uuid.Some? && db.agents == map[]
    ensures Settled(Handle(db, e, 0), e)
  {
    var writes := Writes(db, e);
    if DropInProgress(db, e.callId) {
      DropHangupSettles(db, e);
      TwoWrites(db, writes[0], writes[1], 0);
    } else {
      FinalizeSettles(db, e);
      TwoWrites(db, writes[0], writes[0], 0);
    }
  }

  /** Stopping after the drop branch's log statement changes neither what a retry reads nor what it writes. */
  lemma LoggedDropRetries(db: Db, e: TaggedEvent)
    requires IsCustomerTerminal(e) && DropInProgress(db, e.callId) && e.uuid.Some?
    ensures Handle(LogTagged(db, e), e, 0) == Handle(db, e, 0)
  {
    var logged := LogTagged(db, e);
    var writes := Writes(db, e);
    assert Writes(logged, e) == writes;
    InsertLogs(db, CallEvent(e.callId, ChannelEventSeen, e.uuid));
    LoggedRowIsSkipped(logged, CallEvent(e.callId, ChannelEventSeen, e.uuid));
    TwoWrites(db, writes[0], writes[1], 0);
    TwoWrites(logged, writes[0], writes[1], 0);
  }

  /** One interrupted attempt before the full one is invisible, on erased databases. */
  lemma CutAttemptInvisible(db: Db, e: TaggedEvent, reached: nat)
    requires SchemaValid(db) && e.uuid.Some? && db.agents == map[]
    ensures Handle(Attempt(db, e, reached, 0), e, 0) == Handle(db, e, 0)
  {
    var writes := Writes(db, e);
    if reached >= |writes| {
      HandledTwice(db, e);
    } else if reached == 0 {
      assert writes[..0] == [];
    } else {
      assert |writes| == 2 && reached == 1 && writes[..1] == [writes[0]];
      TwoWrites(db, writes[0], writes[1], 0);
      LoggedDropRetries(db, e);
    }
  }

  lemma HandledTwice(db: Db, e: TaggedEvent)
    requires SchemaValid(db) && e.uuid.Some? && db.agents == map[]
    ensures Handle(Handle(db, e, 0), e, 0) == Handle(db, e, 0)
  {
    if !IsCustomerTerminal(e) {
      GenericTwice(db, e);
      TwoWrites(db, WriteGeneric(e), WriteGeneric(e), 0);
      TwoWrites(GenericEvent(db, e, 0), WriteGeneric(e), WriteGeneric(e), 0);
    } else if e.callId in db.calls {
      HandlingSettles(db, e);
      SettledReplays(Handle(db, e, 0), e);
    }
  }

  // ---------------------------------------------------------------- deliveries

  /** One queued event: attempts cut short after some writes, each at its time, and the attempt that ran through. */
  datatype Delivery = Delivery(event: TaggedEvent, cuts: seq<(nat, Time)>, at: Time)

  function Deliver(db: Db, d: Delivery): Db
    decreases |d.cuts|
  {
    if d.cuts == [] then Handle(db, d.event, d.at)
    else Deliver(Attempt(db, d.event, d.cuts[0].0, d.cuts[0].1), d.(cuts := d.cuts[1..]))
  }

  function DeliverAll(db: Db, deliveries: seq<Delivery>): Db
    decreases |deliveries|
  {
    if deliveries == [] then db else DeliverAll(Deliver(db, deliveries[0]), deliveries[1..])
  }

  lemma HandleErases(db: Db, e: TaggedEvent, now: Time)
    ensures Erase(Handle(db, e, now)) == Handle(Erase(db), e, 0)
  {
    AttemptErases(db, e, |Writes(db, e)|, now);
    assert Writes(Erase(db), e) == Writes(db, e);
  }

  lemma EraseKeepsSchema(db: Db)
    requires SchemaValid(db)
    ensures SchemaValid(Erase(db))
  {
    forall c | c in Erase(db).calls ensures LockValid(Erase(db).calls[c]) {
      assert LockValid(db.calls[c]);
    }
  }

  lemma AttemptKeepsSchema(db: Db, e: TaggedEvent, reached: nat, now: Time)
    requires SchemaValid(db)
    ensures SchemaValid(Attempt(db, e, reached, now))
  {
    var writes := Writes(db, e);
    WritesKeepSchema(db, if reached < |writes| then writes[..reached] else writes, now);
  }

  lemma {:induction false} DeliveryIsOneHandling(db: Db, d: Delivery)
    requires SchemaValid(db) && d.event.uuid.Some?
    ensures Erase(Deliver(db, d)) == Handle(Erase(db), d.event, 0)
    ensures SchemaValid(Deliver(db, d))
    decreases |d.cuts|
  {
    if d.cuts == [] {
      HandleErases(db, d.event, d.at);
      WritesKeepSchema(db, Writes(db, d.event), d.at);
    } else {
      var cut := Attempt(db, d.event, d.cuts[0].0, d.cuts[0].1);
      AttemptKeepsSchema(db, d.event, d.cuts[0].0, d.cuts[0].1);
      DeliveryIsOneHandling(cut, d.(cuts := d.cuts[1..]));
      AttemptErases(db, d.event, d.cuts[0].0, d.cuts[0].1);
      EraseKeepsSchema(db);
      CutAttemptInvisible(Erase(db), d.event, d.cuts[0].0);
    }
  }

  /**
   However often and wherever attempts were cut short, the calls, legs, contacts and
   event log end as if every event had been handled exactly once in arrival order,
   up to timestamps.
   */
  lemma {:induction false} ExactlyOnceEffect(db: Db, other: Db, deliveries: seq<Delivery>, events: seq<TaggedEvent>,
                                             at: seq<Time>)
    requires SchemaValid(db) && Erase(db) == Erase(other)
    requires |deliveries| == |events| == |at|
    requires forall i | 0 <= i < |events| :: deliveries[i].event == events[i] && events[i].uuid.Some?
    ensures Erase(DeliverAll(db, deliveries)) == Erase(HandleAll(other, events, at))
    decreases |deliveries|
  {
    if deliveries != [] {
      DeliveryIsOneHandling(db, deliveries[0]);
      HandleErases(other, events[0], at[0]);
      ExactlyOnceEffect(Deliver(db, deliveries[0]), Handle(other, events[0], at[0]), deliveries[1..], events[1..],
                        at[1..]);
    }
  }

  // ---------------------------------------------------------------- the condition is exact

  lemma UnidentifiedRowIsAppended(db: Db, row: CallEvent)
    requires row.uuid.None? && !IsVoicemailLifecycleEvent(row.eventType)
    ensures Log(db, row).events == db.events + [row]
  {
  }

  lemma UnidentifiedFinalizeGrowsLog(db: Db, e: TaggedEvent, now: Time)
    requires SchemaValid(db) && e.callId in db.calls && e.uuid.None?
    ensures |RunWrite(db, WriteFinalize(e), now).events| > |db.events|
  {
    var event := CallEvent(e.callId, FinalizationEvent, None);
    UnidentifiedRowIsAppended(db, event);
    if !IsFinalized(db.calls[e.callId]) {
      assert LockValid(db.calls[e.callId]);
      DecisionPassesGuard(db.calls[e.callId], CustomerHangup(e.cause), now);
    }
  }

  lemma UnidentifiedGenericGrowsLog(db: Db, e: TaggedEvent, now: Time)
    requires e.callId in db.calls && e.uuid.None?
    ensures |GenericEvent(db, e, now).events| > |db.events|
  {
    UnidentifiedRowIsAppended(db, CallEvent(e.callId, ChannelEventSeen, None));
    AdvancePassesGuard(db.calls[e.callId], e, now);
  }

  /** Without an event UUID every full handling adds at least one more row to the event log. */
  lemma UnidentifiedHandlingGrowsLog(db: Db, e: TaggedEvent, now: Time)
    requires SchemaValid(db) && e.callId in db.calls && e.uuid.None?
    ensures |Handle(db, e, now).events| > |db.events|
  {
    var writes := Writes(db, e);
    if !IsCustomerTerminal(e) {
      TwoWrites(db, writes[0], writes[0], now);
      UnidentifiedGenericGrowsLog(db, e, now);
    } else if DropInProgress(db, e.callId) {
      TwoWrites(db, writes[0], writes[1], now);
      WriteFrame(LogTagged(db, e), writes[1], now);
      UnidentifiedRowIsAppended(db, CallEvent(e.callId, ChannelEventSeen, None));
    } else {
      TwoWrites(db, writes[0], writes[0], now);
      UnidentifiedFinalizeGrowsLog(db, e, now);
    }
  }

  /** A replay of a handled event is invisible exactly when the event carries a UUID. */
  lemma ReplayInvisibleIff(db: Db, e: TaggedEvent, first: Time, again: Time)
    requires SchemaValid(db) && e.callId in db.calls
    ensures Erase(Handle(Handle(db, e, first), e, again)) == Erase(Handle(db, e, first)) <==> e.uuid.Some?
  {
    var once := Handle(db, e, first);
    WritesKeepSchema(db, Writes(db, e), first);
    if e.uuid.Some? {
      EraseKeepsSchema(db);
      HandleErases(db, e, first);
      HandleErases(once, e, again);
      HandledTwice(Erase(db), e);
    } else {
      HandlingKeepsCall(db, e, first);
      UnidentifiedHandlingGrowsLog(once, e, again);
    }
  }

  lemma HandlingKeepsCall(db: Db, e: TaggedEvent, now: Time)
    ensures Handle(db, e, now).calls.Keys == db.calls.Keys
  {
    WritesKeepKeys(db, Writes(db, e), now);
  }

  lemma {:induction false} WritesKeepKeys(db: Db, writes: seq<Write>, now: Time)
    ensures RunWrites(db, writes, now).calls.Keys == db.calls.Keys
    decreases |writes|
  {
    if writes != [] {
      WriteFrame(db, writes[0], now);
      WritesKeepKeys(RunWrite(db, writes[0], now), writes[1..], now);
    }
  }
}
