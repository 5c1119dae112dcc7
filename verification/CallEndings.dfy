/**
 How calls end, in the words of the documentation: which outcome, state, lead status
 and log row each way of ending a call leaves, cause by cause, for the finalization
 transaction and for the customer's terminal events.
 */
module CallEndings {
  import opened Wrappers
  import opened DialerDb
  import opened Terms
  import opened Finalization
  import opened VoicemailDrop
  import opened ChannelEvents
  import opened TransactionEffects

  /** How an answered or unanswered call ends when its customer's leg goes away for this cause. */
  predicate CustomerOutcome(call: Call, cause: HangupCause, outcome: Outcome) {
    && (outcome == VoicemailDetected <==> call.answeredAt.Some? && call.voicemailDetected)
    && (outcome == CustomerHungUp <==> call.answeredAt.Some? && !call.voicemailDetected)
    && (outcome == Busy <==> call.answeredAt.None? && cause == UserBusy)
    && (outcome == NotAnswered <==>
          call.answeredAt.None? && cause in {NoAnswer, NoUserResponse, CallRejected, OriginatorCancel})
    && (outcome == CallFailed <==> call.answeredAt.None? && cause in {NormalClearing, OtherCause})
  }

  /** What the caller of the finalization decides, when it decides. */
  predicate CallersOutcome(call: Call, resolver: Resolver, outcome: Outcome) {
    match resolver
    case KeepDecision => false
    case AlwaysFailed => outcome == CallFailed
    case CustomerHangup(cause) => CustomerOutcome(call, cause, outcome)
    case MissingInFreeSwitch => outcome == if call.answeredAt.Some? then CustomerHungUp else CallFailed
  }

  /** What a partly written row that lacks an outcome is taken to mean when nobody decides. */
  predicate InferredOutcome(call: Call, outcome: Outcome) {
    if call.state == Failed then outcome == CallFailed
    else if call.state == Canceled then outcome == AgentCanceled
    else if call.answeredAt.Some? then outcome == if call.voicemailDetected then VoicemailDetected else CustomerHungUp
    else outcome == if call.state == Completed then NotAnswered else CallFailed
  }

  /**
   The row of a call that was not final: whatever it had of outcome, end time and
   terminal state stays; the rest is what the caller decided, and where it decided
   nothing what the row implies.
   */
  ghost predicate RowFinalized(before: Call, after: Call, resolver: Resolver, now: Time) {
    exists decided ::
      && (if resolver != KeepDecision && !(before.state in OVER_STATES && before.outcome.Some?) then CallersOutcome(before, resolver, decided)
          else if before.outcome.Some? then decided == before.outcome.value
          else InferredOutcome(before, decided))
      && after == before.(outcome := if before.outcome.Some? then before.outcome else Some(decided),
                          endedAt := if before.endedAt.Some? then before.endedAt else Some(now),
                          state := if before.state in OVER_STATES then before.state
                                   else if decided == CallFailed then Failed else Completed,
                          updatedAt := now)
  }

  /** Legs, lead and agent after a finalization; a newer call that holds the lead keeps it. */
  ghost predicate CleanedUp(a: Db, b: Db, id: CallId)
    requires id in b.calls
  {
    var call := b.calls[id];
    && LegsOver(a, b, id, None) && AgentLetGo(a, b, call.agentId) && UsersKept(a, b)
    && (if call.contactId.Some? && HeldByAnother(b.calls, call.contactId.value, id) then b.contacts == a.contacts
        else LeadLetGo(a, b, call.contactId,
                       if call.outcome.Some? && call.outcome.value in ANSWERED_OUTCOMES then Done else New))
  }

  ghost predicate LoggedIfAny(a: Db, b: Db, event: Option<CallEvent>) {
    if event.Some? then Logged(a.events, b.events, event.value) else b.events == a.events
  }

  /** A call that is ended in every column. */
  predicate Final(call: Call) {
    call.endedAt.Some? && call.state in OVER_STATES && call.outcome.Some?
  }

  /** finalizeCallTransaction, case by case. */
  ghost predicate CallFinalized(a: Db, b: Db, status: FinalizeStatus, id: CallId, resolver: Resolver,
                                event: Option<CallEvent>, logWhenFinal: bool, now: Time) {
    if id !in a.calls then status == Missing && b == a
    else if Final(a.calls[id]) then
      && status == AlreadyFinalized && b.calls == a.calls && CleanedUp(a, b, id)
      && LoggedIfAny(a, b, if logWhenFinal then event else None)
    else if resolver == KeepDecision && Running(a.calls[id]) then status == NotApplicable && b == a
    else
      && status == Finalized && OtherCallsKept(a, b, id) && id in b.calls
      && RowFinalized(a.calls[id], b.calls[id], resolver, now)
      && CleanedUp(a, b, id) && LoggedIfAny(a, b, event)
  }

  // ---------------------------------------------------------------- the finalization does that

  lemma ResolvedOutcome(call: Call, resolver: Resolver)
    requires resolver != KeepDecision
    ensures var r := Resolve(resolver, call);
            r.Some? && CallersOutcome(call, resolver, r.value.outcome)
            && r.value.state == if r.value.outcome == CallFailed then Failed else Completed
  {
  }

  lemma DecisionIs(call: Call, resolver: Resolver, now: Time)
    requires LockValid(call) && !IsFinalized(call) && Decide(call, resolver).Some?
    ensures var guarded := GuardUpdate(call, EndedRow(call, Decide(call, resolver).value, now));
            guarded.Some? && RowFinalized(call, guarded.value, resolver, now)
  {
    DecisionPassesGuard(call, resolver, now);
    StatesAreListed(call.state);
    if resolver != KeepDecision {
      ResolvedOutcome(call, resolver);
      hide Resolve, CallersOutcome;
    }
    var decided := Decide(call, resolver).value.outcome;
    assert if resolver != KeepDecision && !(call.state in OVER_STATES && call.outcome.Some?) then CallersOutcome(call, resolver, decided)
           else if call.outcome.Some? then decided == call.outcome.value
           else InferredOutcome(call, decided);
  }

  lemma StatusForOutcome(outcome: Option<Outcome>)
    ensures ContactStatusFor(outcome) == if outcome.Some? && outcome.value in ANSWERED_OUTCOMES then Done else New
  {
  }

  lemma CleanupMeans(a: Db, m: Db, id: CallId, now: Time)
    requires id in m.calls && m == a.(calls := m.calls, events := m.events)
    ensures CleanedUp(a, Cleanup(m, id, now), id)
  {
    var call := m.calls[id];
    var closed := CloseLegs(m, id, None, now);
    var status := ContactStatusFor(call.outcome);
    var returned := ReturnLeadUnlessHeld(closed, call.contactId, status, id);
    var b := Cleanup(m, id, now);
    StatusForOutcome(call.outcome);
    CloseEndsLegs(m, id, None, now);
    if call.contactId.Some? {
      HeldIsOtherOpen(m.calls, call.contactId.value, id);
    }
    ReturnLetsGo(closed, call.contactId, status);
    FinishLetsGo(returned, call.agentId);
    LegsAsBefore(a, m, b, closed.legs, id);
    AgentsAsBefore(a, returned, b, call.agentId);
    LeadsAsBefore(a, closed, ReturnLead(closed, call.contactId, status), b, call.contactId, status);
    hide CloseLegs, ReturnLead, FinishAgent, LegsOver, LeadLetGo, AgentLetGo, HasOtherOpenCall, HeldByAnother, ContactStatusFor;
  }

  lemma LegsAsBefore(a: Db, m: Db, b: Db, legs: map<LegId, Leg>, id: CallId)
    requires m.legs == a.legs && b.legs == legs && LegsOver(m, m.(legs := legs), id, None)
    ensures LegsOver(a, b, id, None)
  {
  }

  lemma AgentsAsBefore(a: Db, m: Db, b: Db, agent: Option<AgentId>)
    requires m.agents == a.agents && AgentLetGo(m, b, agent)
    ensures AgentLetGo(a, b, agent)
  {
    hide OnPhone;
  }

  lemma LeadsAsBefore(a: Db, m: Db, n: Db, b: Db, contact: Option<ContactId>, status: ContactStatus)
    requires m.contacts == a.contacts && LeadLetGo(m, n, contact, status)
    ensures b.contacts == n.contacts ==> LeadLetGo(a, b, contact, status)
  {
  }

  lemma OptionalIsLogged(db: Db, event: Option<CallEvent>)
    ensures LoggedIfAny(db, LogOptional(db, event), event)
  {
    if event.Some? {
      LogLogs(db, event.value);
    }
    hide Log, Logged;
  }

  lemma FinalIsFinalized(call: Call)
    ensures IsFinalized(call) == Final(call)
    ensures Running(call) <==> call.endedAt.None? && !IsTerminal(call.state)
  {
    StatesAreListed(call.state);
  }

  /** The row update that wins, after the event was logged and before the cleanup. */
  function Decided(db: Db, id: CallId, event: Option<CallEvent>, row: Call): Db {
    LogOptional(db, event).(calls := db.calls[id := row])
  }

  lemma DecidingIs(db: Db, id: CallId, resolver: Resolver, event: Option<CallEvent>, row: Call, now: Time)
    requires id in db.calls && !IsFinalized(db.calls[id]) && Decide(db.calls[id], resolver).Some?
    requires GuardUpdate(db.calls[id], EndedRow(db.calls[id], Decide(db.calls[id], resolver).value, now)) == Some(row)
    ensures FinalizeUnfinished(db, id, resolver, event, now) == (Cleanup(Decided(db, id, event, row), id, now), Finalized)
  {
    hide Cleanup, LogOptional, Decide, EndedRow, GuardUpdate, IsFinalized;
  }

  lemma DecidedMeans(db: Db, id: CallId, event: Option<CallEvent>, row: Call, now: Time)
    requires id in db.calls
    ensures var b := Cleanup(Decided(db, id, event, row), id, now);
            && b.calls == db.calls[id := row] && CleanedUp(db, b, id) && LoggedIfAny(db, b, event)
  {
    hide Cleanup, LogOptional, CleanedUp, LoggedIfAny;
    OptionalIsLogged(db, event);
    CleanupMeans(db, Decided(db, id, event, row), id, now);
    EventsAreLogged(db, LogOptional(db, event), Cleanup(Decided(db, id, event, row), id, now), event);
  }

  lemma UnfinishedMeans(db: Db, id: CallId, resolver: Resolver, event: Option<CallEvent>, logWhenFinal: bool, now: Time)
    requires id in db.calls && LockValid(db.calls[id]) && !IsFinalized(db.calls[id])
    ensures var (b, status) := FinalizeUnfinished(db, id, resolver, event, now);
            CallFinalized(db, b, status, id, resolver, event, logWhenFinal, now)
  {
    hide Cleanup, LogOptional, Decide, EndedRow, GuardUpdate, RowFinalized, CleanedUp, LoggedIfAny, LockValid, IsFinalized,
      Final, Running, Decided, IsTerminal, CallFinalized;
    var call := db.calls[id];
    FinalIsFinalized(call);
    DecidesUnlessRunning(call, resolver);
    if Decide(call, resolver).Some? {
      hide FinalizeUnfinished;
      DecisionIs(call, resolver, now);
      var row := GuardUpdate(call, EndedRow(call, Decide(call, resolver).value, now)).value;
      DecidingIs(db, id, resolver, event, row, now);
      DecidedMeans(db, id, event, row, now);
      DecidedCase(db, Cleanup(Decided(db, id, event, row), id, now), id, row, resolver, event, logWhenFinal, now);
    } else {
      UndecidedCase(db, id, resolver, event, logWhenFinal, now);
    }
  }

  lemma DecidedCase(a: Db, b: Db, id: CallId, row: Call, resolver: Resolver, event: Option<CallEvent>, logWhenFinal: bool,
                    now: Time)
    requires id in a.calls && !Final(a.calls[id]) && !(resolver == KeepDecision && Running(a.calls[id]))
    requires b.calls == a.calls[id := row] && RowFinalized(a.calls[id], row, resolver, now)
    requires CleanedUp(a, b, id) && LoggedIfAny(a, b, event)
    ensures CallFinalized(a, b, Finalized, id, resolver, event, logWhenFinal, now)
  {
    hide RowFinalized, CleanedUp, LoggedIfAny, Final, Running;
  }

  lemma UndecidedCase(a: Db, id: CallId, resolver: Resolver, event: Option<CallEvent>, logWhenFinal: bool, now: Time)
    requires id in a.calls && !Final(a.calls[id]) && resolver == KeepDecision && Running(a.calls[id])
    ensures CallFinalized(a, a, NotApplicable, id, resolver, event, logWhenFinal, now)
  {
    hide RowFinalized, CleanedUp, LoggedIfAny, Final, Running;
  }

  lemma EventsAreLogged(a: Db, m: Db, b: Db, event: Option<CallEvent>)
    requires LoggedIfAny(a, m, event) && b.events == m.events
    ensures LoggedIfAny(a, b, event)
  {
    hide Logged;
  }

  lemma DecidesUnlessRunning(call: Call, resolver: Resolver)
    requires !IsFinalized(call)
    ensures Decide(call, resolver).None? <==> resolver == KeepDecision && call.endedAt.None? && !IsTerminal(call.state)
  {
  }

  /** A final call is cleaned up after once more. */
  lemma ReplayMeans(db: Db, id: CallId, event: Option<CallEvent>, now: Time)
    requires id in db.calls
    ensures var b := Cleanup(LogOptional(db, event), id, now);
            b.calls == db.calls && CleanedUp(db, b, id) && LoggedIfAny(db, b, event)
  {
    hide Cleanup, LogOptional, CleanedUp, LoggedIfAny;
    OptionalIsLogged(db, event);
    CleanupMeans(db, LogOptional(db, event), id, now);
    EventsAreLogged(db, LogOptional(db, event), Cleanup(LogOptional(db, event), id, now), event);
  }

  /** Every finalization is one of the listed cases. */
  lemma FinalizeMeans(db: Db, id: CallId, resolver: Resolver, event: Option<CallEvent>, logWhenFinal: bool, now: Time)
    requires SchemaValid(db)
    ensures var (b, status) := FinalizeCall(db, id, resolver, event, logWhenFinal, now);
            CallFinalized(db, b, status, id, resolver, event, logWhenFinal, now)
  {
    hide IsFinalized, Final, SchemaValid, LockValid, Running, CleanedUp, LoggedIfAny, RowFinalized, FinalizeUnfinished, Cleanup,
      Log;
    if id in db.calls {
      StoredIsValid(db, id);
      FinalIsFinalized(db.calls[id]);
      if IsFinalized(db.calls[id]) {
        ReplayMeans(db, id, if logWhenFinal then event else None, now);
      } else {
        hide CallFinalized;
        UnfinishedMeans(db, id, resolver, event, logWhenFinal, now);
      }
    }
  }

  /**
   A running call without an outcome ends by whoever decides: failed when an originate,
   a job or the watchdog gave up on it, hung up or failed when FreeSWITCH does not know
   it, and by the cause of the hangup when its customer left.
   */
  lemma RunningCallEnds(db: Db, id: CallId, resolver: Resolver, event: Option<CallEvent>, logWhenFinal: bool, now: Time,
                        outcome: Outcome)
    requires SchemaValid(db) && id in db.calls && Running(db.calls[id]) && db.calls[id].outcome.None?
    requires resolver != KeepDecision && CallersOutcome(db.calls[id], resolver, outcome)
    ensures var b := FinalizeCall(db, id, resolver, event, logWhenFinal, now).0;
            && EndedWith(db, b, id, outcome, now) && LegsOver(db, b, id, None) && LoggedIfAny(db, b, event)
            && AgentLetGo(db, b, db.calls[id].agentId)
            && (db.calls[id].contactId.Some? && !HeldByAnother(db.calls, db.calls[id].contactId.value, id) ==>
                  LeadLetGo(db, b, db.calls[id].contactId, if outcome in ANSWERED_OUTCOMES then Done else New))
  {
    FinalizeMeans(db, id, resolver, event, logWhenFinal, now);
    hide SchemaValid, FinalizeCall, LegsOver, AgentLetGo, LeadLetGo, LoggedIfAny, UsersKept;
    var call := db.calls[id];
    var b := FinalizeCall(db, id, resolver, event, logWhenFinal, now).0;
    OneOutcome(call, b.calls[id], resolver, outcome, now);
    if call.contactId.Some? {
      HeldElsewhere(db.calls, b.calls, call.contactId.value, id);
    }
    hide RowFinalized, CallersOutcome;
  }

  lemma OneOutcome(call: Call, after: Call, resolver: Resolver, outcome: Outcome, now: Time)
    requires Running(call) && call.outcome.None? && resolver != KeepDecision && CallersOutcome(call, resolver, outcome)
    requires RowFinalized(call, after, resolver, now)
    ensures RowEndedWith(call, after, outcome, now)
  {
  }

  lemma HeldElsewhere(a: map<CallId, Call>, b: map<CallId, Call>, contact: ContactId, id: CallId)
    requires b.Keys == a.Keys && forall c | c in a && c != id :: b[c] == a[c]
    ensures HeldByAnother(b, contact, id) == HeldByAnother(a, contact, id)
  {
    hide Running;
  }

  lemma NothingIsLogged(db: Db)
    ensures LoggedIfAny(db, db, None)
  {
  }

  // ---------------------------------------------------------------- channel events

  const HANGUPS: set<ChannelEventName> := {ChannelHangup, ChannelHangupComplete, ChannelDestroy}
  const BEFORE_DIALING: set<CallState> := {Created, AgentRinging, AgentAnswered}
  const DIALING: set<CallState> := {Created, AgentRinging, AgentAnswered, CustomerDialing, CustomerRinging, Bridged}

  /** What an event of its channel tells a leg; it never goes back and keeps the first time of everything. */
  ghost predicate LegSeen(before: Leg, after: Leg, e: TaggedEvent, now: Time) {
    && after == before.(uuid := after.uuid, state := after.state, answeredAt := after.answeredAt, endedAt := after.endedAt)
    && after.uuid == (if before.uuid.Some? then before.uuid else e.legUuid)
    && (after.state == LegEnded <==> before.state == LegEnded || e.name in HANGUPS)
    && (after.state == LegAnswered <==>
          && before.state != LegEnded && e.name !in HANGUPS
          && (before.state == LegAnswered || e.name in {ChannelAnswer, ChannelBridge}))
    && after.state != LegCreated
    && after.answeredAt == (if before.answeredAt.None? && e.name == ChannelAnswer then Some(now) else before.answeredAt)
    && after.endedAt == (if before.endedAt.None? && e.name in HANGUPS then Some(now) else before.endedAt)
  }

  /** What an event that does not end the customer's leg tells the call. */
  ghost predicate CallSeen(before: Call, after: Call, e: TaggedEvent, now: Time) {
    if before.endedAt.Some? then after == before
    else if e.name == ChannelCreate && e.leg == CustomerLeg && before.state in BEFORE_DIALING + {CustomerDialing} then
      after == before.(state := CustomerDialing, updatedAt := now)
    else if e.name == ChannelProgress && e.leg == CustomerLeg
            && before.state in BEFORE_DIALING + {CustomerDialing, CustomerRinging} then
      after == before.(state := CustomerRinging, updatedAt := now)
    else if e.name == ChannelAnswer && e.leg == AgentLeg && before.state in BEFORE_DIALING then
      after == before.(state := AgentAnswered, updatedAt := now)
    else if (e.name == ChannelBridge || (e.name == ChannelAnswer && e.leg == CustomerLeg)) && before.state !in OVER_STATES then
      after == before.(state := if before.state in DIALING then Bridged else before.state, updatedAt := now,
                       answeredAt := if before.answeredAt.Some? then before.answeredAt else Some(now))
    else after == before
  }

  /** An event that ends nobody's call: its row in the log, its leg, and its call. */
  ghost predicate EventSeen(a: Db, b: Db, e: TaggedEvent, now: Time) {
    if e.callId !in a.calls then b == a
    else
      && b == a.(calls := b.calls, legs := b.legs, events := b.events)
      && Logged(a.events, b.events, CallEvent(e.callId, ChannelEventSeen, e.uuid))
      && OtherCallsKept(a, b, e.callId) && CallSeen(a.calls[e.callId], b.calls[e.callId], e, now)
      && b.legs.Keys == a.legs.Keys
      && (forall l | l in a.legs ::
            if e.legUuid.Some? && a.legs[l].callId == e.callId && a.legs[l].kind == e.leg
            then LegSeen(a.legs[l], b.legs[l], e, now) else b.legs[l] == a.legs[l])
  }

  /** The customer hung up in a drop: a normal end means the recording was played, any other that the drop failed. */
  ghost predicate DropEnded(a: Db, b: Db, e: TaggedEvent, now: Time)
    requires e.callId in a.calls
  {
    var call := a.calls[e.callId];
    var played := e.cause in {NormalClearing, OriginatorCancel};
    && EndedWith(a, b, e.callId, if played then VoicemailDropped else CallFailed, now)
    && LegsOver(a, b, e.callId, None) && UsersKept(a, b)
    && LeadLetGo(a, b, call.contactId, if played then Done else New)
    && AgentLetGo(a, b, if played then if call.agentReleasedAt.None? then call.agentId else None
                        else if call.state == AgentReleased then None else call.agentId)
    && exists seen ::
         && Logged(a.events, seen, CallEvent(e.callId, ChannelEventSeen, e.uuid))
         && Logged(seen, b.events, CallEvent(e.callId, if played then PlaybackCompletedEvent else PlaybackFailedEvent, None))
  }

  predicate CustomerGone(e: TaggedEvent) {
    e.name in HANGUPS && e.leg == CustomerLeg
  }

  /** persistFreeSwitchEvent for one tagged channel event, in the caller's terms. */
  ghost predicate EventHandled(a: Db, b: Db, e: TaggedEvent, now: Time) {
    if !CustomerGone(e) then EventSeen(a, b, e, now)
    else if e.callId !in a.calls then b == a
    else if InDrop(a, e.callId) then DropEnded(a, b, e, now)
    else
      exists status :: CallFinalized(a, b, status, e.callId, CustomerHangup(e.cause),
                                     Some(CallEvent(e.callId, FinalizationEvent, e.uuid)), true, now)
  }

  lemma LegIsSeen(leg: Leg, e: TaggedEvent, now: Time)
    ensures LegSeen(leg, AdvancedLeg(leg, e, now), e, now)
  {
  }

  lemma CallIsSeen(call: Call, e: TaggedEvent, now: Time)
    ensures CallSeen(call, AdvancedRow(call, e, now), e, now)
    ensures LockValid(call) ==> GuardUpdate(call, AdvancedRow(call, e, now)) == Some(AdvancedRow(call, e, now))
  {
  }

  lemma StoredIsValid(db: Db, id: CallId)
    requires SchemaValid(db) && id in db.calls
    ensures LockValid(db.calls[id])
  {
    hide LockValid;
  }

  lemma GenericMeans(db: Db, e: TaggedEvent, now: Time)
    requires SchemaValid(db)
    ensures EventSeen(db, GenericEvent(db, e, now), e, now)
  {
    hide AdvancedRow, GuardUpdate, AdvancedLeg, LegSeen, CallSeen, Log, Logged, LockValid, SchemaValid;
    if e.callId in db.calls {
      StoredIsValid(db, e.callId);
      CallIsSeen(db.calls[e.callId], e, now);
      LogLogs(db, CallEvent(e.callId, ChannelEventSeen, e.uuid));
      forall l | l in db.legs
        ensures LegSeen(db.legs[l], AdvancedLeg(db.legs[l], e, now), e, now)
      {
        LegIsSeen(db.legs[l], e, now);
      }
    }
  }

  lemma EventIsListed(e: TaggedEvent)
    ensures IsCustomerTerminal(e) == CustomerGone(e)
    ensures IsNormalHangup(e.cause) <==> e.cause in {NormalClearing, OriginatorCancel}
  {
  }

  /** What the log row before them changes for the two ending transactions: nothing but the log. */
  lemma OnlyLogBefore(a: Db, m: Db, b: Db, id: CallId, outcome: Outcome, event: CallEvent, contact: Option<ContactId>,
                      status: ContactStatus, agent: Option<AgentId>, now: Time)
    requires m == a.(events := m.events)
    requires EndedWith(m, b, id, outcome, now) && GivenBack(m, b, event, contact, status, agent) && event.callId == id
    ensures EndedWith(a, b, id, outcome, now) && LegsOver(a, b, id, None) && UsersKept(a, b)
    ensures LeadLetGo(a, b, contact, status) && AgentLetGo(a, b, agent) && Logged(m.events, b.events, event)
  {
    hide RowEndedWith, Logged, OnPhone;
  }

  lemma DropMeans(db: Db, e: TaggedEvent, now: Time)
    requires SchemaValid(db) && CustomerGone(e) && InDrop(db, e.callId)
    ensures DropEnded(db, Handle(db, e, now), e, now)
  {
    var id := e.callId;
    var call := db.calls[id];
    var m := LogTagged(db, e);
    var writes := Writes(db, e);
    var played := e.cause in {NormalClearing, OriginatorCancel};
    EventIsListed(e);
    InDropIsListed(db, id);
    InDropIsListed(m, id);
    DropBranch(db, e, now);
    LogLogs(db, CallEvent(id, ChannelEventSeen, e.uuid));
    SchemaReadsCalls(db, m);
    var b := Handle(db, e, now);
    hide Handle, Writes, FinalizeCompleted, FinalizeIncomplete, LogTagged, SchemaValid, EndedWith, GivenBack, LegsOver, LeadLetGo,
      AgentLetGo, Logged, IsCustomerTerminal, IsNormalHangup, DropInProgress;
    if played {
      CompletedMeans(m, id, now);
      OnlyLogBefore(db, m, b, id, VoicemailDropped, CallEvent(id, PlaybackCompletedEvent, None), call.contactId, Done,
                    if call.agentReleasedAt.None? then call.agentId else None, now);
    } else {
      IncompleteMeans(m, id, true, call.state == AgentReleased, call.contactId, now);
      OnlyLogBefore(db, m, b, id, CallFailed, CallEvent(id, PlaybackFailedEvent, None), call.contactId, New,
                    if call.state == AgentReleased then None else call.agentId, now);
    }
    SeenIsLogged(db, m, b, e, played);
  }

  lemma SeenIsLogged(a: Db, m: Db, b: Db, e: TaggedEvent, played: bool)
    requires Logged(a.events, m.events, CallEvent(e.callId, ChannelEventSeen, e.uuid))
    requires Logged(m.events, b.events, CallEvent(e.callId, if played then PlaybackCompletedEvent else PlaybackFailedEvent, None))
    ensures exists seen ::
              && Logged(a.events, seen, CallEvent(e.callId, ChannelEventSeen, e.uuid))
              && Logged(seen, b.events, CallEvent(e.callId, if played then PlaybackCompletedEvent else PlaybackFailedEvent, None))
  {
    hide Logged;
  }

  lemma SchemaReadsCalls(a: Db, b: Db)
    requires SchemaValid(a) && b.calls == a.calls
    ensures SchemaValid(b)
  {
  }

  /** The drop branch's two writes. */
  lemma DropBranch(db: Db, e: TaggedEvent, now: Time)
    requires CustomerGone(e) && InDrop(db, e.callId)
    ensures LogTagged(db, e) == db.(events := LogTagged(db, e).events) && Logged(db.events, LogTagged(db, e).events, CallEvent(e.callId, ChannelEventSeen, e.uuid))
    ensures Handle(db, e, now)
         == if e.cause in {NormalClearing, OriginatorCancel} then FinalizeCompleted(LogTagged(db, e), e.callId, now)
            else FinalizeIncomplete(LogTagged(db, e), e.callId, true, db.calls[e.callId].state == AgentReleased,
                                    db.calls[e.callId].contactId, now)
  {
    EventIsListed(e);
    StatesAreListed(db.calls[e.callId].state);
    LogLogs(db, CallEvent(e.callId, ChannelEventSeen, e.uuid));
    var writes := Writes(db, e);
    hide IsCustomerTerminal, IsNormalHangup, CustomerGone, IsVoicemailDropActive, RunWrites, FinalizeCompleted, FinalizeIncomplete, Log, Logged;
    TwoWrites(db, writes[0], writes[1], now);
    assert writes == [writes[0], writes[1]];
  }

  /** The other branches have one write. */
  lemma OneWrite(db: Db, e: TaggedEvent, now: Time)
    requires !(CustomerGone(e) && InDrop(db, e.callId))
    ensures Handle(db, e, now)
         == if !CustomerGone(e) then GenericEvent(db, e, now)
            else if e.callId !in db.calls then db
            else FinalizeCall(db, e.callId, CustomerHangup(e.cause), Some(CallEvent(e.callId, FinalizationEvent, e.uuid)), true, now).0
  {
    EventIsListed(e);
    if e.callId in db.calls {
      StatesAreListed(db.calls[e.callId].state);
    }
    var writes := Writes(db, e);
    hide IsCustomerTerminal, IsNormalHangup, CustomerGone, IsVoicemailDropActive, GenericEvent, FinalizeCall;
    if |writes| == 1 {
      TwoWrites(db, writes[0], writes[0], now);
      assert writes == [writes[0]];
    }
  }

  /** One handling of a tagged channel event is one of the listed cases. */
  lemma EventMeans(db: Db, e: TaggedEvent, now: Time)
    requires SchemaValid(db)
    ensures EventHandled(db, Handle(db, e, now), e, now)
  {
    hide SchemaValid, CustomerGone, InDrop, Handle, EventSeen, DropEnded, CallFinalized, GenericEvent, FinalizeCall;
    if CustomerGone(e) && InDrop(db, e.callId) {
      DropMeans(db, e, now);
      DropIsOfACall(db, e.callId);
    } else {
      OneWrite(db, e, now);
      if !CustomerGone(e) {
        GenericMeans(db, e, now);
      } else if e.callId in db.calls {
        FinalizeMeans(db, e.callId, CustomerHangup(e.cause), Some(CallEvent(e.callId, FinalizationEvent, e.uuid)), true, now);
      }
    }
  }

  lemma DropIsOfACall(db: Db, id: CallId)
    requires InDrop(db, id)
    ensures id in db.calls
  {
  }
}
