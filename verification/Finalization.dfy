/**
 call-finalization.ts: the one transaction five independent writers use to end a
 call, and the decisions it takes for rows a partial write left inconsistent.
 */
module Finalization {
  import opened Wrappers
  import opened DialerDb

  datatype Decision = Decision(outcome: Outcome, state: CallState)

  datatype HangupCause =
    | NormalClearing
    | OriginatorCancel
    | UserBusy
    | NoAnswer
    | NoUserResponse
    | CallRejected
    | OtherCause

  /** The resolve callbacks the callers of finalizeCallTransaction pass. */
  datatype Resolver =
    | KeepDecision                          // consistency repair
    | AlwaysFailed                          // originate failure, watchdog, failed background job
    | CustomerHangup(cause: HangupCause)    // customer terminal event
    | MissingInFreeSwitch                   // reconciliation

  datatype FinalizeStatus = Missing | NotApplicable | Finalized | AlreadyFinalized | Rejected

  function ContactStatusFor(outcome: Option<Outcome>): ContactStatus {
    match outcome
    case Some(Answered) => Done
    case Some(CustomerHungUp) => Done
    case Some(VoicemailDetected) => Done
    case Some(VoicemailDropped) => Done
    case _ => New
  }

  function ResolveCustomerHangup(answered: bool, cause: HangupCause, voicemailDetected: bool): Outcome {
    if answered then
      if voicemailDetected then VoicemailDetected else CustomerHungUp
    else match cause
      case UserBusy => Busy
      case NoAnswer => NotAnswered
      case NoUserResponse => NotAnswered
      case CallRejected => NotAnswered
      case OriginatorCancel => NotAnswered
      case _ => CallFailed
  }

  function FromOutcome(outcome: Outcome): Decision {
    Decision(outcome, if outcome == CallFailed then Failed else Completed)
  }

  function Resolve(resolver: Resolver, call: Call): Option<Decision> {
    match resolver
    case KeepDecision => None
    case AlwaysFailed => Some(Decision(CallFailed, Failed))
    case CustomerHangup(cause) =>
      Some(FromOutcome(ResolveCustomerHangup(call.answeredAt.Some?, cause, call.voicemailDetected)))
    case MissingInFreeSwitch =>
      Some(FromOutcome(if call.answeredAt.Some? then CustomerHungUp else CallFailed))
  }

  predicate IsFinalized(call: Call) {
    call.endedAt.Some? && IsTerminal(call.state) && call.outcome.Some?
  }

  /** decisionForTerminalStateWithoutTimestamp */
  function DecisionForTerminalState(call: Call, resolved: Option<Decision>): Decision
    requires IsTerminal(call.state)
  {
    var outcome :=
      if call.outcome.Some? then call.outcome.value
      else if resolved.Some? then resolved.value.outcome
      else match call.state
        case Failed => CallFailed
        case Canceled => AgentCanceled
        case _ =>
          if call.answeredAt.None? then NotAnswered
          else if call.voicemailDetected then VoicemailDetected
          else CustomerHungUp;
    Decision(outcome, call.state)
  }

  /** decisionForEndedNonTerminalCall */
  function DecisionForEndedCall(call: Call): Decision {
    FromOutcome(
      if call.outcome.Some? then call.outcome.value
      else if call.answeredAt.None? then CallFailed
      else if call.voicemailDetected then VoicemailDetected
      else CustomerHungUp)
  }

  function Decide(call: Call, resolver: Resolver): Option<Decision>
    requires !IsFinalized(call)
  {
    var resolved := Resolve(resolver, call);
    if IsTerminal(call.state) then Some(DecisionForTerminalState(call, resolved))
    else if resolved.Some? then resolved
    else if call.endedAt.Some? then Some(DecisionForEndedCall(call))
    else None
  }

  /** The row the winning update asks for, before the trigger sees it. */
  function EndedRow(call: Call, decision: Decision, now: Time): Call {
    call.(state := decision.state,
          outcome := Coalesce(call.outcome, Some(decision.outcome)),
          endedAt := Coalesce(call.endedAt, Some(now)),
          updatedAt := now)
  }

  /** The cleanup every finalization runs, replayed or not: legs, lead, agent. */
  function Cleanup(db: Db, id: CallId, now: Time): (r: Db)
    requires id in db.calls
    ensures r == db.(legs := r.legs, contacts := r.contacts, agents := r.agents)
    ensures r.legs.Keys == db.legs.Keys && r.contacts.Keys == db.contacts.Keys && r.agents.Keys == db.agents.Keys
  {
    var call := db.calls[id];
    var closed := CloseLegs(db, id, None, now);
    var returned := ReturnLeadUnlessHeld(closed, call.contactId, ContactStatusFor(call.outcome), id);
    FinishAgent(returned, call.agentId)
  }

  function LogOptional(db: Db, row: Option<CallEvent>): (r: Db)
    ensures r == db.(events := r.events) && db.events <= r.events
  {
    if row.Some? then Log(db, row.value) else db
  }

  /** The branch for a call that is not final: decide, log, update, clean up. */
  function FinalizeUnfinished(db: Db, id: CallId, resolver: Resolver, event: Option<CallEvent>, now: Time)
    : (Db, FinalizeStatus)
    requires id in db.calls && !IsFinalized(db.calls[id])
  {
    var decision := Decide(db.calls[id], resolver);
    if decision.None? then (db, NotApplicable)
    else
      var updated := PutCall(LogOptional(db, event), id, EndedRow(db.calls[id], decision.value, now));
      if updated.None? then (db, Rejected) else (Cleanup(updated.value, id, now), Finalized)
  }

  /** The branch for a replay: the cleanup runs again, the winning outcome stays. */
  function ReplayFinalized(db: Db, id: CallId, event: Option<CallEvent>, logWhenFinal: bool, now: Time): (r: Db)
    requires id in db.calls
  {
    Cleanup(if logWhenFinal then LogOptional(db, event) else db, id, now)
  }

  /** finalizeCallTransaction */
  function FinalizeCall(db: Db, id: CallId, resolver: Resolver, event: Option<CallEvent>, logWhenFinal: bool, now: Time)
    : (Db, FinalizeStatus)
  {
    if id !in db.calls then (db, Missing)
    else if IsFinalized(db.calls[id]) then (ReplayFinalized(db, id, event, logWhenFinal, now), AlreadyFinalized)
    else FinalizeUnfinished(db, id, resolver, event, now)
  }

  /** The check constraint calls_manual_status_lock_valid, which PostgreSQL enforces on every row. */
  predicate LockValid(call: Call) {
    call.lockedAt.Some? ==> IsTerminal(call.state) && call.outcome.Some?
  }

  ghost predicate LocksValid(calls: map<CallId, Call>) {
    forall c | c in calls :: LockValid(calls[c])
  }

  ghost predicate SchemaValid(db: Db) {
    LocksValid(db.calls)
  }

  /** The trigger never aborts a finalization: every decision it can take is an allowed transition. */
  lemma DecisionPassesGuard(call: Call, resolver: Resolver, now: Time)
    requires LockValid(call) && !IsFinalized(call) && Decide(call, resolver).Some?
    ensures GuardUpdate(call, EndedRow(call, Decide(call, resolver).value, now)).Some?
    ensures IsFinalized(GuardUpdate(call, EndedRow(call, Decide(call, resolver).value, now)).value)
  {
  }

  /** Every update the trigger lets through keeps the constraint. */
  lemma PutKeepsSchema(db: Db, id: CallId, row: Call)
    requires SchemaValid(db) && id in db.calls && PutCall(db, id, row).Some?
    ensures SchemaValid(PutCall(db, id, row).value)
  {
    assert LockValid(db.calls[id]);
    var after := PutCall(db, id, row).value;
    forall c | c in after.calls ensures LockValid(after.calls[c]) {
      if c != id {
        assert after.calls[c] == db.calls[c];
      }
    }
  }

  lemma UnfinishedFrame(db: Db, id: CallId, resolver: Resolver, event: Option<CallEvent>, now: Time)
    requires id in db.calls && !IsFinalized(db.calls[id])
    ensures OnlyTouches(db, FinalizeUnfinished(db, id, resolver, event, now).0, id)
  {
    hide LogOptional, Cleanup, PutCall, EndedRow, Decide;
    var decision := Decide(db.calls[id], resolver);
    if decision.Some? {
      var updated := PutCall(LogOptional(db, event), id, EndedRow(db.calls[id], decision.value, now));
      if updated.Some? {
        assert OnlyTouches(db, updated.value, id);
      }
    }
  }

  lemma FinalizeFrame(db: Db, id: CallId, resolver: Resolver, event: Option<CallEvent>, logWhenFinal: bool, now: Time)
    ensures OnlyTouches(db, FinalizeCall(db, id, resolver, event, logWhenFinal, now).0, id)
  {
    hide LogOptional, Cleanup, FinalizeUnfinished;
    if id in db.calls && !IsFinalized(db.calls[id]) {
      UnfinishedFrame(db, id, resolver, event, now);
    }
  }

  /** The row a finalization leaves when it decides. */
  lemma FinalizedRow(db: Db, id: CallId, resolver: Resolver, event: Option<CallEvent>, logWhenFinal: bool, now: Time)
    requires id in db.calls && LockValid(db.calls[id]) && !IsFinalized(db.calls[id])
    requires Decide(db.calls[id], resolver).Some?
    ensures var (after, status) := FinalizeCall(db, id, resolver, event, logWhenFinal, now);
            && status == Finalized && id in after.calls && IsFinalized(after.calls[id])
            && Some(after.calls[id]) == GuardUpdate(db.calls[id], EndedRow(db.calls[id], Decide(db.calls[id], resolver).value, now))
  {
    DecisionPassesGuard(db.calls[id], resolver, now);
    hide Cleanup, LogOptional, Decide, EndedRow, GuardUpdate;
  }

  /**
   The first finalization wins: whoever finalizes the call next, with whatever
   decision, leaves every call row as it is.
   */
  lemma FirstFinalizationWins(db: Db, id: CallId, first: Resolver, second: Resolver,
                              event: Option<CallEvent>, secondEvent: Option<CallEvent>, now: Time, secondNow: Time)
    requires id in db.calls && LockValid(db.calls[id])
    requires FinalizeCall(db, id, first, event, true, now).1 == Finalized
    ensures var after := FinalizeCall(db, id, first, event, true, now).0;
            && FinalizeCall(after, id, second, secondEvent, true, secondNow).1 == AlreadyFinalized
            && FinalizeCall(after, id, second, secondEvent, true, secondNow).0.calls == after.calls
  {
    FinalizedRow(db, id, first, event, true, now);
    hide Cleanup, LogOptional, Decide, EndedRow, GuardUpdate, FinalizeUnfinished, IsFinalized;
  }

  /**
   How a call ends when its customer's leg does: an answered call is never reported
   busy, unanswered or failed, an unanswered one never as answered or hung up, and
   a voicemail verdict only ever replaces "hung up".
   */
  lemma CustomerHangupMeansAnswered(db: Db, id: CallId, cause: HangupCause, event: Option<CallEvent>, now: Time)
    requires id in db.calls && Open(db.calls[id]) && db.calls[id].outcome.None? && db.calls[id].lockedAt.None?
    ensures var call := db.calls[id]; var ended := FinalizeCall(db, id, CustomerHangup(cause), event, true, now).0.calls[id];
            && ended.endedAt == Some(now)
            && (call.answeredAt.Some? && !call.voicemailDetected ==> ended.outcome == Some(CustomerHungUp))
            && (call.answeredAt.Some? && call.voicemailDetected ==> ended.outcome == Some(VoicemailDetected))
            && (call.answeredAt.None? ==> (ended.outcome == Some(Busy) <==> cause == UserBusy))
            && (call.answeredAt.None? ==>
                  (ended.outcome == Some(NotAnswered) <==>
                     cause == NoAnswer || cause == NoUserResponse || cause == CallRejected || cause == OriginatorCancel))
            && (call.answeredAt.None? ==>
                  (ended.outcome == Some(CallFailed) <==> cause == NormalClearing || cause == OtherCause))
            && ended.state == (if ended.outcome == Some(CallFailed) then Failed else Completed)
            && (ContactStatusFor(ended.outcome) == Done <==> call.answeredAt.Some?)
  {
    FinalizedRow(db, id, CustomerHangup(cause), event, true, now);
    hide FinalizeCall;
  }
}
