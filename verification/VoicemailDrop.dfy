/**
 The voicemail drop: claim, playback start, agent release, and the two
 transactions that end a call from inside a drop (esl-events.ts, dashboard/calls.ts).
 */
module VoicemailDrop {
  import opened Wrappers
  import opened DialerDb

  /** The guard every drop statement repeats: ended_at is null and the drop is in progress. */
  predicate DropInProgress(db: Db, id: CallId) {
    id in db.calls && db.calls[id].endedAt.None? && IsVoicemailDropActive(db.calls[id].state)
  }

  /** dropVoicemailForCall, the claiming transaction. */
  function ClaimDrop(db: Db, id: CallId, user: UserId, now: Time): Db {
    if id !in db.calls then db
    else
      var call := db.calls[id];
      if call.agentId.None? || call.agentId.value !in db.agents || db.agents[call.agentId.value].userId != user
         || call.endedAt.Some? || !(call.state == Bridged || call.state == VoicemailSignalDetected)
      then db
      else
        match PutCall(db, id, call.(state := VoicemailDropRequested,
                                    dropRequestedAt := Coalesce(call.dropRequestedAt, Some(now)),
                                    updatedAt := now))
        case None => db
        case Some(claimed) => Log(claimed, CallEvent(id, DropRequestedEvent, None))
  }

  /** The compensating statement after FreeSWITCH explicitly rejected the transfer. */
  function RevertDrop(db: Db, id: CallId, claimedState: CallState, now: Time): Db {
    if id in db.calls && db.calls[id].endedAt.None? && db.calls[id].state == VoicemailDropRequested then
      UpdateCall(db, id, db.calls[id].(state := claimedState, dropRequestedAt := None, updatedAt := now))
    else db
  }

  /** The playback-started event's own two statements. */
  function MarkPlaybackStarted(db: Db, id: CallId, now: Time): Db {
    if !DropInProgress(db, id) then db
    else
      var logged := Log(db, CallEvent(id, PlaybackStartedEvent, None));
      if db.calls[id].state == AgentReleased then logged
      else UpdateCall(logged, id, db.calls[id].(state := VoicemailPlaybackStarted, updatedAt := now))
  }

  /** The guarded "agent_released" update. */
  function MarkReleased(db: Db, id: CallId, now: Time): Db {
    if !DropInProgress(db, id) then db
    else
      var call := db.calls[id];
      UpdateCall(db, id, call.(state := AgentReleased,
                               agentReleasedAt := Coalesce(call.agentReleasedAt, Some(now)),
                               updatedAt := now))
  }

  /** releaseAgentAfterVoicemailPlaybackStarts, once the agent leg is confirmed gone. */
  function ReleaseAgent(db: Db, id: CallId, now: Time): Db {
    if !DropInProgress(db, id) then db
    else
      var marked := MarkReleased(Log(db, CallEvent(id, AgentReleasedEvent, None)), id, now);
      FinishAgent(CloseLegs(marked, id, Some(AgentLeg), now), db.calls[id].agentId)
  }

  function CompletedRow(call: Call, now: Time): Call {
    call.(state := Completed, outcome := Some(VoicemailDropped), endedAt := Some(now), updatedAt := now)
  }

  /** What both ending transactions do after their guarded update won: event, legs, lead, agent. */
  function CloseDrop(db: Db, event: CallEvent, contact: Option<ContactId>, status: ContactStatus,
                     agent: Option<AgentId>, now: Time): (r: Db)
    ensures r == db.(events := r.events, legs := r.legs, contacts := r.contacts, agents := r.agents)
    ensures r.legs.Keys == db.legs.Keys && r.contacts.Keys == db.contacts.Keys && r.agents.Keys == db.agents.Keys
    ensures db.events <= r.events
  {
    var closed := CloseLegs(Log(db, event), event.callId, None, now);
    FinishAgent(ReturnLead(closed, contact, status), agent)
  }

  /** finalizeCompletedVoicemailPlayback */
  function FinalizeCompleted(db: Db, id: CallId, now: Time): Db {
    if !DropInProgress(db, id) then db
    else
      var call := db.calls[id];
      var updated := PutCall(db, id, CompletedRow(call, now));
      if updated.None? then db
      else CloseDrop(updated.value, CallEvent(id, PlaybackCompletedEvent, None), call.contactId, Done,
                     if call.agentReleasedAt.None? then call.agentId else None, now)
  }

  function IncompleteRow(call: Call, failed: bool, now: Time): Call {
    call.(state := if failed then Failed else Completed,
          outcome := Some(if failed then CallFailed else CustomerHungUp),
          endedAt := Some(now), updatedAt := now)
  }

  function IncompleteEvent(id: CallId, failed: bool): CallEvent {
    CallEvent(id, if failed then PlaybackFailedEvent else PlaybackInterruptedEvent, None)
  }

  /**
   finalizeIncompleteVoicemailPlayback. The contact and the released flag are what
   the caller read before the transaction; the agent is read under its lock.
   */
  function FinalizeIncomplete(db: Db, id: CallId, failed: bool, agentReleased: bool,
                              contact: Option<ContactId>, now: Time): Db {
    if !DropInProgress(db, id) then db
    else
      var call := db.calls[id];
      var updated := PutCall(db, id, IncompleteRow(call, failed, now));
      if updated.None? then db
      else CloseDrop(updated.value, IncompleteEvent(id, failed), contact, New,
                     if agentReleased then None else call.agentId, now)
  }

  lemma ClaimFrame(db: Db, id: CallId, user: UserId, claimedState: CallState, now: Time)
    ensures OnlyTouches(db, ClaimDrop(db, id, user, now), id)
    ensures OnlyTouches(db, RevertDrop(db, id, claimedState, now), id)
  {
    hide Log, PutCall, UpdateCall;
  }

  lemma MarkStartedFrame(db: Db, id: CallId, now: Time)
    ensures OnlyTouches(db, MarkPlaybackStarted(db, id, now), id)
  {
    hide Log, UpdateCall, IsVoicemailDropActive;
  }

  lemma MarkReleasedFrame(db: Db, id: CallId, now: Time)
    ensures OnlyTouches(db, MarkReleased(db, id, now), id)
  {
    hide UpdateCall, IsVoicemailDropActive;
  }

  lemma ReleaseFrame(db: Db, id: CallId, now: Time)
    ensures OnlyTouches(db, ReleaseAgent(db, id, now), id)
  {
    MarkReleasedFrame(Log(db, CallEvent(id, AgentReleasedEvent, None)), id, now);
    hide Log, CloseLegs, FinishAgent, MarkReleased;
  }

  lemma DropIsKnown(db: Db, id: CallId)
    requires DropInProgress(db, id)
    ensures id in db.calls
  {
  }

  lemma CloseDropTouches(before: Db, db: Db, id: CallId, event: CallEvent, contact: Option<ContactId>,
                         status: ContactStatus, agent: Option<AgentId>, now: Time)
    requires OnlyTouches(before, db, id)
    ensures OnlyTouches(before, CloseDrop(db, event, contact, status, agent, now), id)
  {
    hide CloseDrop;
  }

  lemma CompletedFrame(db: Db, id: CallId, now: Time)
    ensures OnlyTouches(db, FinalizeCompleted(db, id, now), id)
  {
    hide CloseDrop, PutCall, CompletedRow, DropInProgress, OnlyTouches;
    Untouched(db, id);
    if DropInProgress(db, id) {
      DropIsKnown(db, id);
      var call := db.calls[id];
      PutTouches(db, id, CompletedRow(call, now));
      var updated := PutCall(db, id, CompletedRow(call, now));
      if updated.Some? {
        CloseDropTouches(db, updated.value, id, CallEvent(id, PlaybackCompletedEvent, None), call.contactId, Done,
                         if call.agentReleasedAt.None? then call.agentId else None, now);
      }
    }
  }

  lemma IncompleteFrame(db: Db, id: CallId, failed: bool, agentReleased: bool, contact: Option<ContactId>, now: Time)
    ensures OnlyTouches(db, FinalizeIncomplete(db, id, failed, agentReleased, contact, now), id)
  {
    hide CloseDrop, PutCall, IncompleteRow, IncompleteEvent, DropInProgress, OnlyTouches;
    Untouched(db, id);
    if DropInProgress(db, id) {
      DropIsKnown(db, id);
      var call := db.calls[id];
      PutTouches(db, id, IncompleteRow(call, failed, now));
      var updated := PutCall(db, id, IncompleteRow(call, failed, now));
      if updated.Some? {
        CloseDropTouches(db, updated.value, id, IncompleteEvent(id, failed), contact, New,
                         if agentReleased then None else call.agentId, now);
      }
    }
  }

  lemma Untouched(db: Db, id: CallId)
    ensures OnlyTouches(db, db, id)
  {
  }

  lemma PutTouches(db: Db, id: CallId, row: Call)
    requires id in db.calls
    ensures PutCall(db, id, row).Some? ==> OnlyTouches(db, PutCall(db, id, row).value, id)
  {
    hide PutCall;
  }

  /** Both ending updates pass the trigger on a row without a manual lock and leave a final row. */
  lemma DropEndsPass(call: Call, failed: bool, now: Time)
    requires IsVoicemailDropActive(call.state) && call.lockedAt.None?
    ensures GuardUpdate(call, CompletedRow(call, now)) == Some(CompletedRow(call, now))
    ensures GuardUpdate(call, IncompleteRow(call, failed, now)) == Some(IncompleteRow(call, failed, now))
  {
  }
}
