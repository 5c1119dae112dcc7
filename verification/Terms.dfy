/**
 The words in which contracts say what a transaction means: the states listed out as
 the schema and the documentation list them, and conditions over whole tables. No
 transaction is defined with them.
 */
module Terms {
  import opened Wrappers
  import opened DialerDb

  const OVER_STATES: set<CallState> := {Completed, Failed, Canceled}
  const DROP_STATES: set<CallState> := {VoicemailDropRequested, VoicemailPlaybackStarted, AgentReleased}
  const ANSWERED_OUTCOMES: set<Outcome> := {Answered, CustomerHungUp, VoicemailDetected, VoicemailDropped}
  const ONCE_PER_CALL: set<EventType> := {
    DropRequestedEvent, PlaybackStartedEvent, AgentReleasedEvent, PlaybackCompletedEvent, PlaybackInterruptedEvent
  }

  /** Not ended in either column. */
  predicate Running(call: Call) {
    call.endedAt.None? && call.state !in OVER_STATES
  }

  /** A running call whose agent has not left it for a recording. */
  predicate NeedsAgent(call: Call) {
    Running(call) && call.state != AgentReleased
  }

  predicate InDrop(db: Db, id: CallId) {
    id in db.calls && db.calls[id].endedAt.None? && db.calls[id].state in DROP_STATES
  }

  ghost predicate OnPhone(calls: map<CallId, Call>, agent: AgentId) {
    exists c :: c in calls && NeedsAgent(calls[c]) && calls[c].agentId == Some(agent)
  }

  ghost predicate HeldByAnother(calls: map<CallId, Call>, contact: ContactId, id: CallId) {
    exists c :: c in calls && c != id && Running(calls[c]) && calls[c].contactId == Some(contact)
  }

  /** A session of the user is connecting or connected. */
  ghost predicate Supervising(sessions: map<SessionId, Session>, user: UserId) {
    exists s :: s in sessions && sessions[s].actor == user && sessions[s].state in {Connecting, Live}
  }

  /** The user owns the agent of a call that needs it. */
  ghost predicate OnACall(db: Db, user: UserId) {
    exists c :: c in db.calls && NeedsAgent(db.calls[c]) && db.calls[c].agentId.Some?
           && db.calls[c].agentId.value in db.agents && db.agents[db.calls[c].agentId.value].userId == user
  }

  // ---------------------------------------------------------------- the queries ask for exactly these

  lemma StatesAreListed(state: CallState)
    ensures IsTerminal(state) <==> state in OVER_STATES
    ensures IsVoicemailDropActive(state) <==> state in DROP_STATES
  {
  }

  lemma RunningIsOpen(call: Call)
    ensures Open(call) == Running(call) && Active(call) == NeedsAgent(call)
  {
    StatesAreListed(call.state);
  }

  lemma OnPhoneIsActive(calls: map<CallId, Call>, agent: AgentId)
    ensures HasActiveCall(calls, agent) == OnPhone(calls, agent)
  {
    forall c | c in calls
      ensures Active(calls[c]) == NeedsAgent(calls[c])
    {
      RunningIsOpen(calls[c]);
    }
    hide Active, NeedsAgent;
  }

  lemma HeldIsOtherOpen(calls: map<CallId, Call>, contact: ContactId, id: CallId)
    ensures HasOtherOpenCall(calls, contact, id) == HeldByAnother(calls, contact, id)
  {
    forall c | c in calls
      ensures Open(calls[c]) == Running(calls[c])
    {
      RunningIsOpen(calls[c]);
    }
    hide Open, Running;
  }

  lemma ListedOncePerCall(t: EventType)
    ensures IsVoicemailLifecycleEvent(t) <==> t in ONCE_PER_CALL
  {
  }

  // ---------------------------------------------------------------- the row trigger

  /** The states calls_state_progression_guard lets a call in this state go to, itself included. */
  const NEXT_STATES: map<CallState, set<CallState>> := map[
    Completed := {Completed},
    Failed := {Failed},
    Canceled := {Canceled},
    VoicemailDropRequested := {VoicemailDropRequested, Bridged, VoicemailSignalDetected, VoicemailPlaybackStarted,
                               AgentReleased, Completed, Failed, Canceled},
    VoicemailPlaybackStarted := {VoicemailPlaybackStarted, AgentReleased, Completed, Failed, Canceled},
    AgentReleased := {AgentReleased, Completed, Failed, Canceled},
    VoicemailPlaybackCompleted := {VoicemailPlaybackCompleted, Completed, Failed}
  ]

  /** An update of a call goes through exactly when the trigger allows it; a locked row keeps its result, whatever is asked. */
  lemma TriggerAdmitsIff(before: Call, after: Call)
    ensures before.lockedAt.Some? ==>
              GuardUpdate(before, after)
              == Some(after.(state := before.state, outcome := before.outcome, lockedAt := before.lockedAt))
    ensures before.lockedAt.None? && after.lockedAt.Some? ==>
              GuardUpdate(before, after) == if after.state in OVER_STATES && after.outcome.Some? then Some(after) else None
    ensures before.lockedAt.None? && after.lockedAt.None? ==>
              GuardUpdate(before, after)
              == if before.state !in NEXT_STATES || after.state in NEXT_STATES[before.state] then Some(after) else None
  {
  }

  // ---------------------------------------------------------------- the event log

  /** A row the log already has: the same event, or a milestone of the call that is recorded once. */
  ghost predicate AlreadyLogged(events: seq<CallEvent>, row: CallEvent) {
    exists i :: 0 <= i < |events|
           && (|| (row.uuid.Some? && events[i].uuid == row.uuid)
               || (row.eventType in ONCE_PER_CALL && events[i].callId == row.callId && events[i].eventType == row.eventType))
  }

  /** One row is added at the end unless the log has it. */
  ghost predicate Logged(before: seq<CallEvent>, after: seq<CallEvent>, row: CallEvent) {
    after == if AlreadyLogged(before, row) then before else before + [row]
  }

  lemma LogLogs(db: Db, row: CallEvent)
    ensures Logged(db.events, Log(db, row).events, row)
  {
    ListedOncePerCall(row.eventType);
    forall i | 0 <= i < |db.events|
      ensures Conflicts(row, db.events[i])
              <==> || (row.uuid.Some? && db.events[i].uuid == row.uuid)
                   || (row.eventType in ONCE_PER_CALL && db.events[i].callId == row.callId
                       && db.events[i].eventType == row.eventType)
    {
    }
    hide Conflicts;
  }
}
