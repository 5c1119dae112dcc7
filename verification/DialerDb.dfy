/**
 The rows the dialer's call control reads and writes, and the single SQL
 statements its transactions are made of. A database is a value here; the
 class in DialerStore.dfy updates the same tables in place.
 */
module DialerDb {
  import opened Wrappers

  type CallId = nat
  type LegId = nat
  type ContactId = nat
  type AgentId = nat
  type UserId = nat
  type SessionId = nat
  type CampaignId = nat
  type EventUuid = nat
  type ChannelUuid = nat
  type PhoneNumber = string
  /** A logical clock; PostgreSQL's now() and clock_timestamp() become a step number. */
  type Time = nat

  datatype CallState =
    | Created
    | AgentRinging
    | AgentAnswered
    | CustomerDialing
    | CustomerRinging
    | Bridged
    | VoicemailSignalDetected
    | VoicemailDropRequested
    | VoicemailPlaybackStarted
    | AgentReleased
    | VoicemailPlaybackCompleted
    | Completed
    | Failed
    | Canceled

  datatype Outcome =
    | Answered
    | NotAnswered
    | Busy
    | CallFailed
    | VoicemailDetected
    | VoicemailDropped
    | AgentCanceled
    | CustomerHungUp
    | Suppressed

  datatype Call = Call(
    agentId: Option<AgentId>,
    campaignId: Option<CampaignId>,
    contactId: Option<ContactId>,
    state: CallState,
    outcome: Option<Outcome>,
    createdAt: Time,
    answeredAt: Option<Time>,
    endedAt: Option<Time>,
    updatedAt: Time,
    dropRequestedAt: Option<Time>,
    agentReleasedAt: Option<Time>,
    voicemailDetected: bool,
    lockedAt: Option<Time>
  )

  datatype LegKind = AgentLeg | CustomerLeg

  datatype LegState = LegCreated | LegStarted | LegAnswered | LegEnded

  datatype Leg = Leg(
    callId: CallId,
    kind: LegKind,
    uuid: Option<ChannelUuid>,
    state: LegState,
    answeredAt: Option<Time>,
    endedAt: Option<Time>
  )

  datatype ContactStatus = New | Calling | Done | Blocked

  datatype Contact = Contact(
    campaignId: CampaignId,
    number: PhoneNumber,
    status: ContactStatus,
    attempts: nat,
    lastAttemptedAt: Option<Time>
  )

  datatype AgentStatus = Offline | Ready | Registered | InCall

  datatype Availability = Available | Paused | WrapUp

  datatype Agent = Agent(userId: UserId, status: AgentStatus, availability: Availability, registered: bool)

  datatype Role = AgentRole | AdminRole

  datatype User = User(active: bool, role: Role)

  datatype SessionState = Connecting | Live | SessionEnded | SessionFailed

  datatype Session = Session(
    actor: UserId,
    callId: CallId,
    state: SessionState,
    legUuid: ChannelUuid,
    jobUuid: Option<nat>
  )

  datatype EventType =
    | CallStarted
    | ChannelEventSeen
    | FinalizationEvent
    | DropRequestedEvent
    | PlaybackStartedEvent
    | AgentReleasedEvent
    | AgentReleaseFailedEvent
    | DropFailedEvent
    | PlaybackCompletedEvent
    | PlaybackInterruptedEvent
    | PlaybackFailedEvent
    | CallEndedEvent
    | ManualStatusEvent

  datatype CallEvent = CallEvent(callId: CallId, eventType: EventType, uuid: Option<EventUuid>)

  datatype Db = Db(
    calls: map<CallId, Call>,
    legs: map<LegId, Leg>,
    contacts: map<ContactId, Contact>,
    agents: map<AgentId, Agent>,
    users: map<UserId, User>,
    sessions: map<SessionId, Session>,
    campaigns: map<CampaignId, bool>,
    suppressed: set<PhoneNumber>,
    events: seq<CallEvent>,
    callStartPaused: bool
  )

  // ---------------------------------------------------------------- predicates of the queries

  predicate IsTerminal(state: CallState) {
    state == Completed || state == Failed || state == Canceled
  }

  predicate IsVoicemailDropActive(state: CallState) {
    state == VoicemailDropRequested || state == VoicemailPlaybackStarted || state == AgentReleased
  }

  /** ended_at is null and state not in ('completed', 'failed', 'canceled') */
  predicate Open(call: Call) {
    call.endedAt.None? && !IsTerminal(call.state)
  }

  /** Open, and still occupying its agent. */
  predicate Active(call: Call) {
    Open(call) && call.state != AgentReleased
  }

  predicate HasActiveCall(calls: map<CallId, Call>, agent: AgentId) {
    exists c | c in calls :: Active(calls[c]) && calls[c].agentId == Some(agent)
  }

  predicate HasOtherOpenCall(calls: map<CallId, Call>, contact: ContactId, except: CallId) {
    exists c | c in calls :: c != except && Open(calls[c]) && calls[c].contactId == Some(contact)
  }

  /** What every transaction about one call leaves alone: the other calls, the users' side, and the log so far. */
  ghost predicate OnlyTouches(before: Db, after: Db, id: CallId) {
    && after.calls.Keys == before.calls.Keys
    && (forall c | c in before.calls && c != id :: after.calls[c] == before.calls[c])
    && after.contacts.Keys == before.contacts.Keys
    && after.agents.Keys == before.agents.Keys
    && after.legs.Keys == before.legs.Keys
    && after == before.(calls := after.calls, legs := after.legs, contacts := after.contacts,
                        agents := after.agents, events := after.events)
    && before.events <= after.events
  }

  // ---------------------------------------------------------------- statements

  /** The transitions calls_state_progression_guard admits for a row without a manual lock. */
  predicate Progresses(before: CallState, after: CallState) {
    || after == before
    || (&& !IsTerminal(before)
        && (before == VoicemailDropRequested ==>
              after == Bridged || after == VoicemailSignalDetected || after == VoicemailPlaybackStarted
              || after == AgentReleased || IsTerminal(after))
        && (before == VoicemailPlaybackStarted ==> after == AgentReleased || IsTerminal(after))
        && (before == AgentReleased ==> IsTerminal(after))
        && (before == VoicemailPlaybackCompleted ==> after == Completed || after == Failed))
  }

  /**
   The row trigger with the check constraint on manual locks; None is the
   exception that aborts the transaction. A locked row keeps its status.
   */
  function GuardUpdate(before: Call, after: Call): Option<Call> {
    if before.lockedAt.Some? then
      Some(after.(state := before.state, outcome := before.outcome, lockedAt := before.lockedAt))
    else if (if after.lockedAt.Some? then IsTerminal(after.state) && after.outcome.Some?
             else Progresses(before.state, after.state))
    then Some(after)
    else None
  }

  predicate IsVoicemailLifecycleEvent(t: EventType) {
    t == DropRequestedEvent || t == PlaybackStartedEvent || t == AgentReleasedEvent
    || t == PlaybackCompletedEvent || t == PlaybackInterruptedEvent
  }

  predicate Conflicts(row: CallEvent, other: CallEvent) {
    || (row.uuid.Some? && row.uuid == other.uuid)
    || (row.callId == other.callId && row.eventType == other.eventType && IsVoicemailLifecycleEvent(row.eventType))
  }

  /** insert into call_events ... on conflict do nothing, under both unique indexes. */
  function InsertEvent(events: seq<CallEvent>, row: CallEvent): seq<CallEvent> {
    if exists i | 0 <= i < |events| :: Conflicts(row, events[i]) then events else events + [row]
  }

  function Log(db: Db, row: CallEvent): (r: Db)
    ensures r == db.(events := r.events) && db.events <= r.events
  {
    db.(events := InsertEvent(db.events, row))
  }

  /** An update of one calls row through the trigger; None aborts. */
  function PutCall(db: Db, id: CallId, row: Call): (r: Option<Db>)
    requires id in db.calls
    ensures r.Some? ==>
              && r.value.calls.Keys == db.calls.Keys
              && r.value == db.(calls := db.calls[id := r.value.calls[id]])
  {
    var guarded := GuardUpdate(db.calls[id], row);
    if guarded.None? then None else Some(db.(calls := db.calls[id := guarded.value]))
  }

  /** A single update statement on its own: an exception of the trigger leaves the table as it was. */
  function UpdateCall(db: Db, id: CallId, row: Call): (r: Db)
    requires id in db.calls
    ensures id in r.calls && r == db.(calls := db.calls[id := r.calls[id]])
  {
    var updated := PutCall(db, id, row);
    if updated.Some? then updated.value else assert db.calls == db.calls[id := db.calls[id]]; db
  }

  function EndLegs(legs: map<LegId, Leg>, call: CallId, only: Option<LegKind>, now: Time): map<LegId, Leg> {
    map l | l in legs ::
      if legs[l].callId == call && (only.None? || legs[l].kind == only.value)
      then legs[l].(state := LegEnded, endedAt := Coalesce(legs[l].endedAt, Some(now)))
      else legs[l]
  }

  /**
   Close the legs of a call, or one kind of them; where a caller's where clause skips
   finished legs, this leaves them as they are.
  */
  function CloseLegs(db: Db, call: CallId, only: Option<LegKind>, now: Time): (r: Db)
    ensures r == db.(legs := r.legs) && r.legs.Keys == db.legs.Keys
  {
    db.(legs := EndLegs(db.legs, call, only, now))
  }

  /** Give a lead back when its own status says a call holds it. */
  function ReturnLead(db: Db, contact: Option<ContactId>, status: ContactStatus): (r: Db)
    ensures r == db.(contacts := r.contacts) && r.contacts.Keys == db.contacts.Keys
  {
    match contact
    case None => db
    case Some(k) =>
      if k in db.contacts && db.contacts[k].status == Calling
      then db.(contacts := db.contacts[k := db.contacts[k].(status := status)])
      else db
  }

  /** Give a lead back unless an open call other than this one holds it. */
  function ReturnLeadUnlessHeld(db: Db, contact: Option<ContactId>, status: ContactStatus, call: CallId): (r: Db)
    ensures r == db.(contacts := r.contacts) && r.contacts.Keys == db.contacts.Keys
  {
    match contact
    case None => db
    case Some(k) => if HasOtherOpenCall(db.calls, k, call) then db else ReturnLead(db, contact, status)
  }

  function FreedAgent(agent: Agent): Agent {
    agent.(status := if agent.registered then Ready else Offline,
           availability := if agent.availability == Paused then Paused else Available)
  }

  /** finishAgentCall: free the agent unless a call still occupies it. */
  function FinishAgent(db: Db, agent: Option<AgentId>): (r: Db)
    ensures r == db.(agents := r.agents) && r.agents.Keys == db.agents.Keys
  {
    match agent
    case None => db
    case Some(a) =>
      if a in db.agents && !HasActiveCall(db.calls, a)
      then db.(agents := db.agents[a := FreedAgent(db.agents[a])])
      else db
  }
}
