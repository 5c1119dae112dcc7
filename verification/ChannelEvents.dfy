/**
 esl-events.ts persistFreeSwitchEvent for tagged CHANNEL_* events: the generic
 state transaction, and the branches a customer leg's terminal event takes.
 */
module ChannelEvents {
  import opened Wrappers
  import opened DialerDb
  import opened Finalization
  import opened VoicemailDrop

  datatype ChannelEventName =
    | ChannelCreate
    | ChannelProgress
    | ChannelProgressMedia
    | ChannelAnswer
    | ChannelBridge
    | ChannelHangup
    | ChannelHangupComplete
    | ChannelDestroy

  datatype TaggedEvent = TaggedEvent(
    callId: CallId,
    name: ChannelEventName,
    leg: LegKind,
    legUuid: Option<ChannelUuid>,
    uuid: Option<EventUuid>,
    cause: HangupCause
  )

  predicate IsTerminalEvent(name: ChannelEventName) {
    name == ChannelHangup || name == ChannelHangupComplete || name == ChannelDestroy
  }

  predicate IsCustomerTerminal(e: TaggedEvent) {
    IsTerminalEvent(e.name) && e.leg == CustomerLeg
  }

  predicate IsNormalHangup(cause: HangupCause) {
    cause == NormalClearing || cause == OriginatorCancel
  }

  function LegStateOf(name: ChannelEventName): LegState {
    if name == ChannelAnswer || name == ChannelBridge then LegAnswered
    else if IsTerminalEvent(name) then LegEnded
    else LegStarted
  }

  function JoinLegState(current: LegState, seen: LegState): LegState {
    if current == LegEnded || seen == LegEnded then LegEnded
    else if current == LegAnswered || seen == LegAnswered then LegAnswered
    else if current == LegStarted || seen == LegStarted then LegStarted
    else current
  }

  function AdvancedLeg(leg: Leg, e: TaggedEvent, now: Time): Leg {
    leg.(uuid := Coalesce(leg.uuid, e.legUuid),
         state := JoinLegState(leg.state, LegStateOf(e.name)),
         answeredAt := if e.name == ChannelAnswer then Coalesce(leg.answeredAt, Some(now)) else leg.answeredAt,
         endedAt := if IsTerminalEvent(e.name) then Coalesce(leg.endedAt, Some(now)) else leg.endedAt)
  }

  predicate BridgesCall(e: TaggedEvent) {
    (e.name == ChannelAnswer && e.leg == CustomerLeg) || e.name == ChannelBridge
  }

  /** Whether this event runs a calls update whose where clause admits a row in this state. */
  predicate AdvanceMatches(state: CallState, e: TaggedEvent) {
    var beforeDialing := state == Created || state == AgentRinging || state == AgentAnswered;
    if e.name == ChannelCreate && e.leg == CustomerLeg then beforeDialing || state == CustomerDialing
    else if e.name == ChannelProgress && e.leg == CustomerLeg then
      beforeDialing || state == CustomerDialing || state == CustomerRinging
    else if e.name == ChannelAnswer && e.leg == AgentLeg then beforeDialing
    else BridgesCall(e) && !IsTerminal(state)
  }

  predicate IsDialingState(state: CallState) {
    || state == Created || state == AgentRinging || state == AgentAnswered
    || state == CustomerDialing || state == CustomerRinging || state == Bridged
  }

  /** The state a matching update sets; bridging leaves a voicemail state as it is. */
  function AdvancedState(state: CallState, e: TaggedEvent): CallState {
    if e.name == ChannelCreate then CustomerDialing
    else if e.name == ChannelProgress then CustomerRinging
    else if e.name == ChannelAnswer && e.leg == AgentLeg then AgentAnswered
    else if IsDialingState(state) then Bridged
    else state
  }

  function AdvancedRow(call: Call, e: TaggedEvent, now: Time): Call {
    if call.endedAt.None? && AdvanceMatches(call.state, e) then
      call.(state := AdvancedState(call.state, e),
            answeredAt := if BridgesCall(e) then Coalesce(call.answeredAt, Some(now)) else call.answeredAt,
            updatedAt := now)
    else call
  }

  function AdvanceLegs(legs: map<LegId, Leg>, e: TaggedEvent, now: Time): map<LegId, Leg> {
    map l | l in legs ::
      if legs[l].callId == e.callId && legs[l].kind == e.leg then AdvancedLeg(legs[l], e, now) else legs[l]
  }

  /** Skipped when the event names no channel. */
  function TouchLegs(db: Db, e: TaggedEvent, now: Time): (r: Db)
    ensures r == db.(legs := r.legs) && r.legs.Keys == db.legs.Keys
  {
    if e.legUuid.None? then db else db.(legs := AdvanceLegs(db.legs, e, now))
  }

  function LogTagged(db: Db, e: TaggedEvent): (r: Db)
    ensures r == db.(events := r.events) && db.events <= r.events
  {
    Log(db, CallEvent(e.callId, ChannelEventSeen, e.uuid))
  }

  /**
   persistGenericFreeSwitchEventState. Without the call row the event insert violates
   its foreign key and rolls back.
  */
  function GenericEvent(db: Db, e: TaggedEvent, now: Time): Db {
    if e.callId !in db.calls then db
    else
      match PutCall(TouchLegs(LogTagged(db, e), e, now), e.callId, AdvancedRow(db.calls[e.callId], e, now))
      case None => db
      case Some(after) => after
  }

  /** The database writes of one handling attempt, in order; each is one transaction or one statement. */
  datatype Write =
    | WriteGeneric(e: TaggedEvent)
    | WriteTaggedLog(e: TaggedEvent)
    | WriteCompleted(callId: CallId)
    | WriteIncomplete(callId: CallId, failed: bool, agentReleased: bool, contact: Option<ContactId>)
    | WriteFinalize(e: TaggedEvent)

  /** persistFreeSwitchEvent reads the call once and then commits to one list of writes. */
  function Writes(db: Db, e: TaggedEvent): seq<Write> {
    if !IsCustomerTerminal(e) then [WriteGeneric(e)]
    else if e.callId !in db.calls then []
    else
      var call := db.calls[e.callId];
      if call.endedAt.None? && IsVoicemailDropActive(call.state) then
        [WriteTaggedLog(e),
         if IsNormalHangup(e.cause) then WriteCompleted(e.callId)
         else WriteIncomplete(e.callId, true, call.state == AgentReleased, call.contactId)]
      else [WriteFinalize(e)]
  }

  function WriteTarget(w: Write): CallId {
    match w
    case WriteGeneric(e) => e.callId
    case WriteTaggedLog(e) => e.callId
    case WriteCompleted(id) => id
    case WriteIncomplete(id, _, _, _) => id
    case WriteFinalize(e) => e.callId
  }

  function RunWrite(db: Db, w: Write, now: Time): Db {
    match w
    case WriteGeneric(e) => GenericEvent(db, e, now)
    case WriteTaggedLog(e) => if e.callId in db.calls then LogTagged(db, e) else db
    case WriteCompleted(id) => FinalizeCompleted(db, id, now)
    case WriteIncomplete(id, failed, released, contact) => FinalizeIncomplete(db, id, failed, released, contact, now)
    case WriteFinalize(e) =>
      FinalizeCall(db, e.callId, CustomerHangup(e.cause),
                   Some(CallEvent(e.callId, FinalizationEvent, e.uuid)), true, now).0
  }

  function RunWrites(db: Db, writes: seq<Write>, now: Time): Db
    decreases |writes|
  {
    if writes == [] then db else RunWrites(RunWrite(db, writes[0], now), writes[1..], now)
  }

  /** One attempt that stops after its first `reached` writes; the error may also follow the last commit. */
  function Attempt(db: Db, e: TaggedEvent, reached: nat, now: Time): Db {
    var writes := Writes(db, e);
    RunWrites(db, if reached < |writes| then writes[..reached] else writes, now)
  }

  function Handle(db: Db, e: TaggedEvent, now: Time): Db {
    RunWrites(db, Writes(db, e), now)
  }

  /** Each event handled once, in the given order, at the given times. */
  function HandleAll(db: Db, events: seq<TaggedEvent>, at: seq<Time>): Db
    requires |events| == |at|
    decreases |events|
  {
    if events == [] then db else HandleAll(Handle(db, events[0], at[0]), events[1..], at[1..])
  }

  lemma AdvancePassesGuard(call: Call, e: TaggedEvent, now: Time)
    ensures GuardUpdate(call, AdvancedRow(call, e, now)).Some?
  {
  }

  lemma TwoWrites(db: Db, first: Write, second: Write, now: Time)
    ensures RunWrites(db, [first, second], now) == RunWrite(RunWrite(db, first, now), second, now)
    ensures RunWrites(db, [first], now) == RunWrite(db, first, now)
  {
    hide RunWrite;
    var writes := [first, second];
    assert writes[1..] == [second];
    var rest := RunWrite(db, first, now);
    assert [second][1..] == [];
    assert RunWrites(rest, [second], now) == RunWrite(rest, second, now);
    assert [first][1..] == [];
  }

  lemma GenericFrame(db: Db, e: TaggedEvent, now: Time)
    ensures OnlyTouches(db, GenericEvent(db, e, now), e.callId)
  {
    hide LogTagged, TouchLegs, AdvancedRow, PutCall;
    if e.callId in db.calls {
      var touched := TouchLegs(LogTagged(db, e), e, now);
      assert touched == db.(events := touched.events, legs := touched.legs) && db.events <= touched.events;
      var put := PutCall(touched, e.callId, AdvancedRow(db.calls[e.callId], e, now));
      assert GenericEvent(db, e, now) == if put.None? then db else put.value;
    }
  }

  lemma WriteFrame(db: Db, w: Write, now: Time)
    ensures OnlyTouches(db, RunWrite(db, w, now), WriteTarget(w))
  {
    hide GenericEvent, FinalizeCompleted, FinalizeIncomplete, FinalizeCall;
    match w
    case WriteGeneric(e) => GenericFrame(db, e, now);
    case WriteTaggedLog(e) =>
    case WriteCompleted(id) => CompletedFrame(db, id, now);
    case WriteIncomplete(id, failed, released, contact) => IncompleteFrame(db, id, failed, released, contact, now);
    case WriteFinalize(e) =>
      FinalizeFrame(db, e.callId, CustomerHangup(e.cause), Some(CallEvent(e.callId, FinalizationEvent, e.uuid)), true,
                    now);
  }
}
