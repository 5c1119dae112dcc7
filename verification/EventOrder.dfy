/**
 Setup events act as joins: for an open call still being dialed, and for every
 leg, the state after any events in any order is the highest any of them names.
 So neither their order nor their repetition can show.
 */
module EventOrder {
  import opened Wrappers
  import opened DialerDb
  import opened Finalization
  import opened VoicemailDrop
  import opened ChannelEvents
  import opened ExactlyOnce

  function Max(a: nat, b: nat): nat {
    if a < b then b else a
  }

  /** The fixed order of the dialing states. */
  function Rank(state: CallState): nat
    requires IsDialingState(state)
  {
    match state
    case Created => 0
    case AgentRinging => 1
    case AgentAnswered => 2
    case CustomerDialing => 3
    case CustomerRinging => 4
    case Bridged => 5
  }

  function LegRank(state: LegState): nat {
    match state
    case LegCreated => 0
    case LegStarted => 1
    case LegAnswered => 2
    case LegEnded => 3
  }

  /** The rank of the state an event names for its call; 0 when it names none. */
  function CallWeight(id: CallId): TaggedEvent -> nat {
    (e: TaggedEvent) =>
      if e.callId != id then 0
      else if BridgesCall(e) then 5
      else if e.name == ChannelProgress && e.leg == CustomerLeg then 4
      else if e.name == ChannelCreate && e.leg == CustomerLeg then 3
      else if e.name == ChannelAnswer && e.leg == AgentLeg then 2
      else 0
  }

  /** The rank an event gives a leg: its own leg's state, or the end of both when the customer is gone. */
  function LegWeight(id: CallId, kind: LegKind): TaggedEvent -> nat {
    (e: TaggedEvent) =>
      if e.callId != id then 0
      else if IsCustomerTerminal(e) then 3
      else if e.leg == kind && e.legUuid.Some? then LegRank(LegStateOf(e.name))
      else 0
  }

  /** The greatest of a start rank and the weights of some events. */
  function Join(start: nat, events: seq<TaggedEvent>, weight: TaggedEvent -> nat): nat
    decreases |events|
  {
    if events == [] then start else Join(Max(start, weight(events[0])), events[1..], weight)
  }

  lemma {:induction false} JoinBounds(start: nat, events: seq<TaggedEvent>, weight: TaggedEvent -> nat)
    ensures start <= Join(start, events, weight)
    ensures forall e | e in events :: weight(e) <= Join(start, events, weight)
    ensures Join(start, events, weight) == start
            || exists e :: e in events && Join(start, events, weight) == weight(e)
    decreases |events|
  {
    if events != [] {
      JoinBounds(Max(start, weight(events[0])), events[1..], weight);
      assert forall e | e in events :: e == events[0] || e in events[1..];
    }
  }

  /** A join depends on which events occurred, not on their order or number. */
  lemma JoinDependsOnOccurrence(start: nat, events: seq<TaggedEvent>, others: seq<TaggedEvent>,
                                weight: TaggedEvent -> nat)
    requires forall e :: e in events <==> e in others
    ensures Join(start, events, weight) == Join(start, others, weight)
  {
    JoinBounds(start, events, weight);
    JoinBounds(start, others, weight);
  }

  predicate BeingDialed(db: Db, id: CallId) {
    id in db.calls && Open(db.calls[id]) && db.calls[id].lockedAt.None? && IsDialingState(db.calls[id].state)
  }

  lemma AdvanceIsJoin(call: Call, e: TaggedEvent, id: CallId, now: Time)
    requires Open(call) && IsDialingState(call.state) && e.callId == id && !IsCustomerTerminal(e)
    ensures var after := AdvancedRow(call, e, now);
            && Open(after) && IsDialingState(after.state) && after.lockedAt == call.lockedAt
            && Rank(after.state) == Max(Rank(call.state), CallWeight(id)(e))
            && (after.answeredAt.Some? <==> call.answeredAt.Some? || BridgesCall(e))
  {
  }

  lemma HandleJoinsCall(db: Db, e: TaggedEvent, id: CallId, now: Time)
    requires BeingDialed(db, id)
    requires e.callId == id ==> !IsCustomerTerminal(e)
    ensures var after := Handle(db, e, now);
            && BeingDialed(after, id)
            && Rank(after.calls[id].state) == Max(Rank(db.calls[id].state), CallWeight(id)(e))
            && (after.calls[id].answeredAt.Some? <==>
                  db.calls[id].answeredAt.Some? || (e.callId == id && BridgesCall(e)))
  {
    var writes := Writes(db, e);
    if e.callId == id {
      TwoWrites(db, writes[0], writes[0], now);
      GenericAdvancesRow(db, e, now);
      AdvanceIsJoin(db.calls[id], e, id, now);
    } else {
      HandleLeavesOthers(db, e, id, now);
    }
  }

  lemma GenericAdvancesRow(db: Db, e: TaggedEvent, now: Time)
    requires e.callId in db.calls && db.calls[e.callId].lockedAt.None?
    ensures e.callId in GenericEvent(db, e, now).calls
    ensures GenericEvent(db, e, now).calls[e.callId] == AdvancedRow(db.calls[e.callId], e, now)
  {
    AdvancePassesGuard(db.calls[e.callId], e, now);
  }

  lemma HandleLeavesOthers(db: Db, e: TaggedEvent, id: CallId, now: Time)
    requires id in db.calls && e.callId != id
    ensures id in Handle(db, e, now).calls && Handle(db, e, now).calls[id] == db.calls[id]
  {
    hide RunWrite;
    var writes := Writes(db, e);
    if |writes| >= 1 {
      WriteFrame(db, writes[0], now);
      TwoWrites(db, writes[0], writes[|writes| - 1], now);
      if |writes| == 2 {
        WriteFrame(RunWrite(db, writes[0], now), writes[1], now);
      }
    }
  }

  /** The call's state after any such events is the greatest rank among them and where it started. */
  lemma {:induction false} EventsJoinCall(db: Db, id: CallId, events: seq<TaggedEvent>, at: seq<Time>)
    requires |events| == |at| && BeingDialed(db, id)
    requires forall i | 0 <= i < |events| :: events[i].callId == id ==> !IsCustomerTerminal(events[i])
    ensures BeingDialed(HandleAll(db, events, at), id)
    ensures Rank(HandleAll(db, events, at).calls[id].state) == Join(Rank(db.calls[id].state), events, CallWeight(id))
    ensures HandleAll(db, events, at).calls[id].answeredAt.Some? <==>
              db.calls[id].answeredAt.Some? || exists e :: e in events && e.callId == id && BridgesCall(e)
    decreases |events|
  {
    hide Handle, CallWeight;
    if events != [] {
      HandleJoinsCall(db, events[0], id, at[0]);
      EventsJoinCall(Handle(db, events[0], at[0]), id, events[1..], at[1..]);
      assert forall e | e in events :: e == events[0] || e in events[1..];
    }
  }

  // ---------------------------------------------------------------- legs

  /** Foreign keys: a leg belongs to a call. */
  ghost predicate LegsHaveCalls(db: Db) {
    forall l | l in db.legs :: db.legs[l].callId in db.calls
  }

  /** A leg kept its identity and its state is the join of the old one with a weight. */
  predicate LegJoined(before: Db, after: Db, l: LegId, weight: nat)
    requires l in before.legs
  {
    && l in after.legs
    && after.legs[l].callId == before.legs[l].callId && after.legs[l].kind == before.legs[l].kind
    && LegRank(after.legs[l].state) == Max(LegRank(before.legs[l].state), weight)
  }

  lemma JoinLegStateIsMax(current: LegState, seen: LegState)
    ensures LegRank(JoinLegState(current, seen)) == Max(LegRank(current), LegRank(seen))
  {
  }

  lemma TouchJoinsLeg(db: Db, e: TaggedEvent, l: LegId, now: Time)
    requires l in db.legs && !IsCustomerTerminal(e)
    ensures LegJoined(db, TouchLegs(db, e, now), l, LegWeight(db.legs[l].callId, db.legs[l].kind)(e))
  {
    hide LegStateOf, JoinLegState, LegRank;
    JoinLegStateIsMax(db.legs[l].state, LegStateOf(e.name));
  }

  lemma GenericKeepsTouchedLegs(db: Db, e: TaggedEvent, now: Time)
    requires e.callId in db.calls
    ensures GenericEvent(db, e, now).legs == TouchLegs(LogTagged(db, e), e, now).legs
  {
    hide TouchLegs, AdvancedRow;
    AdvancePassesGuard(db.calls[e.callId], e, now);
  }

  lemma GenericJoinsLeg(db: Db, e: TaggedEvent, l: LegId, now: Time)
    requires l in db.legs && !IsCustomerTerminal(e) && db.legs[l].callId in db.calls
    ensures LegJoined(db, GenericEvent(db, e, now), l, LegWeight(db.legs[l].callId, db.legs[l].kind)(e))
  {
    if e.callId in db.calls {
      hide TouchLegs, PutCall, LegWeight, GenericEvent;
      GenericKeepsTouchedLegs(db, e, now);
      TouchJoinsLeg(LogTagged(db, e), e, l, now);
    }
  }

  lemma CloseLegsJoins(db: Db, id: CallId, l: LegId, now: Time)
    requires l in db.legs
    ensures LegJoined(db, CloseLegs(db, id, None, now), l, if db.legs[l].callId == id then 3 else 0)
  {
  }

  lemma CloseDropJoinsLeg(db: Db, event: CallEvent, contact: Option<ContactId>, status: ContactStatus,
                          agent: Option<AgentId>, l: LegId, now: Time)
    requires l in db.legs
    ensures LegJoined(db, CloseDrop(db, event, contact, status, agent, now), l,
                      if db.legs[l].callId == event.callId then 3 else 0)
  {
    hide InsertEvent, ReturnLead, FinishAgent;
    CloseLegsJoins(Log(db, event), event.callId, l, now);
  }

  lemma CleanupJoinsLeg(db: Db, id: CallId, l: LegId, now: Time)
    requires id in db.calls && l in db.legs
    ensures LegJoined(db, Cleanup(db, id, now), l, if db.legs[l].callId == id then 3 else 0)
  {
    hide ReturnLeadUnlessHeld, FinishAgent;
    CloseLegsJoins(db, id, l, now);
  }

  lemma FinalizeJoinsLeg(db: Db, e: TaggedEvent, l: LegId, now: Time)
    requires SchemaValid(db) && e.callId in db.calls && l in db.legs
    ensures LegJoined(db, RunWrite(db, WriteFinalize(e), now), l, if db.legs[l].callId == e.callId then 3 else 0)
  {
    hide Cleanup, Log, LegJoined;
    var event := CallEvent(e.callId, FinalizationEvent, e.uuid);
    var call := db.calls[e.callId];
    var logged := LogOptional(db, Some(event));
    if IsFinalized(call) {
      CleanupJoinsLeg(logged, e.callId, l, now);
      LegJoinedFrom(db, logged, Cleanup(logged, e.callId, now), l, if db.legs[l].callId == e.callId then 3 else 0);
    } else {
      assert LockValid(call);
      DecisionPassesGuard(call, CustomerHangup(e.cause), now);
      var updated := PutCall(logged, e.callId, EndedRow(call, Decide(call, CustomerHangup(e.cause)).value, now)).value;
      CleanupJoinsLeg(updated, e.callId, l, now);
      LegJoinedFrom(db, updated, Cleanup(updated, e.callId, now), l, if db.legs[l].callId == e.callId then 3 else 0);
    }
  }

  lemma LegJoinedFrom(before: Db, middle: Db, after: Db, l: LegId, weight: nat)
    requires l in before.legs && middle.legs == before.legs && LegJoined(middle, after, l, weight)
    ensures LegJoined(before, after, l, weight)
  {
  }

  lemma CompletedJoinsLeg(db: Db, id: CallId, l: LegId, now: Time)
    requires SchemaValid(db) && DropInProgress(db, id) && l in db.legs
    ensures LegJoined(db, FinalizeCompleted(db, id, now), l, if db.legs[l].callId == id then 3 else 0)
  {
    hide CloseDrop, LegJoined, GuardUpdate, CompletedRow, IncompleteRow;
    var call := db.calls[id];
    assert LockValid(call);
    DropEndsPass(call, true, now);
    var updated := PutCall(db, id, CompletedRow(call, now)).value;
    var agent := if call.agentReleasedAt.None? then call.agentId else None;
    CloseDropJoinsLeg(updated, CallEvent(id, PlaybackCompletedEvent, None), call.contactId, Done, agent, l, now);
    LegJoinedFrom(db, updated, FinalizeCompleted(db, id, now), l, if db.legs[l].callId == id then 3 else 0);
  }

  lemma IncompleteJoinsLeg(db: Db, id: CallId, failed: bool, released: bool, contact: Option<ContactId>, l: LegId,
                           now: Time)
    requires SchemaValid(db) && DropInProgress(db, id) && l in db.legs
    ensures LegJoined(db, FinalizeIncomplete(db, id, failed, released, contact, now), l,
                      if db.legs[l].callId == id then 3 else 0)
  {
    hide CloseDrop, LegJoined, GuardUpdate, CompletedRow, IncompleteRow;
    var call := db.calls[id];
    assert LockValid(call);
    DropEndsPass(call, failed, now);
    var updated := PutCall(db, id, IncompleteRow(call, failed, now)).value;
    CloseDropJoinsLeg(updated, IncompleteEvent(id, failed), contact, New, if released then None else call.agentId, l,
                      now);
    LegJoinedFrom(db, updated, FinalizeIncomplete(db, id, failed, released, contact, now), l,
                  if db.legs[l].callId == id then 3 else 0);
  }

  lemma DropHangupJoinsLeg(db: Db, e: TaggedEvent, l: LegId, now: Time)
    requires SchemaValid(db) && IsCustomerTerminal(e) && DropInProgress(db, e.callId) && l in db.legs
    ensures LegJoined(db, RunWrite(db, Writes(db, e)[1], now), l, if db.legs[l].callId == e.callId then 3 else 0)
  {
    hide FinalizeCompleted, FinalizeIncomplete, FinalizeCall, GenericEvent, LegJoined;
    if IsNormalHangup(e.cause) {
      CompletedJoinsLeg(db, e.callId, l, now);
    } else {
      IncompleteJoinsLeg(db, e.callId, true, db.calls[e.callId].state == AgentReleased, db.calls[e.callId].contactId,
                         l, now);
    }
  }

  /** Every handled event is a join on every leg, the terminal event of the customer included. */
  lemma HandleJoinsLeg(db: Db, e: TaggedEvent, l: LegId, now: Time)
    requires SchemaValid(db) && l in db.legs && db.legs[l].callId in db.calls
    ensures LegJoined(db, Handle(db, e, now), l, LegWeight(db.legs[l].callId, db.legs[l].kind)(e))
  {
    hide RunWrite;
    var writes := Writes(db, e);
    if !IsCustomerTerminal(e) {
      TwoWrites(db, writes[0], writes[0], now);
      GenericWrite(db, e, now);
      GenericJoinsLeg(db, e, l, now);
    } else if e.callId in db.calls {
      if DropInProgress(db, e.callId) {
        TwoWrites(db, writes[0], writes[1], now);
        TaggedLogWrite(db, e, now);
        DropHangupJoinsLeg(LogTagged(db, e), e, l, now);
        assert Writes(LogTagged(db, e), e) == writes;
        LegJoinedFrom(db, LogTagged(db, e), Handle(db, e, now), l, if db.legs[l].callId == e.callId then 3 else 0);
      } else {
        TwoWrites(db, writes[0], writes[0], now);
        FinalizeJoinsLeg(db, e, l, now);
      }
    }
  }

  lemma GenericWrite(db: Db, e: TaggedEvent, now: Time)
    ensures RunWrite(db, WriteGeneric(e), now) == GenericEvent(db, e, now)
  {
  }

  lemma TaggedLogWrite(db: Db, e: TaggedEvent, now: Time)
    requires e.callId in db.calls
    ensures RunWrite(db, WriteTaggedLog(e), now) == LogTagged(db, e)
  {
  }

  lemma HandleKeepsSchema(db: Db, e: TaggedEvent, now: Time)
    requires SchemaValid(db) && LegsHaveCalls(db)
    ensures SchemaValid(Handle(db, e, now)) && LegsHaveCalls(Handle(db, e, now))
  {
    WritesKeepSchema(db, Writes(db, e), now);
    HandlingKeepsCall(db, e, now);
    forall l | l in Handle(db, e, now).legs
      ensures Handle(db, e, now).legs[l].callId in Handle(db, e, now).calls
    {
      HandlingKeepsLegKeys(db, Writes(db, e), now);
      HandleJoinsLeg(db, e, l, now);
    }
  }

  lemma {:induction false} HandlingKeepsLegKeys(db: Db, writes: seq<Write>, now: Time)
    ensures RunWrites(db, writes, now).legs.Keys == db.legs.Keys
    decreases |writes|
  {
    hide RunWrite;
    if writes != [] {
      WriteFrame(db, writes[0], now);
      HandlingKeepsLegKeys(RunWrite(db, writes[0], now), writes[1..], now);
    }
  }

  /** A leg's state after any events is the greatest rank any of them gives it. */
  lemma {:induction false} EventsJoinLeg(db: Db, l: LegId, events: seq<TaggedEvent>, at: seq<Time>)
    requires |events| == |at| && SchemaValid(db) && LegsHaveCalls(db) && l in db.legs
    ensures LegJoined(db, HandleAll(db, events, at), l,
                      Join(0, events, LegWeight(db.legs[l].callId, db.legs[l].kind)))
    decreases |events|
  {
    hide Handle, LegWeight, SchemaValid;
    if events != [] {
      var weight := LegWeight(db.legs[l].callId, db.legs[l].kind);
      var next := Handle(db, events[0], at[0]);
      assert db.legs[l].callId in db.calls;
      HandleKeepsSchema(db, events[0], at[0]);
      HandleJoinsLeg(db, events[0], l, at[0]);
      EventsJoinLeg(next, l, events[1..], at[1..]);
      JoinFromZero(weight(events[0]), events[1..], weight);
    }
  }

  lemma {:induction false} JoinFromZero(start: nat, events: seq<TaggedEvent>, weight: TaggedEvent -> nat)
    ensures Join(start, events, weight) == Max(start, Join(0, events, weight))
    decreases |events|
  {
    if events != [] {
      JoinFromZero(Max(start, weight(events[0])), events[1..], weight);
      JoinFromZero(Max(0, weight(events[0])), events[1..], weight);
    }
  }

  /**
   Two deliveries of the same events, permuted and repeated at will and at any
   times, leave the call in the same state, answered or not alike, and every leg alike.
   */
  lemma OrderAndRepetitionInvisible(db: Db, id: CallId, l: LegId, events: seq<TaggedEvent>, at: seq<Time>,
                                    others: seq<TaggedEvent>, othersAt: seq<Time>)
    requires |events| == |at| && |others| == |othersAt|
    requires forall e :: e in events <==> e in others
    requires forall e | e in events :: e.callId == id ==> !IsCustomerTerminal(e)
    requires SchemaValid(db) && LegsHaveCalls(db) && BeingDialed(db, id) && l in db.legs
    ensures var one, two := HandleAll(db, events, at), HandleAll(db, others, othersAt);
            && BeingDialed(one, id) && BeingDialed(two, id)
            && one.calls[id].state == two.calls[id].state
            && (one.calls[id].answeredAt.Some? <==> two.calls[id].answeredAt.Some?)
            && l in one.legs && l in two.legs && one.legs[l].state == two.legs[l].state
  {
    hide Handle, CallWeight, LegWeight, SchemaValid;
    EventsJoinCall(db, id, events, at);
    EventsJoinCall(db, id, others, othersAt);
    JoinDependsOnOccurrence(Rank(db.calls[id].state), events, others, CallWeight(id));
    EventsJoinLeg(db, l, events, at);
    EventsJoinLeg(db, l, others, othersAt);
    JoinDependsOnOccurrence(0, events, others, LegWeight(db.legs[l].callId, db.legs[l].kind));
  }
}
