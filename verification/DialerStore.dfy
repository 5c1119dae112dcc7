/**
 The tables as the transactions update them: each method runs the statements of one
 transaction in the code's order, promises its callers what TransactionEffects says,
 and leaves exactly the database of its specification function, so that what is
 proved about whole runs holds of it.
 */
module DialerStore {
  import opened Wrappers
  import opened DialerDb
  import opened Terms
  import opened Finalization
  import opened ConsistencyRepair
  import opened VoicemailDrop
  import opened ChannelEvents
  import opened CallActions
  import opened UserAccess
  import opened TransactionEffects
  import opened CallEndings

  class Database {
    var calls: map<CallId, Call>
    var legs: map<LegId, Leg>
    var contacts: map<ContactId, Contact>
    var agents: map<AgentId, Agent>
    var users: map<UserId, User>
    var sessions: map<SessionId, Session>
    var campaigns: map<CampaignId, bool>
    var suppressed: set<PhoneNumber>
    var events: seq<CallEvent>
    var callStartPaused: bool

    function Snapshot(): Db
      reads this
    {
      Db(calls, legs, contacts, agents, users, sessions, campaigns, suppressed, events, callStartPaused)
    }

    constructor (db: Db)
      ensures Snapshot() == db
    {
      calls, legs, contacts, agents, users := db.calls, db.legs, db.contacts, db.agents, db.users;
      sessions, campaigns, suppressed := db.sessions, db.campaigns, db.suppressed;
      events, callStartPaused := db.events, db.callStartPaused;
    }

    // -------------------------------------------------------------- statements

    method InsertCallEvent(row: CallEvent)
      modifies this`events
      ensures Snapshot() == Log(old(Snapshot()), row)
    {
      var i := 0;
      while i < |events|
        invariant 0 <= i <= |events| && forall k | 0 <= k < i :: !Conflicts(row, events[k])
      {
        if Conflicts(row, events[i]) {
          return;
        }
        i := i + 1;
      }
      events := events + [row];
    }

    /** False when the trigger raises; nothing is changed then. */
    method UpdateCallRow(id: CallId, row: Call) returns (ok: bool)
      requires id in calls
      modifies this`calls
      ensures ok <==> PutCall(old(Snapshot()), id, row).Some?
      ensures Snapshot() == if ok then PutCall(old(Snapshot()), id, row).value else old(Snapshot())
    {
      var guarded := GuardUpdate(calls[id], row);
      if guarded.None? {
        return false;
      }
      calls := calls[id := guarded.value];
      return true;
    }

    method CloseCallLegs(id: CallId, only: Option<LegKind>, now: Time)
      modifies this`legs
      ensures Snapshot() == CloseLegs(old(Snapshot()), id, only, now)
    {
      legs := map l | l in legs ::
        if legs[l].callId == id && (only.None? || legs[l].kind == only.value)
        then legs[l].(state := LegEnded, endedAt := Coalesce(legs[l].endedAt, Some(now)))
        else legs[l];
      assert legs == EndLegs(old(legs), id, only, now);
    }

    method ReturnContact(contact: Option<ContactId>, status: ContactStatus)
      modifies this`contacts
      ensures Snapshot() == ReturnLead(old(Snapshot()), contact, status)
    {
      if contact.Some? && contact.value in contacts && contacts[contact.value].status == Calling {
        contacts := contacts[contact.value := contacts[contact.value].(status := status)];
      }
    }

    /** agent-availability.ts finishAgentCall */
    method FinishAgentCall(agent: Option<AgentId>)
      modifies this`agents
      ensures AgentLetGo(old(Snapshot()), Snapshot(), agent)
      ensures Snapshot() == FinishAgent(old(Snapshot()), agent)
    {
      FinishLetsGo(Snapshot(), agent);
      hide AgentLetGo;
      if agent.Some? && agent.value in agents && !HasActiveCall(calls, agent.value) {
        agents := agents[agent.value := FreedAgent(agents[agent.value])];
      }
    }

    // -------------------------------------------------------------- call-finalization.ts

    method CleanUp(id: CallId, now: Time)
      requires id in calls
      modifies this`legs, this`contacts, this`agents
      ensures Snapshot() == Cleanup(old(Snapshot()), id, now)
    {
      hide CloseLegs, ReturnLead, FinishAgent, HasOtherOpenCall;
      CloseCallLegs(id, None, now);
      var call := calls[id];
      if call.contactId.Some? && !HasOtherOpenCall(calls, call.contactId.value, id) {
        ReturnContact(call.contactId, ContactStatusFor(call.outcome));
      }
      FinishAgentCall(call.agentId);
    }

    /** finalizeCallTransaction: the replay cleans up again, the first finalization also decides and logs. */
    method FinalizeCallTransaction(id: CallId, resolver: Resolver, event: Option<CallEvent>, logWhenFinal: bool,
                                   now: Time)
      returns (status: FinalizeStatus)
      modifies this
      ensures SchemaValid(old(Snapshot())) ==>
                CallFinalized(old(Snapshot()), Snapshot(), status, id, resolver, event, logWhenFinal, now)
      ensures (Snapshot(), status) == FinalizeCall(old(Snapshot()), id, resolver, event, logWhenFinal, now)
    {
      hide CallFinalized, SchemaValid, FinalizeCall;
      if SchemaValid(Snapshot()) {
        FinalizeMeans(Snapshot(), id, resolver, event, logWhenFinal, now);
      }
      status := FinalizeLocked(id, resolver, event, logWhenFinal, now);
    }

    /** Its statements, from the lock on the call to the commit or rollback. */
    method FinalizeLocked(id: CallId, resolver: Resolver, event: Option<CallEvent>, logWhenFinal: bool, now: Time)
      returns (status: FinalizeStatus)
      modifies this
      ensures (Snapshot(), status) == FinalizeCall(old(Snapshot()), id, resolver, event, logWhenFinal, now)
    {
      hide Cleanup, Log, PutCall, Decide, EndedRow;
      if id !in calls {
        return Missing;
      }
      var call := calls[id];
      if IsFinalized(call) {
        if logWhenFinal && event.Some? {
          InsertCallEvent(event.value);
        }
        CleanUp(id, now);
        return AlreadyFinalized;
      }
      var decision := Decide(call, resolver);
      if decision.None? {
        return NotApplicable;
      }
      var eventsBefore := events;
      if event.Some? {
        InsertCallEvent(event.value);
      }
      var ok := UpdateCallRow(id, EndedRow(call, decision.value, now));
      if !ok {
        events := eventsBefore;
        return Rejected;
      }
      CleanUp(id, now);
      return Finalized;
    }

    // -------------------------------------------------------------- the repair of esl-events.ts

    /** The candidate query: oldest first, up to its limit. */
    method SelectCandidates(limit: nat) returns (page: seq<CallId>)
      ensures IsCandidatePage(Snapshot(), limit, page)
    {
      ghost var all := Candidates(Snapshot());
      var left := Candidates(Snapshot());
      hide Candidates, SortKey;
      page := [];
      while |page| < limit && left != {}
        invariant |page| <= limit && Selected(Snapshot(), all, page, left)
        decreases |left|
      {
        OldestExists(Snapshot(), left);
        var oldest :| oldest in left && forall c | c in left :: SortKey(Snapshot(), oldest) <= SortKey(Snapshot(), c);
        SelectsOldest(Snapshot(), all, page, left, oldest);
        page := page + [oldest];
        left := left - {oldest};
      }
    }

    /** The loop over the rows of the query. */
    method RepairPage(page: seq<CallId>, now: Time) returns (repaired: nat)
      modifies this
      ensures (Snapshot(), repaired) == RepairAll(old(Snapshot()), page, now)
    {
      hide RepairAll, FinalizeCall, CallFinalized, SchemaValid;
      repaired := 0;
      ghost var first := Snapshot();
      assert page[0..] == page;
      for i := 0 to |page|
        invariant RepairAll(first, page, now).0 == RepairAll(Snapshot(), page[i..], now + i).0
        invariant RepairAll(first, page, now).1 == repaired + RepairAll(Snapshot(), page[i..], now + i).1
      {
        RepairHead(Snapshot(), page[i..], now + i);
        assert page[i..][1..] == page[i + 1..];
        var status := FinalizeCallTransaction(page[i], KeepDecision, None, false, now + i);
        if status == AlreadyFinalized || status == Finalized {
          repaired := repaired + 1;
        }
      }
      NothingToRepair(Snapshot(), page[|page|..], now + |page|);
    }

    /**
     repairFinalizedCallConsistency: every call it read is repaired, the candidates
     shrink by at least that many, and no outcome, end or terminal state is lost.
     */
    method RepairFinalizedCallConsistency(limit: nat, now: Time) returns (repaired: nat)
      requires SchemaValid(Snapshot())
      modifies this
      ensures SchemaValid(Snapshot()) && KeepsAllHistory(old(Snapshot()), Snapshot())
      ensures |Candidates(Snapshot())| + repaired <= |Candidates(old(Snapshot()))|
      ensures repaired == if |Candidates(old(Snapshot()))| < limit then |Candidates(old(Snapshot()))| else limit
    {
      hide RepairAll, SchemaValid, KeepsAllHistory, Candidates, IsCandidatePage;
      var page := SelectCandidates(limit);
      PassShrinks(Snapshot(), limit, page, now);
      PageLength(Snapshot(), limit, page);
      repaired := RepairPage(page, now);
    }

    // -------------------------------------------------------------- esl-events.ts events and voicemail

    /** persistGenericFreeSwitchEventState */
    method PersistGenericEvent(e: TaggedEvent, now: Time)
      modifies this
      ensures SchemaValid(old(Snapshot())) ==> EventSeen(old(Snapshot()), Snapshot(), e, now)
      ensures Snapshot() == GenericEvent(old(Snapshot()), e, now)
    {
      hide EventSeen, SchemaValid, GenericEvent;
      if SchemaValid(Snapshot()) {
        GenericMeans(Snapshot(), e, now);
      }
      PersistEventLocked(e, now);
    }

    /** Its statements, from the lock on the call to the commit or rollback. */
    method PersistEventLocked(e: TaggedEvent, now: Time)
      modifies this
      ensures Snapshot() == GenericEvent(old(Snapshot()), e, now)
    {
      hide Log, PutCall, AdvancedRow, AdvanceLegs;
      if e.callId !in calls {
        return;
      }
      var eventsBefore, legsBefore := events, legs;
      InsertCallEvent(CallEvent(e.callId, ChannelEventSeen, e.uuid));
      if e.legUuid.Some? {
        legs := AdvanceLegs(legs, e, now);
      }
      var ok := UpdateCallRow(e.callId, AdvancedRow(calls[e.callId], e, now));
      if !ok {
        events, legs := eventsBefore, legsBefore;
      }
    }

    method CloseDropNow(event: CallEvent, contact: Option<ContactId>, status: ContactStatus, agent: Option<AgentId>,
                        now: Time)
      modifies this`events, this`legs, this`contacts, this`agents
      ensures Snapshot() == CloseDrop(old(Snapshot()), event, contact, status, agent, now)
    {
      hide Log, CloseLegs, ReturnLead, FinishAgent;
      InsertCallEvent(event);
      CloseCallLegs(event.callId, None, now);
      ReturnContact(contact, status);
      FinishAgentCall(agent);
    }

    /** finalizeCompletedVoicemailPlayback */
    method FinalizeCompletedPlayback(id: CallId, now: Time)
      modifies this
      ensures SchemaValid(old(Snapshot())) ==> PlaybackCompletes(old(Snapshot()), Snapshot(), id, now)
      ensures Snapshot() == FinalizeCompleted(old(Snapshot()), id, now)
    {
      if SchemaValid(Snapshot()) {
        CompletedMeans(Snapshot(), id, now);
      }
      hide PlaybackCompletes, SchemaValid;
      hide PutCall, CloseDrop, CompletedRow, IsVoicemailDropActive;
      if id !in calls || calls[id].endedAt.Some? || !IsVoicemailDropActive(calls[id].state) {
        return;
      }
      var call := calls[id];
      var ok := UpdateCallRow(id, CompletedRow(call, now));
      if ok {
        CloseDropNow(CallEvent(id, PlaybackCompletedEvent, None), call.contactId, Done,
                     if call.agentReleasedAt.None? then call.agentId else None, now);
      }
    }

    /** finalizeIncompleteVoicemailPlayback, with what its caller read */
    method FinalizeIncompletePlayback(id: CallId, failed: bool, agentReleased: bool, contact: Option<ContactId>,
                                      now: Time)
      modifies this
      ensures SchemaValid(old(Snapshot())) ==>
                PlaybackBreaksOff(old(Snapshot()), Snapshot(), id, failed, agentReleased, contact, now)
      ensures Snapshot() == FinalizeIncomplete(old(Snapshot()), id, failed, agentReleased, contact, now)
    {
      if SchemaValid(Snapshot()) {
        IncompleteMeans(Snapshot(), id, failed, agentReleased, contact, now);
      }
      hide PlaybackBreaksOff, SchemaValid;
      hide PutCall, CloseDrop, IncompleteRow, IsVoicemailDropActive, IncompleteEvent;
      if id !in calls || calls[id].endedAt.Some? || !IsVoicemailDropActive(calls[id].state) {
        return;
      }
      var call := calls[id];
      var ok := UpdateCallRow(id, IncompleteRow(call, failed, now));
      if ok {
        CloseDropNow(IncompleteEvent(id, failed), contact, New, if agentReleased then None else call.agentId, now);
      }
    }

    method UpdateCallOnly(id: CallId, row: Call)
      requires id in calls
      modifies this`calls
      ensures Snapshot() == UpdateCall(old(Snapshot()), id, row)
    {
      var _ := UpdateCallRow(id, row);
    }

    /** releaseAgentAfterVoicemailPlaybackStarts */
    method ReleaseAgentForPlayback(id: CallId, now: Time)
      modifies this
      ensures SchemaValid(old(Snapshot())) ==> AgentReleasedFrom(old(Snapshot()), Snapshot(), id, now)
      ensures Snapshot() == ReleaseAgent(old(Snapshot()), id, now)
    {
      if SchemaValid(Snapshot()) {
        ReleaseMeans(Snapshot(), id, now);
      }
      hide AgentReleasedFrom, SchemaValid;
      hide Log, UpdateCall, CloseLegs, FinishAgent, IsVoicemailDropActive;
      if id !in calls || calls[id].endedAt.Some? || !IsVoicemailDropActive(calls[id].state) {
        return;
      }
      var call := calls[id];
      InsertCallEvent(CallEvent(id, AgentReleasedEvent, None));
      UpdateCallOnly(id, call.(state := AgentReleased, agentReleasedAt := Coalesce(call.agentReleasedAt, Some(now)),
                     updatedAt := now));
      CloseCallLegs(id, Some(AgentLeg), now);
      FinishAgentCall(call.agentId);
    }

    /** persistFreeSwitchEvent for a tagged channel event: the writes its one read of the call commits it to. */
    method PersistTaggedEvent(e: TaggedEvent, now: Time)
      modifies this
      ensures SchemaValid(old(Snapshot())) ==> EventHandled(old(Snapshot()), Snapshot(), e, now)
      ensures Snapshot() == Handle(old(Snapshot()), e, now)
    {
      hide EventHandled, SchemaValid, CallFinalized, EventSeen, GenericEvent, FinalizeCompleted, FinalizeIncomplete, FinalizeCall, Log, RunWrites, IsVoicemailDropActive;
      if SchemaValid(Snapshot()) {
        EventMeans(Snapshot(), e, now);
      }
      ghost var before := Snapshot();
      ghost var writes := Writes(before, e);
      if |writes| >= 1 {
        TwoWrites(before, writes[0], writes[|writes| - 1], now);
      } else {
        NoWrites(before, now);
      }
      if !IsCustomerTerminal(e) {
        PersistGenericEvent(e, now);
        return;
      }
      if e.callId !in calls {
        return;
      }
      var call := calls[e.callId];
      if call.endedAt.None? && IsVoicemailDropActive(call.state) {
        InsertCallEvent(CallEvent(e.callId, ChannelEventSeen, e.uuid));
        if IsNormalHangup(e.cause) {
          FinalizeCompletedPlayback(e.callId, now);
        } else {
          FinalizeIncompletePlayback(e.callId, true, call.state == AgentReleased, call.contactId, now);
        }
      } else {
        var _ := FinalizeCallTransaction(e.callId, CustomerHangup(e.cause),
                                         Some(CallEvent(e.callId, FinalizationEvent, e.uuid)), true, now);
      }
    }

    /** The playback-started event's own statements */
    method MarkVoicemailPlaybackStarted(id: CallId, now: Time)
      modifies this
      ensures SchemaValid(old(Snapshot())) ==> PlaybackStarts(old(Snapshot()), Snapshot(), id, now)
      ensures Snapshot() == MarkPlaybackStarted(old(Snapshot()), id, now)
    {
      if SchemaValid(Snapshot()) {
        PlaybackStartedMeans(Snapshot(), id, now);
      }
      hide PlaybackStarts, SchemaValid;
      hide Log, UpdateCall, IsVoicemailDropActive;
      if id !in calls || calls[id].endedAt.Some? || !IsVoicemailDropActive(calls[id].state) {
        return;
      }
      InsertCallEvent(CallEvent(id, PlaybackStartedEvent, None));
      if calls[id].state != AgentReleased {
        UpdateCallOnly(id, calls[id].(state := VoicemailPlaybackStarted, updatedAt := now));
      }
    }

    // -------------------------------------------------------------- dashboard/calls.ts

    /** createDialerCall's transaction */
    method CreateCall(actor: UserId, agent: AgentId, lead: LeadChoice, policy: RetryPolicy,
                      id: CallId, agentLeg: LegId, customerLeg: LegId, now: Time) returns (result: CreateResult)
      modifies this
      ensures result == CallCreated <==>
              && MayDial(old(Snapshot()), actor, agent, policy, now, LeadOf(lead),
                         lead.ChosenLead? && lead.confirmCompleted, lead.ChosenLead? && lead.confirmRetryWait)
              && (lead.NextLead? ==>
                    lead.picked.Some? && old(Snapshot()).contacts[lead.picked.value].campaignId == lead.campaign)
              && id !in old(calls) && agentLeg !in old(legs) && customerLeg !in old(legs) && agentLeg != customerLeg
      ensures result == CallCreated ==> CallStartedFor(old(Snapshot()), Snapshot(), agent, lead, id, agentLeg, customerLeg, now)
      ensures result != CallCreated ==> Snapshot() == old(Snapshot())
      ensures result
           == if old(callStartPaused) then MaintenancePause
              else if !(actor in old(users) && old(users)[actor].active) then SessionRevoked
              else if Supervising(old(sessions), actor) then SupervisorSession
              else if !(agent in old(agents) && old(agents)[agent].registered) then AgentNotRegistered
              else if old(agents)[agent].availability == Paused then AgentPaused
              else if OnPhone(old(calls), agent) then ActiveCallExists
              else if !LeadFits(old(Snapshot()), lead, policy, now) then if lead.NextLead? then NoCallableContacts else LeadNotCallable
              else if id in old(calls) || agentLeg in old(legs) || customerLeg in old(legs) || agentLeg == customerLeg
              then KeyConflict else CallCreated
      ensures (Snapshot(), result)
           == CreateDialerCall(old(Snapshot()), actor, agent, lead, policy, id, agentLeg, customerLeg, now)
    {
      CallStartsIffAllowed(Snapshot(), actor, agent, lead, policy, id, agentLeg, customerLeg, now);
      FirstBrokenRuleIsNamed(Snapshot(), actor, agent, lead, policy, id, agentLeg, customerLeg, now);
      CreateMeans(Snapshot(), actor, agent, lead, policy, id, agentLeg, customerLeg, now);
      hide MayDial, CallStartedFor, LeadFits, OnPhone, Supervising;
      hide Log, SelectLead, HasLiveSession, HasActiveCall, NewCall, NewLeg, OccupiedAgent, AttemptedContact;
      var refusal := CreateRefusal(Snapshot(), actor, agent);
      if refusal.Some? {
        return refusal.value;
      }
      var selected := SelectLead(Snapshot(), lead, policy, now);
      if selected.Err? {
        return selected.error;
      }
      var (contact, campaign) := selected.value;
      if id in calls || agentLeg in legs || customerLeg in legs || agentLeg == customerLeg {
        return KeyConflict;
      }
      calls := calls[id := NewCall(agent, campaign, contact, now)];
      legs := legs[agentLeg := NewLeg(id, AgentLeg)][customerLeg := NewLeg(id, CustomerLeg)];
      agents := agents[agent := OccupiedAgent(agents[agent])];
      InsertCallEvent(CallEvent(id, CallStarted, None));
      if contact.Some? && contact.value in contacts {
        contacts := contacts[contact.value := AttemptedContact(contacts[contact.value], now)];
      }
      return CallCreated;
    }

    /** endDialerCall's transaction */
    method EndCall(id: CallId, user: UserId, now: Time) returns (ended: bool)
      modifies this
      ensures ended <==> Owns(old(Snapshot()), id, user) && NeedsAgent(old(calls)[id])
      ensures !ended ==> Snapshot() == old(Snapshot())
      ensures ended && LockValid(old(calls)[id]) ==> AgentEnded(old(Snapshot()), Snapshot(), id, now)
      ensures (Snapshot(), ended) == EndDialerCall(old(Snapshot()), id, user, now)
    {
      AgentEndMeans(Snapshot(), id, user, now);
      hide AgentEnded, LockValid;
      hide Log, CloseLegs, ReturnLead, FinishAgent, PutCall, AgentEndedRow;
      if !OwnedBy(Snapshot(), id, user) || !Active(calls[id]) {
        return false;
      }
      var call := calls[id];
      AgentEndPasses(Snapshot(), id, now);
      var _ := UpdateCallRow(id, AgentEndedRow(call, now));
      InsertCallEvent(CallEvent(id, CallEndedEvent, None));
      CloseCallLegs(id, None, now);
      ReturnContact(call.contactId, if InferAgentEndOutcome(call.state) == AgentCanceled then New else Done);
      FinishAgentCall(call.agentId);
      return true;
    }

    /** dashboard/manual-call-status.ts setManualCallStatus */
    method SetManualCallStatus(id: CallId, user: UserId, outcome: Outcome, now: Time) returns (result: ManualResult)
      modifies this
      ensures result == ManualUpdated <==>
              && Owns(old(Snapshot()), id, user) && IsOver(old(calls)[id]) && old(calls)[id].lockedAt.None?
      ensures result == ManualMissing <==> !Owns(old(Snapshot()), id, user)
      ensures result == ManualActive <==>
              && Owns(old(Snapshot()), id, user) && !IsOver(old(calls)[id]) && old(calls)[id].lockedAt.None?
      ensures result == ManualAlreadySet <==>
              && Owns(old(Snapshot()), id, user) && old(calls)[id].lockedAt.Some?
              && old(calls)[id].outcome == Some(outcome) && FitsOutcome(old(calls)[id].state, outcome)
      ensures if result == ManualUpdated then StatusSet(old(Snapshot()), Snapshot(), id, outcome, now)
              else Snapshot() == old(Snapshot())
      ensures (Snapshot(), result) == SetManualStatus(old(Snapshot()), id, user, outcome, now)
    {
      ManualStatusMeans(Snapshot(), id, user, outcome, now);
      hide StatusSet, IsOver, Owns, FitsOutcome;
      hide Log, PutCall, ManualRow;
      if !OwnedBy(Snapshot(), id, user) {
        return ManualMissing;
      }
      var call := calls[id];
      if call.lockedAt.Some? {
        return if call.outcome == Some(outcome) && IsTerminal(call.state) && call.state == TerminalStateFor(outcome)
               then ManualAlreadySet else ManualLocked;
      }
      if call.endedAt.None? || !IsTerminal(call.state) {
        return ManualActive;
      }
      ManualUpdatePasses(Snapshot(), id, outcome, now);
      var _ := UpdateCallRow(id, ManualRow(call, outcome, now));
      InsertCallEvent(CallEvent(id, ManualStatusEvent, None));
      return ManualUpdated;
    }

    /** resetCampaignLeads */
    method ResetLeads(campaign: CampaignId)
      modifies this`contacts
      ensures if campaign in old(campaigns) && CampaignQuiet(old(Snapshot()), campaign)
              then LeadsReset(old(Snapshot()), Snapshot(), campaign) else Snapshot() == old(Snapshot())
      ensures Snapshot() == ResetCampaign(old(Snapshot()), campaign)
    {
      ResetMeans(Snapshot(), campaign);
      hide LeadsReset, CampaignQuiet;
      if campaign !in campaigns || CampaignBusy(Snapshot(), campaign) {
        return;
      }
      contacts := map k | k in contacts ::
        if contacts[k].campaignId == campaign then ResetContact(contacts[k]) else contacts[k];
      assert contacts == ResetCampaign(old(Snapshot()), campaign).contacts;
    }

    /** auth/routes.ts updateUser, under the user lock */
    method ChangeUser(user: UserId, role: Option<Role>, active: Option<bool>) returns (result: AccountResult)
      modifies this
      ensures result == AccountChanged <==> user in old(users) && !CutsOff(old(Snapshot()), user, role, active)
      ensures result == AccountNotFound <==> user !in old(users)
      ensures result == AccountActiveCall <==>
              user in old(users) && old(users)[user].active && active == Some(false) && OnACall(old(Snapshot()), user)
      ensures if result == AccountChanged then AccountSet(old(Snapshot()), Snapshot(), user, role, active)
              else Snapshot() == old(Snapshot())
      ensures (Snapshot(), result) == UpdateUser(old(Snapshot()), user, role, active)
    {
      ChangeUserMeans(Snapshot(), user, role, active);
      hide AccountSet, CutsOff, OnACall;
      hide RetireAgents, OwnsActiveCall, HasLiveSession;
      if user !in users {
        return AccountNotFound;
      }
      var existing := users[user];
      var deactivated := existing.active && active == Some(false);
      if deactivated && OwnsActiveCall(Snapshot(), user) {
        return AccountActiveCall;
      }
      var demoted := existing.role == AdminRole && role == Some(AgentRole);
      if (deactivated || demoted) && HasLiveSession(sessions, user) {
        return AccountActiveSupervisor;
      }
      if deactivated {
        agents := RetireAgents(agents, user);
      }
      users := users[user := User(if active.Some? then active.value else existing.active,
                                  if role.Some? then role.value else existing.role)];
      return AccountChanged;
    }

    /** auth/routes.ts deleteUser, under the user lock */
    method RemoveUser(user: UserId) returns (result: AccountResult)
      modifies this
      ensures result == AccountChanged <==>
              user in old(users) && !OnACall(old(Snapshot()), user) && !Supervising(old(sessions), user)
      ensures result == AccountNotFound <==> user !in old(users)
      ensures result == AccountActiveCall <==> user in old(users) && OnACall(old(Snapshot()), user)
      ensures if result == AccountChanged then UserRemoved(old(Snapshot()), Snapshot(), user)
              else Snapshot() == old(Snapshot())
      ensures (Snapshot(), result) == DeleteUser(old(Snapshot()), user)
    {
      RemoveUserMeans(Snapshot(), user);
      hide UserRemoved, OnACall, Supervising;
      hide RetireAgents, OwnsActiveCall, HasLiveSession;
      if user !in users {
        return AccountNotFound;
      }
      if OwnsActiveCall(Snapshot(), user) {
        return AccountActiveCall;
      }
      if HasLiveSession(sessions, user) {
        return AccountActiveSupervisor;
      }
      users := users[user := users[user].(active := false)];
      agents := RetireAgents(agents, user);
      return AccountChanged;
    }

    /** startSupervisorSession's transaction, under the user lock */
    method StartSupervisorSession(id: SessionId, actor: UserId, call: CallId,
                                  leg: ChannelUuid) returns (result: SessionResult)
      modifies this`sessions
      ensures result == SessionStarted <==> MaySupervise(old(Snapshot()), actor) && id !in old(sessions)
      ensures if result == SessionStarted then SessionOpened(old(Snapshot()), Snapshot(), id, actor, call, leg)
              else Snapshot() == old(Snapshot())
      ensures (Snapshot(), result) == StartSession(old(Snapshot()), id, actor, call, leg)
    {
      SuperviseMeans(Snapshot(), id, actor, call, leg);
      hide MaySupervise, SessionOpened;
      if actor !in users || !users[actor].active || users[actor].role != AdminRole {
        return AccessChanged;
      }
      if OwnsActiveCall(Snapshot(), actor) {
        return FinishOwnCall;
      }
      if HasLiveSession(sessions, actor) {
        return AlreadyMonitoring;
      }
      if id in sessions {
        return SessionKeyConflict;
      }
      sessions := sessions[id := Session(actor, call, Connecting, leg, None)];
      return SessionStarted;
    }
  }

  // ---------------------------------------------------------------- what the methods rely on

  lemma {:induction false} OldestExists(db: Db, ids: set<CallId>)
    requires ids != {}
    ensures exists o :: o in ids && forall c | c in ids :: SortKey(db, o) <= SortKey(db, c)
    decreases |ids|
  {
    hide SortKey;
    var x :| x in ids;
    if ids == {x} {
      assert forall c | c in ids :: SortKey(db, x) <= SortKey(db, c);
    } else {
      OldestExists(db, ids - {x});
      var o :| o in ids - {x} && forall c | c in ids - {x} :: SortKey(db, o) <= SortKey(db, c);
      var best := if SortKey(db, x) <= SortKey(db, o) then x else o;
      forall c | c in ids
        ensures SortKey(db, best) <= SortKey(db, c)
      {
        assert c != x ==> c in ids - {x};
      }
    }
  }

  /** The page so far, oldest first, and what is left of the candidates, none of it older. */
  ghost predicate Selected(db: Db, all: set<CallId>, page: seq<CallId>, left: set<CallId>) {
    && |page| + |left| == |all|
    && (forall c :: c in all <==> c in left || c in page)
    && (forall i | 0 <= i < |page| :: page[i] !in left)
    && (forall i, j | 0 <= i < j < |page| :: page[i] != page[j] && SortKey(db, page[i]) <= SortKey(db, page[j]))
    && (forall i, c | 0 <= i < |page| && c in left :: SortKey(db, page[i]) <= SortKey(db, c))
  }

  lemma SelectsOldest(db: Db, all: set<CallId>, page: seq<CallId>, left: set<CallId>, oldest: CallId)
    requires Selected(db, all, page, left) && oldest in left
    requires forall c | c in left :: SortKey(db, oldest) <= SortKey(db, c)
    ensures Selected(db, all, page + [oldest], left - {oldest})
  {
    hide SortKey;
  }

  lemma PageLength(db: Db, limit: nat, page: seq<CallId>)
    requires IsCandidatePage(db, limit, page)
    ensures |page| == if |Candidates(db)| < limit then |Candidates(db)| else limit
  {
  }

  lemma RepairHead(db: Db, page: seq<CallId>, now: Time)
    requires page != []
    ensures var (after, status) := FinalizeCall(db, page[0], KeepDecision, None, false, now);
            && RepairAll(db, page, now).0 == RepairAll(after, page[1..], now + 1).0
            && RepairAll(db, page, now).1 == RepairAll(after, page[1..], now + 1).1
                                             + if status == AlreadyFinalized || status == Finalized then 1 else 0
  {
    hide FinalizeCall;
  }

  lemma NothingToRepair(db: Db, page: seq<CallId>, now: Time)
    requires page == []
    ensures RepairAll(db, page, now) == (db, 0)
  {
  }

  lemma NoWrites(db: Db, now: Time)
    ensures RunWrites(db, [], now) == db
  {
  }

  lemma ManualUpdatePasses(db: Db, id: CallId, outcome: Outcome, now: Time)
    requires id in db.calls && db.calls[id].lockedAt.None?
    ensures PutCall(db, id, ManualRow(db.calls[id], outcome, now)).Some?
  {
  }

  /** The agent's end of an active call always passes the row trigger. */
  lemma AgentEndPasses(db: Db, id: CallId, now: Time)
    requires id in db.calls && Active(db.calls[id])
    ensures PutCall(db, id, AgentEndedRow(db.calls[id], now)).Some?
  {
  }
}
