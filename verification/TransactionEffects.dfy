/**
 What the transactions mean to their callers: which call ends and how, what becomes
 of its lead, legs and agent, when a request is refused, and that everything else
 stays. Stated on the database before and after, without the statements in between.
 */
module TransactionEffects {
  import opened Wrappers
  import opened DialerDb
  import opened Terms
  import opened Finalization
  import opened VoicemailDrop
  import opened CallActions
  import opened UserAccess

  // ---------------------------------------------------------------- effects

  ghost predicate OtherCallsKept(a: Db, b: Db, id: CallId) {
    b.calls.Keys == a.calls.Keys && forall c | c in a.calls && c != id :: b.calls[c] == a.calls[c]
  }

  /**
   The agent is free again, ready or offline by its registration, with a pause kept,
   unless a call still occupies it; nobody else is touched.
   */
  ghost predicate AgentLetGo(a: Db, b: Db, agent: Option<AgentId>) {
    && b.agents.Keys == a.agents.Keys
    && (forall g | g in a.agents && (agent != Some(g) || OnPhone(b.calls, g)) :: b.agents[g] == a.agents[g])
    && (forall g | g in a.agents && agent == Some(g) && !OnPhone(b.calls, g) ::
          && b.agents[g].status != InCall
          && (b.agents[g].status == Ready <==> a.agents[g].registered)
          && (b.agents[g].status == Offline <==> !a.agents[g].registered)
          && (b.agents[g].availability == Paused <==> a.agents[g].availability == Paused)
          && b.agents[g].availability != WrapUp
          && b.agents[g].userId == a.agents[g].userId && b.agents[g].registered == a.agents[g].registered)
  }

  /** A lead that was being called gets this status; every other lead, and everything else about it, stays. */
  ghost predicate LeadLetGo(a: Db, b: Db, contact: Option<ContactId>, status: ContactStatus) {
    && b.contacts.Keys == a.contacts.Keys
    && forall k | k in a.contacts ::
         b.contacts[k] == if contact == Some(k) && a.contacts[k].status == Calling
                          then a.contacts[k].(status := status) else a.contacts[k]
  }

  /** Every leg of the call, or every leg of one kind, has ended; no earlier end is moved, no other leg touched. */
  ghost predicate LegsOver(a: Db, b: Db, id: CallId, only: Option<LegKind>) {
    && b.legs.Keys == a.legs.Keys
    && forall l | l in a.legs ::
         if a.legs[l].callId == id && (only.None? || a.legs[l].kind == only.value)
         then && b.legs[l].state == LegEnded && b.legs[l].endedAt.Some?
              && (a.legs[l].endedAt.Some? ==> b.legs[l].endedAt == a.legs[l].endedAt)
         else b.legs[l] == a.legs[l]
  }

  /** Nothing but the rows of calls, legs, leads and agents, and the log. */
  ghost predicate UsersKept(a: Db, b: Db) {
    && b.users == a.users && b.sessions == a.sessions && b.campaigns == a.campaigns && b.suppressed == a.suppressed
    && b.callStartPaused == a.callStartPaused
  }

  /** The state a call ends in goes with its outcome; nothing else about the row changed. */
  predicate RowEndedWith(before: Call, after: Call, outcome: Outcome, now: Time) {
    after == before.(state := if outcome == CallFailed then Failed else Completed, outcome := Some(outcome),
                     endedAt := Some(now), updatedAt := now)
  }

  /** This call ended, and no other call changed. */
  ghost predicate EndedWith(a: Db, b: Db, id: CallId, outcome: Outcome, now: Time) {
    id in a.calls && OtherCallsKept(a, b, id) && RowEndedWith(a.calls[id], b.calls[id], outcome, now)
  }

  lemma OneRowEnded(a: Db, b: Db, id: CallId, row: Call, outcome: Outcome, now: Time)
    requires id in a.calls && b.calls == a.calls[id := row] && RowEndedWith(a.calls[id], row, outcome, now)
    ensures EndedWith(a, b, id, outcome, now)
  {
    hide RowEndedWith;
  }

  // ---------------------------------------------------------------- the statements have these effects

  lemma FinishLetsGo(db: Db, agent: Option<AgentId>)
    ensures AgentLetGo(db, FinishAgent(db, agent), agent)
  {
    forall g
      ensures HasActiveCall(db.calls, g) == OnPhone(db.calls, g)
    {
      OnPhoneIsActive(db.calls, g);
    }
    hide HasActiveCall, OnPhone;
  }

  lemma ReturnLetsGo(db: Db, contact: Option<ContactId>, status: ContactStatus)
    ensures LeadLetGo(db, ReturnLead(db, contact, status), contact, status)
  {
  }

  lemma CloseEndsLegs(db: Db, id: CallId, only: Option<LegKind>, now: Time)
    ensures LegsOver(db, CloseLegs(db, id, only, now), id, only)
  {
  }

  /** Event, legs, lead and agent after the call's row was updated. */
  ghost predicate GivenBack(a: Db, b: Db, event: CallEvent, contact: Option<ContactId>, status: ContactStatus,
                            agent: Option<AgentId>) {
    && LegsOver(a, b, event.callId, None) && LeadLetGo(a, b, contact, status) && AgentLetGo(a, b, agent)
    && UsersKept(a, b) && Logged(a.events, b.events, event)
  }

  lemma CloseDropGivesBack(a: Db, m: Db, event: CallEvent, contact: Option<ContactId>, status: ContactStatus,
                           agent: Option<AgentId>, now: Time)
    requires m == a.(calls := m.calls)
    ensures GivenBack(a, CloseDrop(m, event, contact, status, agent, now), event, contact, status, agent)
    ensures CloseDrop(m, event, contact, status, agent, now).calls == m.calls
  {
    hide Log, CloseLegs, ReturnLead, FinishAgent, LegsOver, LeadLetGo, AgentLetGo, Logged;
    var logged := Log(m, event);
    var closed := CloseLegs(logged, event.callId, None, now);
    var returned := ReturnLead(closed, contact, status);
    LogLogs(m, event);
    CloseEndsLegs(logged, event.callId, None, now);
    ReturnLetsGo(closed, contact, status);
    FinishLetsGo(returned, agent);
    PartsOnly(a, CloseDrop(m, event, contact, status, agent, now), logged, closed, returned, event.callId, contact, status, agent);
  }

  lemma PartsOnly(a: Db, b: Db, logged: Db, closed: Db, returned: Db, id: CallId, contact: Option<ContactId>,
                  status: ContactStatus, agent: Option<AgentId>)
    requires logged.legs == a.legs && closed.contacts == a.contacts && returned.agents == a.agents
    requires b.legs == closed.legs && b.contacts == returned.contacts
    requires LegsOver(logged, closed, id, None) && LeadLetGo(closed, returned, contact, status) && AgentLetGo(returned, b, agent)
    ensures LegsOver(a, b, id, None) && LeadLetGo(a, b, contact, status) && AgentLetGo(a, b, agent)
  {
    hide OnPhone;
  }

  // ---------------------------------------------------------------- voicemail

  /** Background playback completion: nothing outside a drop; an agent that had moved on is left alone. */
  ghost predicate PlaybackCompletes(a: Db, b: Db, id: CallId, now: Time) {
    if !InDrop(a, id) then b == a
    else
      && EndedWith(a, b, id, VoicemailDropped, now)
      && GivenBack(a, b, CallEvent(id, PlaybackCompletedEvent, None), a.calls[id].contactId, Done,
                   if a.calls[id].agentReleasedAt.None? then a.calls[id].agentId else None)
  }

  lemma DropRowsEnd(call: Call, failed: bool, now: Time)
    requires LockValid(call) && call.endedAt.None? && IsVoicemailDropActive(call.state)
    ensures GuardUpdate(call, CompletedRow(call, now)) == Some(CompletedRow(call, now))
    ensures RowEndedWith(call, CompletedRow(call, now), VoicemailDropped, now)
    ensures GuardUpdate(call, IncompleteRow(call, failed, now)) == Some(IncompleteRow(call, failed, now))
    ensures RowEndedWith(call, IncompleteRow(call, failed, now), if failed then CallFailed else CustomerHungUp, now)
  {
  }

  lemma InDropIsListed(db: Db, id: CallId)
    ensures DropInProgress(db, id) == InDrop(db, id)
  {
    if id in db.calls {
      StatesAreListed(db.calls[id].state);
    }
    hide IsVoicemailDropActive;
  }

  lemma CompletedMeans(db: Db, id: CallId, now: Time)
    requires SchemaValid(db)
    ensures PlaybackCompletes(db, FinalizeCompleted(db, id, now), id, now)
  {
    InDropIsListed(db, id);
    if DropInProgress(db, id) {
      var call := db.calls[id];
      assert LockValid(call);
      DropRowsEnd(call, false, now);
      var row := CompletedRow(call, now);
      hide GuardUpdate, CloseDrop, GivenBack, IsVoicemailDropActive, RowEndedWith, CompletedRow, EndedWith, LockValid, SchemaValid;
      var m := db.(calls := db.calls[id := row]);
      CloseDropGivesBack(db, m, CallEvent(id, PlaybackCompletedEvent, None), call.contactId, Done,
                         if call.agentReleasedAt.None? then call.agentId else None, now);
      OneRowEnded(db, FinalizeCompleted(db, id, now), id, row, VoicemailDropped, now);
    }
  }

  /** An interrupted or failed drop: the lead goes back to be called again, the agent is freed unless it was released. */
  ghost predicate PlaybackBreaksOff(a: Db, b: Db, id: CallId, failed: bool, agentReleased: bool,
                                    contact: Option<ContactId>, now: Time) {
    if !InDrop(a, id) then b == a
    else
      && EndedWith(a, b, id, if failed then CallFailed else CustomerHungUp, now)
      && GivenBack(a, b, CallEvent(id, if failed then PlaybackFailedEvent else PlaybackInterruptedEvent, None), contact, New, if agentReleased then None else a.calls[id].agentId)
  }

  lemma IncompleteIsLogged(id: CallId, failed: bool)
    ensures IncompleteEvent(id, failed) == CallEvent(id, if failed then PlaybackFailedEvent else PlaybackInterruptedEvent, None)
  {
  }

  lemma IncompleteMeans(db: Db, id: CallId, failed: bool, agentReleased: bool, contact: Option<ContactId>, now: Time)
    requires SchemaValid(db)
    ensures PlaybackBreaksOff(db, FinalizeIncomplete(db, id, failed, agentReleased, contact, now), id, failed,
                              agentReleased, contact, now)
  {
    InDropIsListed(db, id);
    if DropInProgress(db, id) {
      var call := db.calls[id];
      assert LockValid(call);
      DropRowsEnd(call, failed, now);
      var row := IncompleteRow(call, failed, now);
      var event := IncompleteEvent(id, failed);
      IncompleteIsLogged(id, failed);
      hide GuardUpdate, CloseDrop, GivenBack, IsVoicemailDropActive, RowEndedWith, IncompleteRow, IncompleteEvent,
        EndedWith, LockValid, SchemaValid;
      var m := db.(calls := db.calls[id := row]);
      CloseDropGivesBack(db, m, event, contact, New, if agentReleased then None else call.agentId, now);
      OneRowEnded(db, FinalizeIncomplete(db, id, failed, agentReleased, contact, now), id, row,
                  if failed then CallFailed else CustomerHungUp, now);
    }
  }

  /** The agent leaves a call whose customer hears the recording: the call stays open, no longer occupies it, and keeps its lead. */
  ghost predicate AgentReleasedFrom(a: Db, b: Db, id: CallId, now: Time) {
    if !InDrop(a, id) then b == a
    else
      && OtherCallsKept(a, b, id)
      && b.calls[id] == a.calls[id].(state := AgentReleased, updatedAt := now,
                                     agentReleasedAt := if a.calls[id].agentReleasedAt.Some?
                                                        then a.calls[id].agentReleasedAt else Some(now))
      && Running(b.calls[id]) && !NeedsAgent(b.calls[id])
      && LegsOver(a, b, id, Some(AgentLeg)) && b.contacts == a.contacts
      && AgentLetGo(a, b, a.calls[id].agentId)
      && UsersKept(a, b) && Logged(a.events, b.events, CallEvent(id, AgentReleasedEvent, None))
  }

  lemma ReleasedPasses(call: Call, now: Time)
    requires LockValid(call) && call.endedAt.None? && IsVoicemailDropActive(call.state)
    ensures var row := call.(state := AgentReleased, agentReleasedAt := Coalesce(call.agentReleasedAt, Some(now)),
                             updatedAt := now);
            GuardUpdate(call, row) == Some(row) && Running(row) && !NeedsAgent(row)
  {
  }

  /** The release as a chain of its statements. */
  lemma ReleaseChain(db: Db, id: CallId, row: Call, now: Time)
    requires SchemaValid(db) && DropInProgress(db, id)
    requires row == db.calls[id].(state := AgentReleased,
                                  agentReleasedAt := Coalesce(db.calls[id].agentReleasedAt, Some(now)), updatedAt := now)
    ensures Running(row) && !NeedsAgent(row)
    ensures var marked := Log(db, CallEvent(id, AgentReleasedEvent, None)).(calls := db.calls[id := row]);
            ReleaseAgent(db, id, now) == FinishAgent(CloseLegs(marked, id, Some(AgentLeg), now), db.calls[id].agentId)
  {
    assert LockValid(db.calls[id]);
    ReleasedPasses(db.calls[id], now);
    hide GuardUpdate, Log, CloseLegs, FinishAgent, IsVoicemailDropActive, Running, NeedsAgent, LockValid, SchemaValid;
  }

  lemma ReleaseMeans(db: Db, id: CallId, now: Time)
    requires SchemaValid(db)
    ensures AgentReleasedFrom(db, ReleaseAgent(db, id, now), id, now)
  {
    InDropIsListed(db, id);
    if DropInProgress(db, id) {
      var call := db.calls[id];
      var row := call.(state := AgentReleased, agentReleasedAt := Coalesce(call.agentReleasedAt, Some(now)), updatedAt := now);
      var marked := Log(db, CallEvent(id, AgentReleasedEvent, None)).(calls := db.calls[id := row]);
      var closed := CloseLegs(marked, id, Some(AgentLeg), now);
      ReleaseChain(db, id, row, now);
      LogLogs(db, CallEvent(id, AgentReleasedEvent, None));
      CloseEndsLegs(marked, id, Some(AgentLeg), now);
      FinishLetsGo(closed, call.agentId);
      hide Log, CloseLegs, FinishAgent, Logged, ReleaseAgent, Running, NeedsAgent, LegsOver, AgentLetGo, IsVoicemailDropActive;
      AgentPartOnly(db, ReleaseAgent(db, id, now), marked, closed, id, call.agentId);
    }
  }

  lemma AgentPartOnly(a: Db, b: Db, marked: Db, closed: Db, id: CallId, agent: Option<AgentId>)
    requires marked.legs == a.legs && closed.agents == a.agents && b.legs == closed.legs
    requires LegsOver(marked, closed, id, Some(AgentLeg)) && AgentLetGo(closed, b, agent)
    ensures LegsOver(a, b, id, Some(AgentLeg)) && AgentLetGo(a, b, agent)
  {
    hide HasActiveCall;
  }

  /** Playback started: recorded once, however often it is reported, and a released call is never taken back. */
  ghost predicate PlaybackStarts(a: Db, b: Db, id: CallId, now: Time) {
    if !InDrop(a, id) then b == a
    else
      && b == a.(calls := b.calls, events := b.events) && OtherCallsKept(a, b, id)
      && Logged(a.events, b.events, CallEvent(id, PlaybackStartedEvent, None))
      && b.calls[id] == (if a.calls[id].state == AgentReleased then a.calls[id]
                         else a.calls[id].(state := VoicemailPlaybackStarted, updatedAt := now))
      && NeedsAgent(b.calls[id]) == NeedsAgent(a.calls[id])
  }

  lemma StartedPasses(call: Call, now: Time)
    requires LockValid(call) && call.endedAt.None? && IsVoicemailDropActive(call.state) && call.state != AgentReleased
    ensures var row := call.(state := VoicemailPlaybackStarted, updatedAt := now);
            GuardUpdate(call, row) == Some(row) && NeedsAgent(row) && NeedsAgent(call)
  {
  }

  lemma PlaybackStartedMeans(db: Db, id: CallId, now: Time)
    requires SchemaValid(db)
    ensures PlaybackStarts(db, MarkPlaybackStarted(db, id, now), id, now)
  {
    InDropIsListed(db, id);
    if DropInProgress(db, id) {
      var call := db.calls[id];
      assert LockValid(call);
      LogLogs(db, CallEvent(id, PlaybackStartedEvent, None));
      var logged := Log(db, CallEvent(id, PlaybackStartedEvent, None));
      if call.state != AgentReleased {
        StartedPasses(call, now);
        var row := call.(state := VoicemailPlaybackStarted, updatedAt := now);
        assert UpdateCall(logged, id, row) == logged.(calls := db.calls[id := row]);
      }
      hide GuardUpdate, Log, UpdateCall, Logged, IsVoicemailDropActive, NeedsAgent;
    }
  }

  // ---------------------------------------------------------------- the agent's calls

  /** The agent ended its own active call: answered calls finish the lead, others return it, and the agent is free. */
  ghost predicate AgentEnded(a: Db, b: Db, id: CallId, now: Time)
    requires id in a.calls
  {
    var answered := a.calls[id].state in {Bridged, VoicemailSignalDetected};
    && EndedWith(a, b, id, if answered then Answered else AgentCanceled, now)
    && GivenBack(a, b, CallEvent(id, CallEndedEvent, None), a.calls[id].contactId, if answered then Done else New,
                 a.calls[id].agentId)
  }

  lemma AgentEndRowPasses(call: Call, now: Time)
    requires Active(call) && LockValid(call)
    ensures GuardUpdate(call, AgentEndedRow(call, now)) == Some(AgentEndedRow(call, now))
    ensures RowEndedWith(call, AgentEndedRow(call, now), InferAgentEndOutcome(call.state), now)
  {
  }

  /** The agent's end does to event, legs, lead and agent what a finished drop does. */
  lemma AgentEndIsClose(db: Db, id: CallId, user: UserId, now: Time)
    requires OwnedBy(db, id, user) && Active(db.calls[id])
    requires GuardUpdate(db.calls[id], AgentEndedRow(db.calls[id], now)) == Some(AgentEndedRow(db.calls[id], now))
    ensures EndDialerCall(db, id, user, now).0
         == CloseDrop(db.(calls := db.calls[id := AgentEndedRow(db.calls[id], now)]), CallEvent(id, CallEndedEvent, None),
                      db.calls[id].contactId, if InferAgentEndOutcome(db.calls[id].state) == AgentCanceled then New else Done,
                      db.calls[id].agentId, now)
  {
    hide GuardUpdate, Log, CloseLegs, ReturnLead, FinishAgent, Active, OwnedBy, AgentEndedRow;
  }

  lemma AgentEndMeans(db: Db, id: CallId, user: UserId, now: Time)
    ensures var (b, ended) := EndDialerCall(db, id, user, now);
            && (ended <==> Owns(db, id, user) && NeedsAgent(db.calls[id]))
            && (!ended ==> b == db)
            && (ended && LockValid(db.calls[id]) ==> AgentEnded(db, b, id, now))
  {
    OwnsIsOwned(db, id, user);
    if id in db.calls {
      RunningIsOpen(db.calls[id]);
    }
    if OwnedBy(db, id, user) && Active(db.calls[id]) && LockValid(db.calls[id]) {
      var call := db.calls[id];
      var row := AgentEndedRow(call, now);
      AgentEndRowPasses(call, now);
      AgentEndIsClose(db, id, user, now);
      var m := db.(calls := db.calls[id := row]);
      hide GuardUpdate, CloseDrop, GivenBack, Active, OwnedBy, Owns, NeedsAgent, AgentEndedRow, RowEndedWith, EndedWith;
      CloseDropGivesBack(db, m, CallEvent(id, CallEndedEvent, None), call.contactId,
                         if InferAgentEndOutcome(call.state) == AgentCanceled then New else Done, call.agentId, now);
      OneRowEnded(db, EndDialerCall(db, id, user, now).0, id, row, InferAgentEndOutcome(call.state), now);
    }
  }

  /** One more call, being dialed for this agent, campaign and lead, with nothing else having happened to it. */
  ghost predicate CallInserted(a: map<CallId, Call>, b: map<CallId, Call>, id: CallId, agent: AgentId,
                               campaign: CampaignId, contact: Option<ContactId>, now: Time) {
    && id !in a && b.Keys == a.Keys + {id} && (forall c | c in a :: b[c] == a[c])
    && b[id].agentId == Some(agent) && b[id].campaignId == Some(campaign) && b[id].contactId == contact
    && b[id].state == CustomerDialing && b[id].createdAt == now && b[id].updatedAt == now
    && b[id].outcome.None? && b[id].answeredAt.None? && b[id].endedAt.None? && b[id].dropRequestedAt.None?
    && b[id].agentReleasedAt.None? && b[id].lockedAt.None? && !b[id].voicemailDetected
  }

  predicate FreshLeg(leg: Leg, id: CallId, kind: LegKind) {
    && leg.callId == id && leg.kind == kind && leg.state == LegCreated
    && leg.uuid.None? && leg.answeredAt.None? && leg.endedAt.None?
  }

  /** One more leg of each kind for the call. */
  ghost predicate LegsInserted(a: map<LegId, Leg>, b: map<LegId, Leg>, id: CallId, agentLeg: LegId, customerLeg: LegId) {
    && b.Keys == a.Keys + {agentLeg, customerLeg} && (forall l | l in a :: b[l] == a[l])
    && FreshLeg(b[agentLeg], id, AgentLeg) && FreshLeg(b[customerLeg], id, CustomerLeg)
  }

  /** The agent is on the phone, out of any wrap-up, and nobody else changed. */
  ghost predicate AgentTaken(a: map<AgentId, Agent>, b: map<AgentId, Agent>, agent: AgentId) {
    && b.Keys == a.Keys && agent in a && (forall g | g in a && g != agent :: b[g] == a[g])
    && b[agent].status == InCall && b[agent].userId == a[agent].userId && b[agent].registered == a[agent].registered
    && (a[agent].availability == WrapUp ==> b[agent].availability == Available)
    && (a[agent].availability != WrapUp ==> b[agent].availability == a[agent].availability)
  }

  /** The lead is being called, with one more attempt counted from now, and no other lead changed. */
  ghost predicate LeadTaken(a: map<ContactId, Contact>, b: map<ContactId, Contact>, contact: Option<ContactId>, now: Time) {
    && b.Keys == a.Keys && (forall k | k in a && contact != Some(k) :: b[k] == a[k])
    && (contact.Some? ==>
          && contact.value in a
          && b[contact.value] == a[contact.value].(status := Calling, attempts := a[contact.value].attempts + 1,
                                                   lastAttemptedAt := Some(now)))
  }

  /** The campaign of a new call: its lead's, or the one a number was dialed for by hand. */
  function CampaignOf(db: Db, lead: LeadChoice): CampaignId
    requires LeadOf(lead).Some? ==> LeadOf(lead).value in db.contacts
    requires LeadOf(lead).None? ==> lead.ManualNumber?
  {
    if LeadOf(lead).Some? then db.contacts[LeadOf(lead).value].campaignId else lead.campaign
  }

  /** A call started: the call, its legs, its agent and its lead, and nothing else. */
  ghost predicate CallStartedFor(a: Db, b: Db, agent: AgentId, lead: LeadChoice, id: CallId, agentLeg: LegId,
                                 customerLeg: LegId, now: Time) {
    && (LeadOf(lead).Some? ==> LeadOf(lead).value in a.contacts) && (LeadOf(lead).None? ==> lead.ManualNumber?)
    && CallInserted(a.calls, b.calls, id, agent, CampaignOf(a, lead), LeadOf(lead), now)
    && LegsInserted(a.legs, b.legs, id, agentLeg, customerLeg)
    && AgentTaken(a.agents, b.agents, agent) && LeadTaken(a.contacts, b.contacts, LeadOf(lead), now)
    && UsersKept(a, b) && Logged(a.events, b.events, CallEvent(id, CallStarted, None))
  }

  lemma StartedRows(db: Db, agent: AgentId, contact: Option<ContactId>, campaign: CampaignId, id: CallId,
                    agentLeg: LegId, customerLeg: LegId, now: Time)
    requires agent in db.agents && id !in db.calls && agentLeg !in db.legs && customerLeg !in db.legs
    requires agentLeg != customerLeg
    ensures CallInserted(db.calls, db.calls[id := NewCall(agent, campaign, contact, now)], id, agent, campaign, contact, now)
    ensures LegsInserted(db.legs, db.legs[agentLeg := NewLeg(id, AgentLeg)][customerLeg := NewLeg(id, CustomerLeg)], id,
                         agentLeg, customerLeg)
    ensures AgentTaken(db.agents, db.agents[agent := OccupiedAgent(db.agents[agent])], agent)
  {
  }

  lemma StartMeans(db: Db, agent: AgentId, lead: LeadChoice, campaign: CampaignId, id: CallId,
                   agentLeg: LegId, customerLeg: LegId, now: Time)
    requires agent in db.agents && id !in db.calls && agentLeg !in db.legs && customerLeg !in db.legs
    requires agentLeg != customerLeg && (LeadOf(lead).Some? ==> LeadOf(lead).value in db.contacts)
    requires (LeadOf(lead).None? ==> lead.ManualNumber?) && campaign == CampaignOf(db, lead)
    ensures CallStartedFor(db, StartCall(db, agent, LeadOf(lead), campaign, id, agentLeg, customerLeg, now), agent, lead,
                           id, agentLeg, customerLeg, now)
  {
    var contact := LeadOf(lead);
    StartedRows(db, agent, contact, campaign, id, agentLeg, customerLeg, now);
    hide CallInserted, LegsInserted, AgentTaken, NewCall, NewLeg, OccupiedAgent;
    var inserted := db.(calls := db.calls[id := NewCall(agent, campaign, contact, now)],
                        legs := db.legs[agentLeg := NewLeg(id, AgentLeg)][customerLeg := NewLeg(id, CustomerLeg)],
                        agents := db.agents[agent := OccupiedAgent(db.agents[agent])]);
    LogLogs(inserted, CallEvent(id, CallStarted, None));
    hide Log, Logged;
  }

  lemma CreateMeans(db: Db, actor: UserId, agent: AgentId, lead: LeadChoice, policy: RetryPolicy,
                    id: CallId, agentLeg: LegId, customerLeg: LegId, now: Time)
    ensures var (b, result) := CreateDialerCall(db, actor, agent, lead, policy, id, agentLeg, customerLeg, now);
            if result == CallCreated
            then CallStartedFor(db, b, agent, lead, id, agentLeg, customerLeg, now)
            else b == db
  {
    var result := CreateDialerCall(db, actor, agent, lead, policy, id, agentLeg, customerLeg, now).1;
    if result == CallCreated {
      LeadAcceptedIff(db, lead, policy, now);
      hide SelectLead, StartCall, HasActiveCall, HasLiveSession, CallStartedFor;
      var (contact, campaign) := SelectLead(db, lead, policy, now).value;
      StartMeans(db, agent, lead, campaign, id, agentLeg, customerLeg, now);
    }
  }

  // ---------------------------------------------------------------- the manual status

  /** The terminal state an outcome set by hand goes with. */
  predicate FitsOutcome(state: CallState, outcome: Outcome) {
    && (state == Failed <==> outcome == CallFailed)
    && (state == Canceled <==> outcome in {AgentCanceled, Suppressed})
    && (state == Completed <==> outcome !in {CallFailed, AgentCanceled, Suppressed})
  }

  /** A manual status: the outcome asked for, in its terminal state, locked; nothing else about the call changes. */
  ghost predicate StatusSet(a: Db, b: Db, id: CallId, outcome: Outcome, now: Time) {
    && id in a.calls && OtherCallsKept(a, b, id)
    && b == a.(calls := b.calls, events := b.events)
    && FitsOutcome(b.calls[id].state, outcome)
    && b.calls[id] == a.calls[id].(state := b.calls[id].state, outcome := Some(outcome), lockedAt := Some(now), updatedAt := now)
    && Logged(a.events, b.events, CallEvent(id, ManualStatusEvent, None))
  }

  lemma ManualRowPasses(call: Call, outcome: Outcome, now: Time)
    requires call.lockedAt.None?
    ensures GuardUpdate(call, ManualRow(call, outcome, now)) == Some(ManualRow(call, outcome, now))
    ensures FitsOutcome(TerminalStateFor(outcome), outcome) && IsTerminal(TerminalStateFor(outcome))
  {
  }

  lemma ManualUpdateMeans(db: Db, id: CallId, user: UserId, outcome: Outcome, now: Time)
    requires SetManualStatus(db, id, user, outcome, now).1 == ManualUpdated
    ensures StatusSet(db, SetManualStatus(db, id, user, outcome, now).0, id, outcome, now)
  {
    ManualRowPasses(db.calls[id], outcome, now);
    var m := db.(calls := db.calls[id := ManualRow(db.calls[id], outcome, now)]);
    LogLogs(m, CallEvent(id, ManualStatusEvent, None));
    hide Log, Logged, GuardUpdate, IsTerminal, TerminalStateFor, OwnedBy;
    assert SetManualStatus(db, id, user, outcome, now).0 == Log(m, CallEvent(id, ManualStatusEvent, None));
  }

  predicate IsOver(call: Call) {
    call.endedAt.Some? && call.state in OVER_STATES
  }

  /** The call is the user's agent's. */
  predicate Owns(db: Db, id: CallId, user: UserId) {
    && id in db.calls && db.calls[id].agentId.Some? && db.calls[id].agentId.value in db.agents
    && db.agents[db.calls[id].agentId.value].userId == user
  }

  lemma OwnsIsOwned(db: Db, id: CallId, user: UserId)
    ensures OwnedBy(db, id, user) == Owns(db, id, user)
  {
  }

  lemma ManualStatusMeans(db: Db, id: CallId, user: UserId, outcome: Outcome, now: Time)
    ensures var (b, result) := SetManualStatus(db, id, user, outcome, now);
            && (result == ManualMissing <==> !Owns(db, id, user))
            && (result == ManualUpdated <==> Owns(db, id, user) && IsOver(db.calls[id]) && db.calls[id].lockedAt.None?)
            && (result == ManualActive <==> Owns(db, id, user) && !IsOver(db.calls[id]) && db.calls[id].lockedAt.None?)
            && (result == ManualAlreadySet <==>
                  && Owns(db, id, user) && db.calls[id].lockedAt.Some?
                  && db.calls[id].outcome == Some(outcome) && FitsOutcome(db.calls[id].state, outcome))
            && (if result == ManualUpdated then StatusSet(db, b, id, outcome, now) else b == db)
  {
    OwnsIsOwned(db, id, user);
    if SetManualStatus(db, id, user, outcome, now).1 == ManualUpdated {
      ManualUpdateMeans(db, id, user, outcome, now);
    }
    if id in db.calls {
      StatesAreListed(db.calls[id].state);
      FittingStateIsTheOne(db.calls[id].state, outcome);
    }
    hide StatusSet, OwnedBy, Owns, PutCall, Log, IsTerminal, TerminalStateFor, FitsOutcome;
  }

  lemma FittingStateIsTheOne(state: CallState, outcome: Outcome)
    ensures FitsOutcome(state, outcome) <==> state == TerminalStateFor(outcome)
    ensures IsTerminal(TerminalStateFor(outcome))
  {
  }

  /** Once set, the same status is reported as already set and any other is refused; nothing changes again. */
  lemma ManualStatusIsSetOnce(db: Db, id: CallId, user: UserId, first: Outcome, second: Outcome, now: Time, later: Time)
    requires SetManualStatus(db, id, user, first, now).1 == ManualUpdated
    ensures var b := SetManualStatus(db, id, user, first, now).0;
            SetManualStatus(b, id, user, second, later) == (b, if second == first then ManualAlreadySet else ManualLocked)
  {
    hide SetManualStatus, FitsOutcome, Logged, IsOver;
    ManualStatusMeans(db, id, user, first, now);
    ManualStatusMeans(SetManualStatus(db, id, user, first, now).0, id, user, second, later);
  }

  // ---------------------------------------------------------------- leads, accounts, supervision

  /** All leads of the campaign are new and unattempted again; every other lead stays. */
  ghost predicate LeadsReset(a: Db, b: Db, campaign: CampaignId) {
    && b == a.(contacts := b.contacts) && b.contacts.Keys == a.contacts.Keys
    && forall k | k in a.contacts ::
         if a.contacts[k].campaignId != campaign then b.contacts[k] == a.contacts[k]
         else && b.contacts[k].status == New && b.contacts[k].attempts == 0 && b.contacts[k].lastAttemptedAt.None?
              && b.contacts[k].campaignId == campaign && b.contacts[k].number == a.contacts[k].number
  }

  /** No call of the campaign is running. */
  ghost predicate CampaignQuiet(db: Db, campaign: CampaignId) {
    forall c | c in db.calls && db.calls[c].campaignId == Some(campaign) :: !Running(db.calls[c])
  }

  lemma ResetMeans(db: Db, campaign: CampaignId)
    ensures CampaignBusy(db, campaign) == !CampaignQuiet(db, campaign)
    ensures if campaign in db.campaigns && CampaignQuiet(db, campaign)
            then LeadsReset(db, ResetCampaign(db, campaign), campaign)
            else ResetCampaign(db, campaign) == db
  {
    forall c | c in db.calls
      ensures Open(db.calls[c]) == Running(db.calls[c])
    {
      RunningIsOpen(db.calls[c]);
    }
    hide Open, Running;
  }

  /** Every agent of the user is offline and unregistered; nobody else's changed. */
  ghost predicate AgentsRetired(a: Db, b: Db, user: UserId) {
    && b.agents.Keys == a.agents.Keys
    && forall g | g in a.agents ::
         && (a.agents[g].userId != user ==> b.agents[g] == a.agents[g])
         && (a.agents[g].userId == user ==>
               && b.agents[g].status == Offline && !b.agents[g].registered && b.agents[g].userId == user
               && b.agents[g].availability == a.agents[g].availability)
  }

  /** What a deactivation or demotion would cut off. */
  ghost predicate CutsOff(db: Db, user: UserId, role: Option<Role>, active: Option<bool>)
    requires user in db.users
  {
    var deactivates := db.users[user].active && active == Some(false);
    || (deactivates && OnACall(db, user))
    || ((deactivates || (db.users[user].role == AdminRole && role == Some(AgentRole)))
        && Supervising(db.sessions, user))
  }

  /** The account as requested; a deactivation retires its agents, and nothing else changes. */
  ghost predicate AccountSet(a: Db, b: Db, user: UserId, role: Option<Role>, active: Option<bool>)
    requires user in a.users
  {
    && b == a.(users := b.users, agents := b.agents) && b.users.Keys == a.users.Keys
    && (forall u | u in a.users && u != user :: b.users[u] == a.users[u])
    && (b.users[user].active <==> if active.Some? then active.value else a.users[user].active)
    && b.users[user].role == (if role.Some? then role.value else a.users[user].role)
    && (if a.users[user].active && !b.users[user].active then AgentsRetired(a, b, user) else b.agents == a.agents)
  }

  lemma UserIsBusy(db: Db, user: UserId)
    ensures OwnsActiveCall(db, user) == OnACall(db, user) && HasLiveSession(db.sessions, user) == Supervising(db.sessions, user)
  {
    SupervisingIsLive(db.sessions, user);
    forall c | c in db.calls
      ensures Active(db.calls[c]) == NeedsAgent(db.calls[c])
    {
      RunningIsOpen(db.calls[c]);
    }
    hide Active, NeedsAgent, HasLiveSession, Supervising;
  }

  lemma ChangeUserMeans(db: Db, user: UserId, role: Option<Role>, active: Option<bool>)
    ensures var (b, result) := UpdateUser(db, user, role, active);
            && (result == AccountNotFound <==> user !in db.users)
            && (result == AccountChanged <==> user in db.users && !CutsOff(db, user, role, active))
            && (result == AccountActiveCall <==>
                  user in db.users && db.users[user].active && active == Some(false) && OnACall(db, user))
            && (if result == AccountChanged then AccountSet(db, b, user, role, active) else b == db)
  {
    UserIsBusy(db, user);
    hide OwnsActiveCall, HasLiveSession, OnACall, Supervising;
  }

  /** What no account change does: take the account or the admin right from somebody using it. */
  lemma ChangeUserCutsNobodyOff(db: Db, user: UserId, role: Option<Role>, active: Option<bool>)
    requires user in db.users && db.users[user].active
    ensures var b := UpdateUser(db, user, role, active).0;
            && user in b.users
            && (OnACall(db, user) ==> b.users[user].active)
            && (Supervising(db.sessions, user) ==> b.users[user].active)
            && (Supervising(db.sessions, user) && db.users[user].role == AdminRole ==> b.users[user].role == AdminRole)
  {
    ChangeUserMeans(db, user, role, active);
    hide UpdateUser, OnACall, Supervising, AgentsRetired;
  }

  lemma RemoveUserMeans(db: Db, user: UserId)
    ensures var (b, result) := DeleteUser(db, user);
            && (result == AccountNotFound <==> user !in db.users)
            && (result == AccountActiveCall <==> user in db.users && OnACall(db, user))
            && (result == AccountChanged <==>
                  user in db.users && !OnACall(db, user) && !Supervising(db.sessions, user))
            && (if result == AccountChanged then UserRemoved(db, b, user) else b == db)
  {
    UserIsBusy(db, user);
    hide OwnsActiveCall, HasLiveSession, OnACall, Supervising;
  }

  /** The account is inactive, its role kept, its agents retired; all rows are still there. */
  ghost predicate UserRemoved(a: Db, b: Db, user: UserId) {
    && user in a.users && b == a.(users := b.users, agents := b.agents) && b.users.Keys == a.users.Keys
    && (forall u | u in a.users && u != user :: b.users[u] == a.users[u])
    && !b.users[user].active && b.users[user].role == a.users[user].role && AgentsRetired(a, b, user)
  }

  /** An active admin who neither calls nor supervises already. */
  ghost predicate MaySupervise(db: Db, actor: UserId) {
    && actor in db.users && db.users[actor].active && db.users[actor].role == AdminRole
    && !OnACall(db, actor) && !Supervising(db.sessions, actor)
  }

  /** One more session, connecting, of this actor on this call; every other session stays. */
  ghost predicate SessionOpened(a: Db, b: Db, id: SessionId, actor: UserId, call: CallId, leg: ChannelUuid) {
    && b == a.(sessions := b.sessions) && id !in a.sessions && b.sessions.Keys == a.sessions.Keys + {id}
    && (forall s | s in a.sessions :: b.sessions[s] == a.sessions[s])
    && b.sessions[id].actor == actor && b.sessions[id].callId == call && b.sessions[id].state == Connecting
    && b.sessions[id].legUuid == leg && b.sessions[id].jobUuid.None?
  }

  lemma SuperviseMeans(db: Db, id: SessionId, actor: UserId, call: CallId, leg: ChannelUuid)
    ensures var (b, result) := StartSession(db, id, actor, call, leg);
            && (result == SessionStarted <==> MaySupervise(db, actor) && id !in db.sessions)
            && (result == AccessChanged <==>
                  !(actor in db.users && db.users[actor].active && db.users[actor].role == AdminRole))
            && (result == FinishOwnCall ==> OnACall(db, actor))
            && (result == AlreadyMonitoring <==>
                  && actor in db.users && db.users[actor].active && db.users[actor].role == AdminRole
                  && !OnACall(db, actor) && Supervising(db.sessions, actor))
            && (if result == SessionStarted then SessionOpened(db, b, id, actor, call, leg) else b == db)
  {
    UserIsBusy(db, actor);
    hide OwnsActiveCall, HasLiveSession, OnACall, Supervising;
  }
}
