/**
 The agent's and the administrator's transactions on calls, leads and agents:
 dashboard/calls.ts createDialerCall and endDialerCall, dashboard/manual-call-status.ts,
 dashboard/campaigns.ts resetCampaignLeads, and the small updates around them.
 */
module CallActions {
  import opened Wrappers
  import opened DialerDb
  import opened Terms

  datatype RetryPolicy = RetryPolicy(maxAttempts: nat, retryDelay: nat)

  /** What the caller of createDialerCall asks to dial. */
  datatype LeadChoice =
    | NextLead(campaign: CampaignId, picked: Option<ContactId>)  // the row the ordered, lock-skipping query returned
    | ChosenLead(contact: ContactId, confirmCompleted: bool, confirmRetryWait: bool)
    | ManualNumber(campaign: CampaignId)

  datatype CreateResult =
    | CallCreated
    | MaintenancePause
    | SessionRevoked
    | SupervisorSession
    | AgentNotRegistered
    | AgentPaused
    | ActiveCallExists
    | NoCallableContacts
    | LeadNotCallable
    | KeyConflict

  predicate IsLive(state: SessionState) {
    state == Connecting || state == Live
  }

  predicate HasLiveSession(sessions: map<SessionId, Session>, user: UserId) {
    exists s | s in sessions :: sessions[s].actor == user && IsLive(sessions[s].state)
  }

  predicate RetryDue(contact: Contact, policy: RetryPolicy, now: Time) {
    contact.lastAttemptedAt.None? || contact.lastAttemptedAt.value + policy.retryDelay <= now
  }

  predicate Dialable(db: Db, contact: ContactId) {
    && contact in db.contacts
    && db.contacts[contact].campaignId in db.campaigns && db.campaigns[db.contacts[contact].campaignId]
    && db.contacts[contact].number !in db.suppressed
    && db.contacts[contact].status != Calling && db.contacts[contact].status != Blocked
  }

  /** getNextCallableContactForUpdate may return any such row: rows locked elsewhere are skipped. */
  predicate NextCallable(db: Db, campaign: CampaignId, policy: RetryPolicy, contact: ContactId, now: Time) {
    Dialable(db, contact)
    && db.contacts[contact].campaignId == campaign
    && db.contacts[contact].status != Done
    && db.contacts[contact].attempts < policy.maxAttempts
    && RetryDue(db.contacts[contact], policy, now)
  }

  /** getCallableContactForUpdate */
  predicate ChosenCallable(db: Db, contact: ContactId, policy: RetryPolicy, confirmCompleted: bool,
                           confirmRetryWait: bool, now: Time) {
    Dialable(db, contact)
    && (if db.contacts[contact].status == Done then confirmCompleted
        else db.contacts[contact].attempts < policy.maxAttempts
             && (confirmRetryWait || RetryDue(db.contacts[contact], policy, now)))
  }

  /** The lead the transaction locks: the refusal, or the contact and campaign of the new call. */
  function SelectLead(db: Db, lead: LeadChoice, policy: RetryPolicy, now: Time)
    : (r: Result<(Option<ContactId>, CampaignId), CreateResult>)
    ensures r.Err? ==> r.error == NoCallableContacts || r.error == LeadNotCallable
  {
    match lead
    case NextLead(campaign, picked) =>
      if picked.Some? && NextCallable(db, campaign, policy, picked.value, now)
      then Ok((picked, campaign)) else Err(NoCallableContacts)
    case ChosenLead(contact, confirmCompleted, confirmRetryWait) =>
      if ChosenCallable(db, contact, policy, confirmCompleted, confirmRetryWait, now)
      then Ok((Some(contact), db.contacts[contact].campaignId)) else Err(LeadNotCallable)
    case ManualNumber(campaign) => Ok((None, campaign))
  }

  function NewCall(agent: AgentId, campaign: CampaignId, contact: Option<ContactId>, now: Time): Call {
    Call(Some(agent), Some(campaign), contact, CustomerDialing, None, now, None, None, now, None, None, false, None)
  }

  function NewLeg(id: CallId, kind: LegKind): Leg {
    Leg(id, kind, None, LegCreated, None, None)
  }

  function OccupiedAgent(agent: Agent): Agent {
    agent.(status := InCall, availability := if agent.availability == WrapUp then Available else agent.availability)
  }

  function AttemptedContact(contact: Contact, now: Time): Contact {
    contact.(status := Calling, attempts := contact.attempts + 1, lastAttemptedAt := Some(now))
  }

  /** Why createDialerCall refuses before it selects a lead; None when it goes on. */
  function CreateRefusal(db: Db, actor: UserId, agent: AgentId): Option<CreateResult> {
    if db.callStartPaused then Some(MaintenancePause)
    else if actor !in db.users || !db.users[actor].active then Some(SessionRevoked)
    else if HasLiveSession(db.sessions, actor) then Some(SupervisorSession)
    else if agent !in db.agents || !db.agents[agent].registered then Some(AgentNotRegistered)
    else if db.agents[agent].availability == Paused then Some(AgentPaused)
    else if HasActiveCall(db.calls, agent) then Some(ActiveCallExists)
    else None
  }

  /** The inserts and updates of a call that may start. */
  function StartCall(db: Db, agent: AgentId, contact: Option<ContactId>, campaign: CampaignId,
                     id: CallId, agentLeg: LegId, customerLeg: LegId, now: Time): Db
    requires agent in db.agents
  {
    var inserted := db.(calls := db.calls[id := NewCall(agent, campaign, contact, now)],
                        legs := db.legs[agentLeg := NewLeg(id, AgentLeg)][customerLeg := NewLeg(id, CustomerLeg)],
                        agents := db.agents[agent := OccupiedAgent(db.agents[agent])]);
    var logged := Log(inserted, CallEvent(id, CallStarted, None));
    if contact.Some? && contact.value in db.contacts
    then logged.(contacts := db.contacts[contact.value := AttemptedContact(db.contacts[contact.value], now)])
    else logged
  }

  /** createDialerCall's transaction. Identifiers are drawn by the database; a repeated one violates its key. */
  function CreateDialerCall(db: Db, actor: UserId, agent: AgentId, lead: LeadChoice, policy: RetryPolicy,
                            id: CallId, agentLeg: LegId, customerLeg: LegId, now: Time): (Db, CreateResult) {
    var refusal := CreateRefusal(db, actor, agent);
    if refusal.Some? then (db, refusal.value)
    else match SelectLead(db, lead, policy, now)
      case Err(reason) => (db, reason)
      case Ok((contact, campaign)) =>
        if id in db.calls || agentLeg in db.legs || customerLeg in db.legs || agentLeg == customerLeg
        then (db, KeyConflict)
        else (StartCall(db, agent, contact, campaign, id, agentLeg, customerLeg, now), CallCreated)
  }

  /** The update after the originate was queued; it carries no ended_at guard, only the trigger's. */
  function OriginateQueued(db: Db, id: CallId, now: Time): Db {
    if id in db.calls && !IsTerminal(db.calls[id].state)
    then UpdateCall(db, id, db.calls[id].(state := AgentRinging, updatedAt := now))
    else db
  }

  /** The two leg updates after the originate was queued carry no guard at all: an ended agent leg is started again. */
  function StartAgentLeg(db: Db, id: CallId, uuid: ChannelUuid): Db {
    db.(legs := map l | l in db.legs ::
          if db.legs[l].callId == id && db.legs[l].kind == AgentLeg
          then db.legs[l].(uuid := Some(uuid), state := LegStarted) else db.legs[l])
  }

  function NameCustomerLeg(db: Db, id: CallId, uuid: ChannelUuid): Db {
    db.(legs := map l | l in db.legs ::
          if db.legs[l].callId == id && db.legs[l].kind == CustomerLeg
          then db.legs[l].(uuid := Some(uuid)) else db.legs[l])
  }

  /** One row of an import, or a lead added by hand: do nothing when the campaign has the number. */
  function AddContact(db: Db, contact: ContactId, campaign: CampaignId, number: PhoneNumber): Db {
    if contact in db.contacts
       || exists k | k in db.contacts :: db.contacts[k].campaignId == campaign && db.contacts[k].number == number
    then db
    else db.(contacts := db.contacts[contact := Contact(campaign, number, New, 0, None)])
  }

  function SetSuppressed(db: Db, number: PhoneNumber, listed: bool): Db {
    db.(suppressed := if listed then db.suppressed + {number} else db.suppressed - {number})
  }

  function InferAgentEndOutcome(state: CallState): Outcome {
    if state == Bridged || state == VoicemailSignalDetected then Answered else AgentCanceled
  }

  predicate OwnedBy(db: Db, id: CallId, user: UserId) {
    id in db.calls && db.calls[id].agentId.Some? && db.calls[id].agentId.value in db.agents
    && db.agents[db.calls[id].agentId.value].userId == user
  }

  function AgentEndedRow(call: Call, now: Time): Call {
    call.(state := Completed, outcome := Some(InferAgentEndOutcome(call.state)), endedAt := Some(now), updatedAt := now)
  }

  /** endDialerCall's transaction; false when the call is not the user's to end. */
  function EndDialerCall(db: Db, id: CallId, user: UserId, now: Time): (Db, bool) {
    if !OwnedBy(db, id, user) || !Active(db.calls[id]) then (db, false)
    else
      var call := db.calls[id];
      var updated := PutCall(db, id, AgentEndedRow(call, now)).value;
      var closed := CloseLegs(Log(updated, CallEvent(id, CallEndedEvent, None)), id, None, now);
      var status := if InferAgentEndOutcome(call.state) == AgentCanceled then New else Done;
      (FinishAgent(ReturnLead(closed, call.contactId, status), call.agentId), true)
  }

  function TerminalStateFor(outcome: Outcome): CallState {
    if outcome == CallFailed then Failed
    else if outcome == AgentCanceled || outcome == Suppressed then Canceled
    else Completed
  }

  datatype ManualResult = ManualMissing | ManualActive | ManualLocked | ManualAlreadySet | ManualUpdated

  function ManualRow(call: Call, outcome: Outcome, now: Time): Call {
    call.(state := TerminalStateFor(outcome), outcome := Some(outcome), lockedAt := Some(now), updatedAt := now)
  }

  /** setManualCallStatus */
  function SetManualStatus(db: Db, id: CallId, user: UserId, outcome: Outcome, now: Time): (Db, ManualResult) {
    if !OwnedBy(db, id, user) then (db, ManualMissing)
    else
      var call := db.calls[id];
      if call.lockedAt.Some? then
        if call.outcome == Some(outcome) && IsTerminal(call.state) && call.state == TerminalStateFor(outcome)
        then (db, ManualAlreadySet) else (db, ManualLocked)
      else if call.endedAt.None? || !IsTerminal(call.state) then (db, ManualActive)
      else
        (Log(PutCall(db, id, ManualRow(call, outcome, now)).value, CallEvent(id, ManualStatusEvent, None)), ManualUpdated)
  }

  function ResetContact(contact: Contact): Contact {
    contact.(status := New, attempts := 0, lastAttemptedAt := None)
  }

  predicate CampaignBusy(db: Db, campaign: CampaignId) {
    exists c | c in db.calls :: db.calls[c].campaignId == Some(campaign) && Open(db.calls[c])
  }

  /** resetCampaignLeads; the where clause only skips rows the update would leave as they are. */
  function ResetCampaign(db: Db, campaign: CampaignId): Db {
    if campaign !in db.campaigns || CampaignBusy(db, campaign) then db
    else db.(contacts := map k | k in db.contacts ::
                           if db.contacts[k].campaignId == campaign then ResetContact(db.contacts[k]) else db.contacts[k])
  }

  /** persistVoicemailDetectionEvent's update of the call row. */
  function VoicemailSignal(db: Db, id: CallId, detected: bool, now: Time): Db {
    if id in db.calls && Open(db.calls[id])
    then db.(calls := db.calls[id := db.calls[id].(voicemailDetected := db.calls[id].voicemailDetected || detected,
                                                   updatedAt := now)])
    else db
  }

  predicate HasOpenCall(calls: map<CallId, Call>, agent: AgentId) {
    exists c | c in calls :: Open(calls[c]) && calls[c].agentId == Some(agent)
  }

  /** persistAgentRegistrationEvent, and the same update run by registration reconciliation. */
  function SetRegistration(db: Db, agent: AgentId, registered: bool): Db {
    if agent !in db.agents then db
    else
      var row := db.agents[agent];
      var status :=
        if registered && row.status == Offline then Ready
        else if !registered && (row.status == Ready || row.status == Registered) && !HasOpenCall(db.calls, agent) then Offline
        else row.status;
      db.(agents := db.agents[agent := row.(registered := registered, status := status)])
  }

  /** setAgentAvailability */
  function SetAvailability(db: Db, agent: AgentId, paused: bool): Db {
    if agent !in db.agents then db
    else db.(agents := db.agents[agent := db.agents[agent].(availability := if paused then Paused else Available)])
  }

  // ---------------------------------------------------------------- who may call, and whom

  /**
   Which leads may be dialed: not suppressed, in a running campaign, not on the phone
   already, and due, unless the caller confirmed to dial a finished or a waiting one.
   */
  ghost predicate LeadMayBeDialed(db: Db, contact: ContactId, policy: RetryPolicy, now: Time,
                                  confirmCompleted: bool, confirmRetryWait: bool) {
    && contact in db.contacts
    && var lead := db.contacts[contact];
       && lead.campaignId in db.campaigns && db.campaigns[lead.campaignId]
       && lead.number !in db.suppressed && lead.status != Calling && lead.status != Blocked
       && (if lead.status == Done then confirmCompleted
           else lead.attempts < policy.maxAttempts
                && (|| confirmRetryWait || lead.lastAttemptedAt.None?
                    || lead.lastAttemptedAt.value + policy.retryDelay <= now))
  }

  /** Every rule a call start obeys: who may call, through which agent, and which lead. */
  ghost predicate MayDial(db: Db, actor: UserId, agent: AgentId, policy: RetryPolicy, now: Time,
                          contact: Option<ContactId>,
                          confirmCompleted: bool, confirmRetryWait: bool) {
    && !db.callStartPaused
    && actor in db.users && db.users[actor].active && !Supervising(db.sessions, actor)
    && agent in db.agents && db.agents[agent].registered && db.agents[agent].availability != Paused
    && !OnPhone(db.calls, agent)
    && (contact.Some? ==>
          LeadMayBeDialed(db, contact.value, policy, now, confirmCompleted, confirmRetryWait))
  }

  /** The lead a choice stands for, and what the caller confirmed. */
  function LeadOf(lead: LeadChoice): Option<ContactId> {
    match lead
    case NextLead(_, picked) => picked
    case ChosenLead(contact, _, _) => Some(contact)
    case ManualNumber(_) => None
  }

  /** A lead that an automatic choice or a user's choice may take. */
  ghost predicate LeadFits(db: Db, lead: LeadChoice, policy: RetryPolicy, now: Time) {
    match lead
    case NextLead(campaign, picked) =>
      && picked.Some? && LeadMayBeDialed(db, picked.value, policy, now, false, false)
      && db.contacts[picked.value].campaignId == campaign
    case ChosenLead(contact, completed, wait) => LeadMayBeDialed(db, contact, policy, now, completed, wait)
    case ManualNumber(_) => true
  }

  /** A lead is refused exactly when it may not be dialed; what is accepted is the lead asked for, with its campaign. */
  lemma LeadAcceptedIff(db: Db, lead: LeadChoice, policy: RetryPolicy, now: Time)
    ensures SelectLead(db, lead, policy, now).Ok? <==> LeadFits(db, lead, policy, now)
    ensures SelectLead(db, lead, policy, now).Ok? ==>
              && SelectLead(db, lead, policy, now).value.0 == LeadOf(lead)
              && SelectLead(db, lead, policy, now).value.1
              == if lead.ManualNumber? then lead.campaign else db.contacts[LeadOf(lead).value].campaignId
    ensures SelectLead(db, lead, policy, now).Err? ==>
              SelectLead(db, lead, policy, now).error == if lead.NextLead? then NoCallableContacts else LeadNotCallable
  {
  }

  /** A user supervises exactly while the query for live sessions finds one. */
  lemma SupervisingIsLive(sessions: map<SessionId, Session>, user: UserId)
    ensures HasLiveSession(sessions, user) == Supervising(sessions, user)
  {
    assert forall s | s in sessions :: IsLive(sessions[s].state) <==> sessions[s].state in {Connecting, Live};
    hide IsLive;
  }

  /** What createDialerCall answers: the first rule that is broken, in the order they are checked. */
  lemma FirstBrokenRuleIsNamed(db: Db, actor: UserId, agent: AgentId, lead: LeadChoice, policy: RetryPolicy,
                               id: CallId, agentLeg: LegId, customerLeg: LegId, now: Time)
    ensures CreateDialerCall(db, actor, agent, lead, policy, id, agentLeg, customerLeg, now).1
         == if db.callStartPaused then MaintenancePause
            else if !(actor in db.users && db.users[actor].active) then SessionRevoked
            else if Supervising(db.sessions, actor) then SupervisorSession
            else if !(agent in db.agents && db.agents[agent].registered) then AgentNotRegistered
            else if db.agents[agent].availability == Paused then AgentPaused
            else if OnPhone(db.calls, agent) then ActiveCallExists
            else if !LeadFits(db, lead, policy, now) then if lead.NextLead? then NoCallableContacts else LeadNotCallable
            else if id in db.calls || agentLeg in db.legs || customerLeg in db.legs || agentLeg == customerLeg then KeyConflict
            else CallCreated
  {
    SupervisingIsLive(db.sessions, actor);
    OnPhoneIsActive(db.calls, agent);
    LeadAcceptedIff(db, lead, policy, now);
    hide HasActiveCall, HasLiveSession, OnPhone, Supervising, StartCall, SelectLead, LeadMayBeDialed;
  }

  /**
   A call starts exactly when every rule holds and its identifiers are new; an
   automatic choice confirms nothing and stays in its campaign.
  */
  lemma CallStartsIffAllowed(db: Db, actor: UserId, agent: AgentId, lead: LeadChoice, policy: RetryPolicy,
                             id: CallId, agentLeg: LegId, customerLeg: LegId, now: Time)
    ensures CreateDialerCall(db, actor, agent, lead, policy, id, agentLeg, customerLeg, now).1 == CallCreated
            <==>
            && MayDial(db, actor, agent, policy, now, LeadOf(lead), lead.ChosenLead? && lead.confirmCompleted,
                       lead.ChosenLead? && lead.confirmRetryWait)
            && (lead.NextLead? ==> lead.picked.Some? && db.contacts[lead.picked.value].campaignId == lead.campaign)
            && id !in db.calls && agentLeg !in db.legs && customerLeg !in db.legs && agentLeg != customerLeg
  {
    FirstBrokenRuleIsNamed(db, actor, agent, lead, policy, id, agentLeg, customerLeg, now);
    hide OnPhone, Supervising, CreateDialerCall, LeadMayBeDialed;
  }
}
