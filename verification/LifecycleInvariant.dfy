/**
 Every step of the dialer keeps the invariant, so every reachable state has it:
 one open call per "calling" lead, one active call per "in_call" agent, nobody
 both calling and supervising, and rows whose end, state and outcome agree.
 */
module LifecycleInvariant {
  import opened Wrappers
  import opened DialerDb
  import opened Finalization
  import opened VoicemailDrop
  import opened ChannelEvents
  import opened CallActions
  import opened UserAccess
  import opened Lifecycle
  import opened LifecycleTransactions
  import opened CallTransactions

  // ---------------------------------------------------------------- steps about no existing call

  /** Tables no clause of the invariant reads. */
  predicate QuietChange(a: Db, b: Db) {
    b == a.(legs := b.legs, events := b.events, campaigns := b.campaigns, suppressed := b.suppressed,
            callStartPaused := b.callStartPaused)
  }

  lemma QuietTask(a: Db, b: Db, task: Task)
    requires QuietChange(a, b)
    ensures TaskOk(a, task) == TaskOk(b, task)
  {
  }

  lemma QuietCall(a: Db, b: Db, call: Call, c: CallId, u: UserId)
    requires QuietChange(a, b)
    ensures RefsOk(a, call) == RefsOk(b, call) && OwnedBy(a, c, u) == OwnedBy(b, c, u)
  {
  }

  lemma QuietUsers(a: Db, b: Db)
    requires UsersOk(a) && QuietChange(a, b)
    ensures UsersOk(b)
  {
    hide Active, LiveFor, OwnedBy;
    forall c, u | c in b.calls && Active(b.calls[c]) && OwnedBy(b, c, u)
      ensures u in b.users && b.users[u].active && forall s :: !LiveFor(b.sessions, s, u)
    {
      QuietCall(a, b, b.calls[c], c, u);
    }
  }

  lemma QuietRows(w: World, b: Db)
    requires CallsOk(w) && TasksOk(w) && QuietChange(w.db, b)
    ensures CallsOk(w.(db := b, now := w.now + 1)) && TasksOk(w.(db := b, now := w.now + 1))
  {
    hide CallRowOk, RefsOk, TaskOk;
    forall c | c in b.calls
      ensures CallRowOk(b.calls[c]) && RefsOk(b, b.calls[c]) && b.calls[c].createdAt < w.now + 1
    {
      QuietCall(w.db, b, b.calls[c], c, 0);
    }
    forall t | t in w.tasks
      ensures TaskOk(b, t)
    {
      assert TaskOk(w.db, t);
      QuietTask(w.db, b, t);
    }
  }

  lemma QuietCounts(w: World, b: Db)
    requires AttemptsOk(w) && AgentsFreed(w) && QuietChange(w.db, b)
    ensures AttemptsOk(w.(db := b, now := w.now + 1)) && AgentsFreed(w.(db := b, now := w.now + 1))
  {
    hide Attempts, Occupies, WillFinish;
  }

  /** Log entries, legs, campaigns, suppressions and the clock matter to no part of the invariant. */
  lemma QuietKeepsInv(w: World, b: Db)
    requires Inv(w) && QuietChange(w.db, b)
    ensures Follows(w, w.(db := b, now := w.now + 1))
  {
    hide CallsOk, LeadsOk, AttemptsOk, AgentsOk, AgentsFreed, TasksOk, UsersOk;
    QuietRows(w, b);
    QuietCounts(w, b);
    QuietUsers(w.db, b);
  }

  // ---------------------------------------------------------------- creating a call

  /** What a successful creation knows about its lead. */
  predicate LeadFree(db: Db, contact: Option<ContactId>, campaign: CampaignId) {
    contact.Some? ==>
      && contact.value in db.contacts
      && db.contacts[contact.value].status != Calling
      && db.contacts[contact.value].campaignId == campaign
  }

  lemma SelectedLeadIsFree(db: Db, lead: LeadChoice, policy: RetryPolicy, now: Time)
    requires SelectLead(db, lead, policy, now).Ok?
    ensures var (contact, campaign) := SelectLead(db, lead, policy, now).value; LeadFree(db, contact, campaign)
  {
  }

  /** The tables after StartCall, apart from legs and log. */
  ghost predicate Started(w: World, b: Db, agent: AgentId, contact: Option<ContactId>, campaign: CampaignId,
                          id: CallId) {
    && agent in w.db.agents && id !in w.db.calls && LeadFree(w.db, contact, campaign)
    && b.calls == w.db.calls[id := NewCall(agent, campaign, contact, w.now)]
    && b.agents == w.db.agents[agent := OccupiedAgent(w.db.agents[agent])]
    && b.contacts == (if contact.Some?
                      then w.db.contacts[contact.value := AttemptedContact(w.db.contacts[contact.value], w.now)]
                      else w.db.contacts)
    && SameUsers(w.db, b)
  }

  lemma StartCallStarts(w: World, agent: AgentId, contact: Option<ContactId>, campaign: CampaignId,
                        id: CallId, agentLeg: LegId, customerLeg: LegId)
    requires agent in w.db.agents && id !in w.db.calls && LeadFree(w.db, contact, campaign)
    ensures Started(w, StartCall(w.db, agent, contact, campaign, id, agentLeg, customerLeg, w.now), agent, contact, campaign, id)
  {
    hide NewCall, OccupiedAgent, AttemptedContact, Log;
  }

  lemma StartKeepsCalls(w: World, b: Db, agent: AgentId, contact: Option<ContactId>, campaign: CampaignId, id: CallId)
    requires CallsOk(w) && Started(w, b, agent, contact, campaign, id)
    ensures CallsOk(w.(db := b, now := w.now + 1))
  {
    forall c | c in b.calls
      ensures CallRowOk(b.calls[c]) && RefsOk(b, b.calls[c]) && b.calls[c].createdAt < w.now + 1
    {
      if c != id {
        assert b.calls[c] == w.db.calls[c];
        StillRefs(w, b, agent, contact, campaign, id, w.db.calls[c]);
      }
    }
  }

  lemma StillRefs(w: World, b: Db, agent: AgentId, contact: Option<ContactId>, campaign: CampaignId, id: CallId,
                  call: Call)
    requires Started(w, b, agent, contact, campaign, id) && RefsOk(w.db, call)
    ensures RefsOk(b, call)
  {
  }

  lemma StartKeepsLeads(w: World, b: Db, agent: AgentId, contact: Option<ContactId>, campaign: CampaignId, id: CallId)
    requires LeadsOk(w.db.calls, w.db.contacts) && Started(w, b, agent, contact, campaign, id)
    ensures LeadsOk(b.calls, b.contacts)
  {
    assert forall c, k :: c != id ==> Holds(b.calls, c, k) == Holds(w.db.calls, c, k);
    assert forall k: ContactId :: Holds(b.calls, id, k) <==> contact == Some(k);
    assert forall k :: !Holds(w.db.calls, id, k);
    hide Holds;
    forall k | k in b.contacts && b.contacts[k].status == Calling
      ensures exists c :: Holds(b.calls, c, k)
    {
      if contact == Some(k) {
        assert Holds(b.calls, id, k);
      } else {
        assert w.db.contacts[k].status == Calling;
        var c :| Holds(w.db.calls, c, k);
        assert Holds(b.calls, c, k);
      }
    }
  }

  lemma StartKeepsAttempts(w: World, b: Db, agent: AgentId, contact: Option<ContactId>, campaign: CampaignId,
                           id: CallId)
    requires AttemptsOk(w) && Started(w, b, agent, contact, campaign, id)
    ensures AttemptsOk(w.(db := b, now := w.now + 1))
  {
    hide LeadFree, OccupiedAgent, SameUsers;
    forall k | k in b.contacts
      ensures b.contacts[k].attempts == |Attempts(b.calls, k, Since(w.lastReset, b.contacts[k].campaignId))|
    {
      AttemptsGrow(w, b, agent, contact, campaign, id, k);
    }
  }

  lemma AttemptsAfter(calls: map<CallId, Call>, id: CallId, call: Call, k: ContactId, since: Time)
    requires id !in calls && since <= call.createdAt
    ensures |Attempts(calls[id := call], k, since)| == |Attempts(calls, k, since)| + if call.contactId == Some(k) then 1 else 0
  {
    var before := Attempts(calls, k, since);
    assert Attempts(calls[id := call], k, since) == if call.contactId == Some(k) then before + {id} else before;
    assert id !in before;
  }

  lemma AttemptsGrow(w: World, b: Db, agent: AgentId, contact: Option<ContactId>, campaign: CampaignId, id: CallId,
                     k: ContactId)
    requires AttemptsOk(w) && Started(w, b, agent, contact, campaign, id) && k in b.contacts
    ensures b.contacts[k].attempts == |Attempts(b.calls, k, Since(w.lastReset, b.contacts[k].campaignId))|
  {
    hide OccupiedAgent, SameUsers, Attempts;
    assert k in w.db.contacts && b.contacts[k].campaignId == w.db.contacts[k].campaignId;
    var since := Since(w.lastReset, b.contacts[k].campaignId);
    assert since <= w.now;
    var before := Attempts(w.db.calls, k, since);
    AttemptsAfter(w.db.calls, id, NewCall(agent, campaign, contact, w.now), k, since);
  }

  lemma StartKeepsAgents(w: World, b: Db, agent: AgentId, contact: Option<ContactId>, campaign: CampaignId, id: CallId)
    requires AgentsOk(w.db.calls, w.db.agents) && AgentsFreed(w)
    requires Started(w, b, agent, contact, campaign, id) && !HasActiveCall(w.db.calls, agent)
    ensures AgentsOk(b.calls, b.agents)
    ensures AgentsFreed(w.(db := b, now := w.now + 1))
  {
    ActiveMeansOccupied(w.db.calls, agent);
    assert forall c, a :: c != id ==> Occupies(b.calls, c, a) == Occupies(w.db.calls, c, a);
    assert forall a :: Occupies(b.calls, id, a) <==> a == agent;
    assert b.agents[agent].status == InCall;
    hide Occupies, OccupiedAgent, LeadFree, HasActiveCall;
    forall a | a in b.agents && b.agents[a].status == InCall && a !in w.lost
      ensures (exists c :: Occupies(b.calls, c, a)) || (exists t :: t in w.tasks && WillFinish(t, a))
    {
      if a == agent {
        assert Occupies(b.calls, id, a);
      } else if exists c :: Occupies(w.db.calls, c, a) {
        var c :| Occupies(w.db.calls, c, a);
        assert c != id ==> Occupies(b.calls, c, a);
        assert c in w.db.calls by { OccupiesIn(w.db.calls, c, a); }
      } else {
        assert w.db.agents[a].status == InCall;
      }
    }
  }

  lemma OccupiesIn(calls: map<CallId, Call>, c: CallId, a: AgentId)
    requires Occupies(calls, c, a)
    ensures c in calls
  {
  }

  lemma StartKeepsTasks(w: World, b: Db, agent: AgentId, contact: Option<ContactId>, campaign: CampaignId, id: CallId)
    requires TasksOk(w) && Started(w, b, agent, contact, campaign, id)
    ensures TasksOk(w.(db := b, now := w.now + 1))
  {
    hide LeadFree, OccupiedAgent, SameUsers;
    forall t | t in w.tasks
      ensures TaskOk(b, t)
    {
      assert TaskOk(w.db, t);
      assert b.calls[t.callId] == w.db.calls[t.callId];
    }
  }

  lemma StartKeepsUsers(w: World, b: Db, actor: UserId, agent: AgentId, contact: Option<ContactId>,
                        campaign: CampaignId, id: CallId)
    requires UsersOk(w.db) && Started(w, b, agent, contact, campaign, id)
    requires w.db.agents[agent].userId == actor && actor in w.db.users && w.db.users[actor].active
    requires !HasLiveSession(w.db.sessions, actor)
    ensures UsersOk(b)
  {
    hide LeadFree, Open;
    assert forall s :: !LiveFor(w.db.sessions, s, actor);
    forall c, u | c in b.calls && Active(b.calls[c]) && OwnedBy(b, c, u)
      ensures u in b.users && b.users[u].active && forall s :: !LiveFor(b.sessions, s, u)
    {
      if c == id {
        assert u == actor;
      } else {
        assert OwnedBy(w.db, c, u);
      }
    }
  }

  lemma StartKeepsInv(w: World, b: Db, actor: UserId, agent: AgentId, contact: Option<ContactId>,
                      campaign: CampaignId, id: CallId)
    requires Inv(w) && Started(w, b, agent, contact, campaign, id)
    requires !HasActiveCall(w.db.calls, agent) && w.db.agents[agent].userId == actor
    requires actor in w.db.users && w.db.users[actor].active && !HasLiveSession(w.db.sessions, actor)
    ensures Follows(w, w.(db := b, now := w.now + 1))
  {
    hide CallsOk, LeadsOk, AttemptsOk, AgentsOk, AgentsFreed, TasksOk, UsersOk;
    StartKeepsCalls(w, b, agent, contact, campaign, id);
    StartKeepsLeads(w, b, agent, contact, campaign, id);
    StartKeepsAttempts(w, b, agent, contact, campaign, id);
    StartKeepsAgents(w, b, agent, contact, campaign, id);
    StartKeepsTasks(w, b, agent, contact, campaign, id);
    StartKeepsUsers(w, b, actor, agent, contact, campaign, id);
  }

  lemma CreateKeepsInv(w: World, actor: UserId, agent: AgentId, lead: LeadChoice, policy: RetryPolicy,
                       id: CallId, agentLeg: LegId, customerLeg: LegId)
    requires Inv(w)
    ensures Follows(w, Start(w, actor, agent, lead, policy, id, agentLeg, customerLeg).(now := w.now + 1))
  {
    hide Inv, SelectLead, StartCall, HasActiveCall, HasLiveSession;
    var (b, result) := CreateDialerCall(w.db, actor, agent, lead, policy, id, agentLeg, customerLeg, w.now);
    if agent in w.db.agents && w.db.agents[agent].userId == actor && result == CallCreated {
      SelectedLeadIsFree(w.db, lead, policy, w.now);
      var (contact, campaign) := SelectLead(w.db, lead, policy, w.now).value;
      StartCallStarts(w, agent, contact, campaign, id, agentLeg, customerLeg);
      StartKeepsInv(w, b, actor, agent, contact, campaign, id);
    } else {
      QuietKeepsInv(w, w.db);
    }
  }

  // ---------------------------------------------------------------- campaign reset

  /** A campaign with no open call has no lead on the phone. */
  lemma IdleCampaignHoldsNoLead(w: World, campaign: CampaignId, k: ContactId)
    requires CallsOk(w) && LeadsOk(w.db.calls, w.db.contacts) && !CampaignBusy(w.db, campaign)
    requires k in w.db.contacts && w.db.contacts[k].campaignId == campaign
    ensures forall c :: !Holds(w.db.calls, c, k)
  {
    hide Open, CallRowOk, LeadsOk;
    forall c
      ensures !Holds(w.db.calls, c, k)
    {
      assert c in w.db.calls ==> RefsOk(w.db, w.db.calls[c]);
    }
  }

  lemma ResetKeepsLeads(w: World, campaign: CampaignId, b: Db)
    requires CallsOk(w) && LeadsOk(w.db.calls, w.db.contacts) && !CampaignBusy(w.db, campaign)
    requires b == ResetCampaign(w.db, campaign)
    ensures LeadsOk(b.calls, b.contacts)
  {
    hide CallsOk, Holds, CampaignBusy;
    forall k | k in w.db.contacts && w.db.contacts[k].campaignId == campaign
      ensures forall c :: !Holds(w.db.calls, c, k)
    {
      IdleCampaignHoldsNoLead(w, campaign, k);
    }
  }

  lemma ResetKeepsAttempts(w: World, campaign: CampaignId, b: Db)
    requires CallsOk(w) && AttemptsOk(w) && campaign in w.db.campaigns && !CampaignBusy(w.db, campaign)
    requires b == ResetCampaign(w.db, campaign)
    ensures AttemptsOk(w.(db := b, lastReset := w.lastReset[campaign := w.now], now := w.now + 1))
  {
    hide CallRowOk, RefsOk, CampaignBusy;
    var resets := w.lastReset[campaign := w.now];
    forall k | k in b.contacts
      ensures b.contacts[k].attempts == |Attempts(b.calls, k, Since(resets, b.contacts[k].campaignId))|
    {
      if b.contacts[k].campaignId == campaign {
        assert Attempts(b.calls, k, w.now) == {};
      }
    }
  }

  lemma ResetKeepsInv(w: World, campaign: CampaignId)
    requires Inv(w)
    ensures Follows(w, ResetLeads(w, campaign).(now := w.now + 1))
  {
    hide LeadsOk, AgentsOk, AttemptsOk, CampaignBusy, CallRowOk, LiveFor, Active;
    var b := ResetCampaign(w.db, campaign);
    if campaign in w.db.campaigns && !CampaignBusy(w.db, campaign) {
      ResetKeepsLeads(w, campaign, b);
      ResetKeepsAttempts(w, campaign, b);
      assert forall c | c in b.calls :: RefsOk(w.db, b.calls[c]) ==> RefsOk(b, b.calls[c]);
      assert forall t | t in w.tasks :: TaskOk(w.db, t) ==> TaskOk(b, t);
      assert forall c, u :: OwnedBy(b, c, u) ==> OwnedBy(w.db, c, u);
    } else {
      QuietKeepsInv(w, w.db);
    }
  }

  // ---------------------------------------------------------------- agents, accounts and supervision

  /** Agent rows may change as long as occupied agents stay "in_call" and no other becomes so. */
  ghost predicate AgentRowsOk(a: Db, b: Db) {
    && b.agents.Keys == a.agents.Keys
    && (forall g | g in a.agents :: b.agents[g].userId == a.agents[g].userId)
    && (forall g | g in a.agents && b.agents[g].status == InCall :: a.agents[g].status == InCall)
    && (forall c, g | Occupies(a.calls, c, g) && g in a.agents :: b.agents[g].status == a.agents[g].status)
    && (forall g | g in b.agents && b.agents[g].registered && b.agents[g].status == Offline :: a.agents[g].registered && a.agents[g].status == Offline)
  }

  lemma AccountRows(w: World, b: Db)
    requires CallsOk(w) && TasksOk(w) && AttemptsOk(w) && AgentRowsOk(w.db, b)
    requires b == w.db.(agents := b.agents, users := b.users, sessions := b.sessions)
    ensures CallsOk(w.(db := b, now := w.now + 1)) && TasksOk(w.(db := b, now := w.now + 1))
    ensures AttemptsOk(w.(db := b, now := w.now + 1))
  {
    hide CallRowOk, Occupies, Attempts;
    forall c | c in b.calls
      ensures CallRowOk(b.calls[c]) && RefsOk(b, b.calls[c]) && b.calls[c].createdAt < w.now + 1
    {
      assert RefsOk(w.db, w.db.calls[c]);
    }
    forall t | t in w.tasks
      ensures TaskOk(b, t)
    {
      assert TaskOk(w.db, t);
    }
  }

  lemma AccountAgents(w: World, b: Db)
    requires AgentsOk(w.db.calls, w.db.agents) && AgentsFreed(w) && AgentRowsOk(w.db, b) && b.calls == w.db.calls
    ensures AgentsOk(b.calls, b.agents) && AgentsFreed(w.(db := b, now := w.now + 1))
  {
    hide Occupies, WillFinish;
  }

  lemma AccountKeepsInv(w: World, b: Db)
    requires Inv(w) && AgentRowsOk(w.db, b) && UsersOk(b)
    requires b == w.db.(agents := b.agents, users := b.users, sessions := b.sessions)
    ensures Follows(w, w.(db := b, now := w.now + 1))
  {
    hide CallsOk, LeadsOk, UsersOk, AttemptsOk, AgentsOk, AgentsFreed, TasksOk, AgentRowsOk;
    AccountRows(w, b);
    AccountAgents(w, b);
    HistoryReflexive(b.calls);
  }

  /** Nobody who owns an active call or supervises is touched by a change of agents and users that keeps ownership. */
  lemma UsersStillOk(a: Db, b: Db)
    requires UsersOk(a) && AgentRowsOk(a, b) && b.calls == a.calls && b.sessions == a.sessions
    requires forall s, u :: LiveFor(a.sessions, s, u) ==> u in b.users && b.users[u].active && b.users[u].role == AdminRole
    requires forall c, u | c in a.calls && Active(a.calls[c]) && OwnedBy(a, c, u) :: u in b.users && b.users[u].active
    ensures UsersOk(b)
  {
    hide Active, LiveFor;
    assert forall c, u :: OwnedBy(b, c, u) ==> OwnedBy(a, c, u);
  }

  lemma RegistrationKeepsInv(w: World, agent: AgentId, registered: bool)
    requires Inv(w)
    ensures Follows(w, w.(db := SetRegistration(w.db, agent, registered), now := w.now + 1))
  {
    hide Open, LeadsOk, CallsOk, AttemptsOk, AgentsFreed, TasksOk, HasOpenCall;
    var b := SetRegistration(w.db, agent, registered);
    assert AgentRowsOk(w.db, b);
    UsersStillOk(w.db, b);
    AccountKeepsInv(w, b);
  }

  lemma AvailabilityKeepsInv(w: World, agent: AgentId, paused: bool)
    requires Inv(w)
    ensures Follows(w, w.(db := SetAvailability(w.db, agent, paused), now := w.now + 1))
  {
    hide Open, LeadsOk, CallsOk, AttemptsOk, AgentsFreed, TasksOk;
    var b := SetAvailability(w.db, agent, paused);
    assert AgentRowsOk(w.db, b);
    UsersStillOk(w.db, b);
    AccountKeepsInv(w, b);
  }

  /** A user without an active call occupies none of its agents, so they may go offline. */
  lemma RetiringKeepsAgents(db: Db, b: Db, user: UserId)
    requires !OwnsActiveCall(db, user) && b.agents == RetireAgents(db.agents, user)
    ensures AgentRowsOk(db, b)
  {
    hide Open;
    forall c, g | Occupies(db.calls, c, g) && g in db.agents
      ensures b.agents[g].status == db.agents[g].status
    {
      assert db.agents[g].userId == user ==> OwnedBy(db, c, user);
    }
  }

  lemma LiveSessionCounts(db: Db, user: UserId)
    ensures HasLiveSession(db.sessions, user) <==> exists s :: LiveFor(db.sessions, s, user)
  {
    assert forall s | s in db.sessions && db.sessions[s].actor == user && IsLive(db.sessions[s].state) :: LiveFor(db.sessions, s, user);
  }

  lemma ChangeUserKeepsInv(w: World, user: UserId, role: Option<Role>, active: Option<bool>)
    requires Inv(w)
    ensures Follows(w, w.(db := UpdateUser(w.db, user, role, active).0, now := w.now + 1))
  {
    hide Active, LiveFor, HasLiveSession, RetireAgents, CallsOk, LeadsOk, AttemptsOk, AgentsOk, AgentsFreed, TasksOk;
    var (b, result) := UpdateUser(w.db, user, role, active);
    LiveSessionCounts(w.db, user);
    if result == AccountChanged {
      if w.db.users[user].active && active == Some(false) {
        RetiringKeepsAgents(w.db, b, user);
      }
      UsersStillOk(w.db, b);
      AccountKeepsInv(w, b);
    } else {
      QuietKeepsInv(w, w.db);
    }
  }

  lemma RemoveUserKeepsInv(w: World, user: UserId)
    requires Inv(w)
    ensures Follows(w, w.(db := DeleteUser(w.db, user).0, now := w.now + 1))
  {
    hide Active, LiveFor, HasLiveSession, RetireAgents, CallsOk, LeadsOk, AttemptsOk, AgentsOk, AgentsFreed, TasksOk;
    var (b, result) := DeleteUser(w.db, user);
    LiveSessionCounts(w.db, user);
    if result == AccountChanged {
      RetiringKeepsAgents(w.db, b, user);
      UsersStillOk(w.db, b);
      AccountKeepsInv(w, b);
    } else {
      QuietKeepsInv(w, w.db);
    }
  }

  /** A session may change in place as long as it does not come to life again or change hands. */
  lemma SessionKeepsInv(w: World, id: SessionId, session: Session)
    requires Inv(w) && id in w.db.sessions
    requires session.actor == w.db.sessions[id].actor && (IsLive(session.state) ==> IsLive(w.db.sessions[id].state))
    ensures Follows(w, w.(db := PutSession(w.db, id, session), now := w.now + 1))
  {
    hide Active, IsLive, CallsOk, LeadsOk, AttemptsOk, AgentsOk, AgentsFreed, TasksOk;
    var b := PutSession(w.db, id, session);
    assert forall s, u :: LiveFor(b.sessions, s, u) ==> LiveFor(w.db.sessions, s, u);
    assert forall c, u :: OwnedBy(b, c, u) ==> OwnedBy(w.db, c, u);
    AccountKeepsInv(w, b);
  }

  lemma SuperviseKeepsInv(w: World, id: SessionId, actor: UserId, call: CallId, leg: ChannelUuid)
    requires Inv(w)
    ensures Follows(w, w.(db := StartSession(w.db, id, actor, call, leg).0, now := w.now + 1))
  {
    hide Active, HasLiveSession, CallsOk, LeadsOk, AttemptsOk, AgentsOk, AgentsFreed, TasksOk;
    var (b, result) := StartSession(w.db, id, actor, call, leg);
    LiveSessionCounts(w.db, actor);
    if result == SessionStarted {
      assert forall s, u :: s != id ==> LiveFor(b.sessions, s, u) == LiveFor(w.db.sessions, s, u);
      assert forall c, u :: OwnedBy(b, c, u) ==> OwnedBy(w.db, c, u);
      AccountKeepsInv(w, b);
    } else {
      QuietKeepsInv(w, w.db);
    }
  }

  /** The seven updates of an existing session. */
  ghost predicate SessionUpdate(a: Db, b: Db) {
    b == a || exists id, session ::
      && id in a.sessions && b == PutSession(a, id, session)
      && session.actor == a.sessions[id].actor && (IsLive(session.state) ==> IsLive(a.sessions[id].state))
  }

  lemma SessionUpdateKeepsInv(w: World, b: Db)
    requires Inv(w) && SessionUpdate(w.db, b)
    ensures Follows(w, w.(db := b, now := w.now + 1))
  {
    hide Inv, PutSession, IsLive;
    if b == w.db {
      QuietKeepsInv(w, b);
    } else {
      var id, session :| && id in w.db.sessions && b == PutSession(w.db, id, session)
                         && session.actor == w.db.sessions[id].actor && (IsLive(session.state) ==> IsLive(w.db.sessions[id].state));
      SessionKeepsInv(w, id, session);
    }
  }

  lemma SessionUpdates(db: Db, id: SessionId, actor: UserId, leg: ChannelUuid, only: Option<ChannelUuid>, job: nat)
    ensures SessionUpdate(db, SwitchMode(db, id, actor, leg))
    ensures SessionUpdate(db, SetSessionJob(db, id, job))
    ensures SessionUpdate(db, SessionAnswered(db, id, leg))
    ensures SessionUpdate(db, SessionHungUp(db, id, leg))
    ensures SessionUpdate(db, SessionJobFailed(db, id, job))
    ensures SessionUpdate(db, StopSession(db, id, actor, leg))
    ensures SessionUpdate(db, FailSession(db, id, only))
  {
    hide PutSession;
  }

  // ---------------------------------------------------------------- transactions about one call, and the tasks

  /** A transaction that frees the agent itself whenever its call stops occupying one. */
  ghost predicate CallTransaction(a: Db, b: Db, id: CallId) {
    && id in a.calls && id in b.calls
    && exists status, freed ::
         && Transaction(a, b, id, status, freed)
         && (Active(a.calls[id]) && !Active(b.calls[id]) ==> freed == a.calls[id].agentId)
  }

  lemma CallTransactionKeepsInv(w: World, b: Db, tasks: multiset<Task>, id: CallId)
    requires Inv(w) && CallTransaction(w.db, b, id)
    requires forall t, g | t in w.tasks && WillFinish(t, g) :: t in tasks
    requires forall t | t in tasks :: t in w.tasks || TaskOk(b, t)
    ensures Follows(w, w.(db := b, tasks := tasks, now := w.now + 1))
  {
    hide Inv, Transaction, Active, WillFinish, TaskOk;
    var status, freed :| && Transaction(w.db, b, id, status, freed)
                         && (Active(w.db.calls[id]) && !Active(b.calls[id]) ==> freed == w.db.calls[id].agentId);
    TransactionKeepsInv(w, b, tasks, id, status, freed);
  }

  lemma TransactionIsCall(a: Db, b: Db, id: CallId)
    requires id in a.calls && Transaction(a, b, id, New, None) && (Active(a.calls[id]) ==> Active(b.calls[id]))
    ensures CallTransaction(a, b, id)
  {
    hide Transaction, Active;
    assert id in b.calls by { TransactionKeepsRow(a, b, id); }
    assert Transaction(a, b, id, New, None);
  }

  lemma TransactionKeepsRow(a: Db, b: Db, id: CallId)
    requires Transaction(a, b, id, New, None)
    ensures id in b.calls
  {
  }

  /** dropVoicemailForCall's claim leaves a task that still knows the agent of the call. */
  lemma ClaimKeepsInv(w: World, id: CallId, user: UserId)
    requires Inv(w)
    ensures Follows(w, Claim(w, id, user).(now := w.now + 1))
  {
    hide Transaction, CallRowOk, RefsOk, LeadsOk, AttemptsOk, AgentsOk, AgentsFreed, TasksOk, UsersOk, WillFinish,
      ClaimDrop, Active;
    var b := ClaimDrop(w.db, id, user, w.now);
    if id in w.db.calls {
      ClaimIs(w.db, id, user, w.now);
      TransactionIsCall(w.db, b, id);
      CallTransactionKeepsInv(w, b, Claim(w, id, user).tasks, id);
    } else {
      MissingCallQuiet(w.db, id, user, w.now);
      QuietKeepsInv(w, b);
    }
  }

  lemma MissingCallQuiet(db: Db, id: CallId, user: UserId, now: Time)
    requires id !in db.calls
    ensures ClaimDrop(db, id, user, now) == db && OriginateQueued(db, id, now) == db
    ensures MarkPlaybackStarted(db, id, now) == db && ReleaseAgent(db, id, now) == db
    ensures FinalizeCompleted(db, id, now) == db
  {
  }

  /** Taking one finished task off keeps every release task. */
  lemma AnswerKeepsReleases(w: World, task: Task, answer: DropAnswer)
    requires task in w.tasks && task.SendDropCommands?
    ensures forall t, g | t in w.tasks && WillFinish(t, g) :: t in Answer(w, task, answer).tasks
    ensures forall t | t in Answer(w, task, answer).tasks :: t in w.tasks || t == ReleaseMark(task.callId, task.agent)
  {
    hide RevertDrop, Log;
  }

  lemma AnswerKeepsInv(w: World, task: Task, answer: DropAnswer)
    requires Inv(w)
    ensures Follows(w, Answer(w, task, answer).(now := w.now + 1))
  {
    hide Transaction, CallRowOk, LeadsOk, AttemptsOk, AgentsOk, AgentsFreed, UsersOk, Active, RevertDrop, Log,
      WillFinish, RefsOk;
    var after := Answer(w, task, answer);
    if task in w.tasks && task.SendDropCommands? {
      assert TaskOk(w.db, task);
      var id := task.callId;
      if answer.TransferRejected? {
        RevertIs(w.db, id, task.claimedState, w.now);
      } else {
        QuietIs(w.db, after.db, id);
      }
      TransactionIsCall(w.db, after.db, id);
      AnswerKeepsReleases(w, task, answer);
      NextTaskOk(w.db, after.db, id, ReleaseMark(id, task.agent));
      hide TaskOk;
      CallTransactionKeepsInv(w, after.db, after.tasks, id);
    } else {
      QuietKeepsInv(w, w.db);
    }
  }

  lemma ReadKeepsInv(w: World, id: CallId, failed: bool, timedOut: bool)
    requires Inv(w)
    ensures Follows(w, Read(w, id, failed, timedOut).(now := w.now + 1))
  {
    hide Transaction, CallRowOk, RefsOk, LeadsOk, AttemptsOk, AgentsOk, AgentsFreed, TasksOk, UsersOk, WillFinish,
      Active, IsVoicemailDropActive;
    var after := Read(w, id, failed, timedOut);
    if DropInProgress(w.db, id) {
      Unchanged(w.db, id);
      TransactionIsCall(w.db, w.db, id);
      CallTransactionKeepsInv(w, w.db, after.tasks, id);
    } else {
      QuietKeepsInv(w, w.db);
    }
  }

  /** A lost task leaves its agent in the recorded set when nobody else will free it. */
  lemma LoseKeepsFreed(w: World, task: Task)
    requires AgentsFreed(w)
    ensures AgentsFreed(Lose(w, task).(now := w.now + 1))
  {
    hide Occupies;
    var after := Lose(w, task).(now := w.now + 1);
    forall a | a in w.db.agents && w.db.agents[a].status == InCall && a !in after.lost
      ensures (exists c :: Occupies(w.db.calls, c, a)) || (exists t :: t in after.tasks && WillFinish(t, a))
    {
      if exists t :: t in w.tasks && WillFinish(t, a) {
        var t :| t in w.tasks && WillFinish(t, a);
        assert t in after.tasks;
      }
    }
  }

  lemma LoseKeepsInv(w: World, task: Task)
    requires Inv(w)
    ensures Follows(w, Lose(w, task).(now := w.now + 1))
  {
    hide CallsOk, AttemptsOk, LeadsOk, AgentsOk, UsersOk, TaskOk, AgentsFreed;
    LoseKeepsFreed(w, task);
    QuietKeepsInv(w, w.db);
    OnlyDbCounts(w.(now := w.now + 1), Lose(w, task).(now := w.now + 1));
    HistoryReflexive(w.db.calls);
  }

  lemma EndTaskKeepsInv(w: World, task: Task)
    requires Inv(w) && task in w.tasks && task.EndDrop?
    ensures Follows(w, Run(w, task).(now := w.now + 1))
  {
    hide Transaction, CallRowOk, RefsOk, LeadsOk, AttemptsOk, AgentsOk, AgentsFreed, UsersOk, Active,
      FinalizeIncomplete;
    assert TaskOk(w.db, task);
    var id := task.callId;
    var after := Run(w, task);
    IncompleteIs(w.db, id, task.failed, task.agentReleased, task.contact, w.now);
    IncompleteFrame(w.db, id, task.failed, task.agentReleased, task.contact, w.now);
    assert CallTransaction(w.db, after.db, id);
    assert forall t, g | t in w.tasks && WillFinish(t, g) :: t in after.tasks;
    CallTransactionKeepsInv(w, after.db, after.tasks, id);
  }

  /** The release in three statements: from the mark on, a task stands for the agent until it is freed. */
  lemma ReleaseTaskKeepsInv(w: World, task: Task)
    requires Inv(w) && task in w.tasks && (task.ReleaseMark? || task.ReleaseLegs?)
    ensures Follows(w, Run(w, task).(now := w.now + 1))
  {
    hide Transaction, CallRowOk, RefsOk, LeadsOk, AttemptsOk, AgentsOk, AgentsFreed, UsersOk, Active, MarkReleased,
      FinishAgent, CloseLegs;
    assert TaskOk(w.db, task);
    var id := task.callId;
    var after := Run(w, task);
    if task.ReleaseMark? {
      MarkReleasedIs(w.db, id, w.now);
      MarkReleasedFrame(w.db, id, w.now);
    } else {
      QuietIs(w.db, after.db, id);
    }
    NextTaskStands(w, task);
    var next := if task.ReleaseMark? then ReleaseLegs(id, task.agent) else ReleaseFinish(id, task.agent);
    assert TaskOk(after.db, next) by { NextTaskOk(w.db, after.db, id, next); }
    TransactionKeepsInv(w, after.db, after.tasks, id, New, None);
  }

  lemma NextTaskStands(w: World, task: Task)
    requires task in w.tasks && (task.ReleaseMark? || task.ReleaseLegs?)
    ensures var next := if task.ReleaseMark? then ReleaseLegs(task.callId, task.agent) else ReleaseFinish(task.callId, task.agent);
            next in Run(w, task).tasks && WillFinish(next, task.agent)
    ensures forall t | t in w.tasks :: t == task || t in Run(w, task).tasks
    ensures forall t | t in Run(w, task).tasks :: t in w.tasks || WillFinish(t, task.agent)
  {
    hide MarkReleased, CloseLegs;
  }

  lemma FinishTaskKeepsInv(w: World, task: Task)
    requires Inv(w) && task in w.tasks && task.ReleaseFinish?
    ensures Follows(w, Run(w, task).(now := w.now + 1))
  {
    hide Transaction, CallRowOk, RefsOk, LeadsOk, AttemptsOk, AgentsOk, AgentsFreed, UsersOk, Active, FinishAgent;
    assert TaskOk(w.db, task);
    var after := Run(w, task);
    Unchanged(w.db, task.callId);
    FreeingIs(w.db, w.db, after.db, task.callId, Some(task.agent));
    FinishTaskFrees(w, task, after);
    TransactionKeepsInv(w, after.db, after.tasks, task.callId, New, Some(task.agent));
  }

  lemma NextTaskOk(a: Db, b: Db, id: CallId, next: Task)
    requires Transaction(a, b, id, New, None) && !next.EndDrop? && !next.SendDropCommands? && next.callId == id
    requires a.calls[id].agentId == Some(next.agent)
    ensures TaskOk(b, next)
  {
    hide CallRowOk, KeepsEnd;
  }

  lemma FinishTaskFrees(w: World, task: Task, after: World)
    requires task in w.tasks && task.ReleaseFinish? && after.tasks == w.tasks - multiset{task}
    requires task.callId in w.db.calls && after.db.calls == w.db.calls
    ensures FreesLater(w.db, after.db, task.callId, Some(task.agent), w.tasks, after.tasks)
  {
    hide Active;
    assert forall t | t in w.tasks :: t == task || t in after.tasks;
  }

  lemma RunKeepsInv(w: World, task: Task)
    requires Inv(w)
    ensures Follows(w, Run(w, task).(now := w.now + 1))
  {
    hide Inv, FinalizeIncomplete, MarkReleased, CloseLegs, FinishAgent;
    if task !in w.tasks || task.SendDropCommands? {
      QuietKeepsInv(w, w.db);
    } else if task.EndDrop? {
      EndTaskKeepsInv(w, task);
    } else if task.ReleaseFinish? {
      FinishTaskKeepsInv(w, task);
    } else {
      ReleaseTaskKeepsInv(w, task);
    }
  }

  // ---------------------------------------------------------------- every step, every run

  /** What a statement about one call does: nothing without the row, a transaction of the known shape with it. */
  ghost predicate CallOrNothing(a: Db, b: Db, id: CallId) {
    if id in a.calls then CallTransaction(a, b, id) else b == a
  }

  lemma CallUpdateKeepsInv(w: World, b: Db, id: CallId)
    requires Inv(w) && CallOrNothing(w.db, b, id)
    ensures Follows(w, w.(db := b, now := w.now + 1))
  {
    hide Inv, CallTransaction;
    if id in w.db.calls {
      CallTransactionKeepsInv(w, b, w.tasks, id);
      assert w.(db := b, tasks := w.tasks, now := w.now + 1) == w.(db := b, now := w.now + 1);
    } else {
      QuietKeepsInv(w, b);
    }
  }

  ghost predicate RowReady(db: Db, id: CallId) {
    LeadsOk(db.calls, db.contacts) && (id in db.calls ==> CallRowOk(db.calls[id]))
  }

  /** The updates that leave the call open. */
  lemma OpenUpdates(db: Db, id: CallId, e: TaggedEvent, detected: bool, now: Time)
    requires RowReady(db, id) && e.callId == id
    ensures CallOrNothing(db, OriginateQueued(db, id, now), id)
    ensures CallOrNothing(db, GenericEvent(db, e, now), id)
    ensures CallOrNothing(db, VoicemailSignal(db, id, detected, now), id)
    ensures CallOrNothing(db, MarkPlaybackStarted(db, id, now), id)
  {
    if id in db.calls {
      hide Transaction, CallRowOk, Active, CallTransaction, OriginateQueued, GenericEvent, VoicemailSignal,
        MarkPlaybackStarted;
      QueueOriginateIs(db, id, now);
      TransactionIsCall(db, OriginateQueued(db, id, now), id);
      GenericIs(db, e, now);
      TransactionIsCall(db, GenericEvent(db, e, now), id);
      SignalIs(db, id, detected, now);
      TransactionIsCall(db, VoicemailSignal(db, id, detected, now), id);
      StartedIs(db, id, now);
      TransactionIsCall(db, MarkPlaybackStarted(db, id, now), id);
    }
  }

  lemma FreesItsAgent(a: Db, b: Db, id: CallId)
    requires id in a.calls
    requires exists status, freed ::
               && Transaction(a, b, id, status, freed)
               && (Active(a.calls[id]) && !Active(b.calls[id]) ==> freed == a.calls[id].agentId)
    ensures CallTransaction(a, b, id)
  {
    hide Active, CallSteps, LeadSteps, FinishAgent;
  }

  lemma ReleaseIsCall(db: Db, id: CallId, now: Time)
    requires RowReady(db, id)
    ensures CallOrNothing(db, ReleaseAgent(db, id, now), id)
  {
    hide Transaction, CallRowOk, Active, LeadsOk, CallTransaction;
    if id in db.calls {
      hide ReleaseAgent;
      ReleaseIs(db, id, now);
      var b := ReleaseAgent(db, id, now);
      FreesItsAgent(db, b, id);
    }
  }

  lemma CompletedIsCall(db: Db, id: CallId, now: Time)
    requires RowReady(db, id)
    ensures CallOrNothing(db, FinalizeCompleted(db, id, now), id)
  {
    hide Transaction, CallRowOk, Active, LeadsOk, CallTransaction;
    if id in db.calls {
      hide FinalizeCompleted;
      CompletedIs(db, id, now);
      var b := FinalizeCompleted(db, id, now);
      FreesItsAgent(db, b, id);
    }
  }

  lemma FinalizeIsCall(db: Db, id: CallId, resolver: Resolver, event: Option<CallEvent>, logWhenFinal: bool, now: Time)
    requires RowReady(db, id)
    ensures CallOrNothing(db, FinalizeCall(db, id, resolver, event, logWhenFinal, now).0, id)
  {
    hide Transaction, CallRowOk, Active, LeadsOk, CallTransaction;
    if id in db.calls {
      hide FinalizeCall;
      FinalizeIs(db, id, resolver, event, logWhenFinal, now);
      var b := FinalizeCall(db, id, resolver, event, logWhenFinal, now).0;
      FreesItsAgent(db, b, id);
    }
  }

  lemma AgentEndIsCall(db: Db, id: CallId, user: UserId, now: Time)
    requires RowReady(db, id)
    ensures CallOrNothing(db, EndDialerCall(db, id, user, now).0, id)
  {
    hide Transaction, CallRowOk, Active, LeadsOk, CallTransaction;
    if id in db.calls {
      hide EndDialerCall;
      var b := EndDialerCall(db, id, user, now).0;
      AgentEndIs(db, id, user, now);
      FreesItsAgent(db, b, id);
    }
  }

  lemma SetStatusIsCall(db: Db, id: CallId, user: UserId, outcome: Outcome, now: Time)
    requires RowReady(db, id)
    ensures CallOrNothing(db, SetManualStatus(db, id, user, outcome, now).0, id)
  {
    hide Transaction, CallRowOk, Active, LeadsOk, CallTransaction, ManualRow, Log;
    if id in db.calls {
      SetStatusIs(db, id, user, outcome, now);
      TransactionIsCall(db, SetManualStatus(db, id, user, outcome, now).0, id);
    }
  }

  lemma CallStepKeepsInv(w: World, step: Step)
    requires Inv(w)
    requires step.QueueOriginate? || step.Generic? || step.Signal? || step.PlaybackStarted? || step.ReleaseForPlayback?
             || step.PlaybackCompleted? || step.Finalize? || step.AgentEnds? || step.SetStatus?
    ensures Follows(w, Tick(w, step))
  {
    hide CallRowOk, RefsOk, LeadsOk, AttemptsOk, AgentsOk, AgentsFreed, TasksOk, UsersOk, CallOrNothing,
      OriginateQueued,
      GenericEvent, VoicemailSignal, MarkPlaybackStarted, ReleaseAgent, FinalizeCompleted, FinalizeCall, EndDialerCall, SetManualStatus;
    var id := if step.Generic? then step.e.callId else step.id;
    var e := if step.Generic? then step.e else TaggedEvent(id, ChannelCreate, AgentLeg, None, None, OtherCause);
    assert RowReady(w.db, id);
    OpenUpdates(w.db, id, e, step.Signal? && step.detected, w.now);
    match step {
      case ReleaseForPlayback(_) => ReleaseIsCall(w.db, id, w.now);
      case PlaybackCompleted(_) => CompletedIsCall(w.db, id, w.now);
      case Finalize(_, resolver, event, logWhenFinal) => FinalizeIsCall(w.db, id, resolver, event, logWhenFinal, w.now);
      case AgentEnds(_, user) => AgentEndIsCall(w.db, id, user, w.now);
      case SetStatus(_, user, outcome) => SetStatusIsCall(w.db, id, user, outcome, w.now);
      case _ =>
    }
    CallUpdateKeepsInv(w, Effect(w, step).db, id);
  }

  predicate IsSessionStep(step: Step) {
    || step.ChangeMode? || step.RecordJob? || step.SupervisorAnswered? || step.SupervisorHungUp?
    || step.SupervisorJobFailed? || step.StopSupervising? || step.SupervisionFailed?
  }

  lemma SessionStepUpdates(w: World, step: Step)
    requires IsSessionStep(step)
    ensures SessionUpdate(w.db, Effect(w, step).db) && Tick(w, step) == w.(db := Effect(w, step).db, now := w.now + 1)
  {
    hide SessionUpdate, SwitchMode, SetSessionJob, SessionAnswered, SessionHungUp, SessionJobFailed,
      StopSession, FailSession;
    var actor := if step.ChangeMode? || step.StopSupervising? then step.actor else 0;
    var leg := if step.ChangeMode? || step.SupervisorAnswered? || step.SupervisorHungUp? || step.StopSupervising? then step.leg else 0;
    var only := if step.SupervisionFailed? then step.only else None;
    var job := if step.RecordJob? || step.SupervisorJobFailed? then step.job else 0;
    SessionUpdates(w.db, step.session, actor, leg, only, job);
  }

  lemma SessionStepKeepsInv(w: World, step: Step)
    requires Inv(w) && IsSessionStep(step)
    ensures Follows(w, Tick(w, step))
  {
    hide Inv, Follows, SessionUpdate, Effect, Tick, IsSessionStep;
    SessionStepUpdates(w, step);
    SessionUpdateKeepsInv(w, Effect(w, step).db);
  }

  lemma SessionStepFrame(w: World, step: Step)
    requires IsSessionStep(step)
    ensures Effect(w, step).db == w.db.(sessions := Effect(w, step).db.sessions)
  {
    hide Effect, IsSessionStep, IsLive;
    SessionStepUpdates(w, step);
  }

  lemma TaskStepKeepsInv(w: World, step: Step)
    requires Inv(w)
    requires step.ClaimVoicemail? || step.AnswerDrop? || step.ReadDrop? || step.RunTask? || step.LoseTask?
    ensures Follows(w, Tick(w, step))
  {
    hide Inv, Follows, Claim, Answer, Read, Run, Lose;
    match step
    case ClaimVoicemail(id, user) => ClaimKeepsInv(w, id, user);
    case AnswerDrop(task, answer) => AnswerKeepsInv(w, task, answer);
    case ReadDrop(id, failed, timedOut) => ReadKeepsInv(w, id, failed, timedOut);
    case RunTask(task) => RunKeepsInv(w, task);
    case LoseTask(task) => LoseKeepsInv(w, task);
  }

  lemma AccountStepKeepsInv(w: World, step: Step)
    requires Inv(w)
    requires step.Create? || step.LogHangup? || step.Reset? || step.Register? || step.Pause?
             || step.ChangeUser? || step.RemoveUser? || step.Supervise?
    ensures Follows(w, Tick(w, step))
  {
    hide Inv, Follows, Start, ResetLeads, SetRegistration, SetAvailability, UpdateUser, DeleteUser, StartSession,
      LogTagged;
    match step
    case Create(actor, agent, lead, policy, id, agentLeg, customerLeg) =>
      CreateKeepsInv(w, actor, agent, lead, policy, id, agentLeg, customerLeg);
    case LogHangup(e) => QuietKeepsInv(w, LogTagged(w.db, e));
    case Reset(campaign) => ResetKeepsInv(w, campaign);
    case Register(agent, registered) => RegistrationKeepsInv(w, agent, registered);
    case Pause(agent, paused) => AvailabilityKeepsInv(w, agent, paused);
    case ChangeUser(user, role, active) => ChangeUserKeepsInv(w, user, role, active);
    case RemoveUser(user) => RemoveUserKeepsInv(w, user);
    case Supervise(session, actor, call, leg) => SuperviseKeepsInv(w, session, actor, call, leg);
  }

  /** A lead nobody has called yet. */
  lemma AddLeadKeepsCalls(w: World, k: ContactId, lead: Contact, b: Db)
    requires CallsOk(w) && TasksOk(w) && k !in w.db.contacts && b == w.db.(contacts := w.db.contacts[k := lead])
    ensures CallsOk(w.(db := b, now := w.now + 1)) && TasksOk(w.(db := b, now := w.now + 1))
  {
    hide CallRowOk;
    forall c | c in b.calls
      ensures CallRowOk(b.calls[c]) && RefsOk(b, b.calls[c]) && b.calls[c].createdAt < w.now + 1
    {
      assert RefsOk(w.db, w.db.calls[c]);
    }
    forall t | t in w.tasks
      ensures TaskOk(b, t)
    {
      assert TaskOk(w.db, t);
    }
  }

  lemma AddLeadKeepsLeads(w: World, k: ContactId, lead: Contact, b: Db)
    requires CallsOk(w) && LeadsOk(w.db.calls, w.db.contacts) && AttemptsOk(w) && k !in w.db.contacts
    requires lead.status != Calling && lead.attempts == 0 && b == w.db.(contacts := w.db.contacts[k := lead])
    ensures LeadsOk(b.calls, b.contacts) && AttemptsOk(w.(db := b, now := w.now + 1))
  {
    hide CallRowOk, Open;
    forall c | c in w.db.calls
      ensures w.db.calls[c].contactId != Some(k)
    {
      assert RefsOk(w.db, w.db.calls[c]);
    }
    assert forall c :: !Holds(w.db.calls, c, k);
    assert forall since :: Attempts(w.db.calls, k, since) == {};
    hide Holds, Attempts;
  }

  lemma AddLeadKeepsInv(w: World, contact: ContactId, campaign: CampaignId, number: PhoneNumber)
    requires Inv(w)
    ensures Follows(w, w.(db := AddContact(w.db, contact, campaign, number), now := w.now + 1))
  {
    hide CallsOk, LeadsOk, AttemptsOk, AgentsOk, AgentsFreed, TasksOk;
    var b := AddContact(w.db, contact, campaign, number);
    if b == w.db {
      QuietKeepsInv(w, b);
    } else {
      var lead := Contact(campaign, number, New, 0, None);
      AddLeadKeepsCalls(w, contact, lead, b);
      AddLeadKeepsLeads(w, contact, lead, b);
      AddLeadKeepsPeople(w, b);
      HistoryReflexive(b.calls);
    }
  }

  lemma AddLeadKeepsPeople(w: World, b: Db)
    requires AgentsFreed(w) && UsersOk(w.db) && b == w.db.(contacts := b.contacts)
    ensures AgentsFreed(w.(db := b, now := w.now + 1)) && UsersOk(b)
  {
    hide Occupies, WillFinish, Active, LiveFor;
    assert forall c, u :: OwnedBy(b, c, u) ==> OwnedBy(w.db, c, u);
  }

  /** A statement without a guard: neither calls nor agents, and legs only when it is about them. */
  lemma StatementFrame(db: Db, statement: Statement)
    ensures Executed(db, statement).calls == db.calls && Executed(db, statement).agents == db.agents
    ensures !statement.AgentLegStarted? && !statement.CustomerLegNamed? ==> Executed(db, statement).legs == db.legs
  {
    hide StartAgentLeg, NameCustomerLeg;
    if statement.AgentLegStarted? {
      LegStatementFrame(db, statement.id, statement.uuid);
    } else if statement.CustomerLegNamed? {
      LegStatementFrame(db, statement.id, statement.uuid);
    }
  }

  lemma LegStatementFrame(db: Db, id: CallId, uuid: ChannelUuid)
    ensures StartAgentLeg(db, id, uuid) == db.(legs := StartAgentLeg(db, id, uuid).legs)
    ensures NameCustomerLeg(db, id, uuid) == db.(legs := NameCustomerLeg(db, id, uuid).legs)
  {
  }

  lemma StatementIsQuiet(db: Db, statement: Statement)
    requires !statement.AddLead?
    ensures QuietChange(db, Executed(db, statement))
  {
  }

  lemma StatementKeepsInv(w: World, statement: Statement)
    requires Inv(w)
    ensures Follows(w, w.(db := Executed(w.db, statement), now := w.now + 1))
  {
    hide Inv, Follows, AddContact;
    if statement.AddLead? {
      AddLeadKeepsInv(w, statement.contact, statement.campaign, statement.number);
    } else {
      StatementIsQuiet(w.db, statement);
      QuietKeepsInv(w, Executed(w.db, statement));
    }
  }

  lemma StatementStepKeepsInv(w: World, step: Step)
    requires Inv(w) && step.Execute?
    ensures Follows(w, Tick(w, step))
  {
    hide Inv, Follows, Executed;
    StatementKeepsInv(w, step.statement);
  }

  /** Forgetting the agents that were freed in the meantime keeps the invariant. */
  lemma SettleKeepsInv(w: World)
    requires Inv(w)
    ensures Inv(Settle(w))
  {
    hide CallsOk, LeadsOk, AttemptsOk, AgentsOk, UsersOk, TaskOk, Occupies, WillFinish;
    OnlyDbCounts(w, Settle(w));
  }

  /** The inductive step, over every transaction of the model. */
  lemma StepKeepsInv(w: World, step: Step)
    requires Inv(w)
    ensures Inv(Apply(w, step)) && HistoryKept(w.db.calls, Apply(w, step).db.calls)
  {
    hide Inv, Tick, HistoryKept;
    if step.Create? || step.LogHangup? || step.Reset? || step.Register? || step.Pause?
       || step.ChangeUser? || step.RemoveUser? || step.Supervise? {
      AccountStepKeepsInv(w, step);
    } else if step.ClaimVoicemail? || step.AnswerDrop? || step.ReadDrop? || step.RunTask? || step.LoseTask? {
      TaskStepKeepsInv(w, step);
    } else if IsSessionStep(step) {
      SessionStepKeepsInv(w, step);
    } else if step.Execute? {
      StatementStepKeepsInv(w, step);
    } else {
      CallStepKeepsInv(w, step);
    }
    SettleKeepsInv(Tick(w, step));
  }

  lemma HistoryComposes(a: map<CallId, Call>, b: map<CallId, Call>, c: map<CallId, Call>)
    requires HistoryKept(a, b) && HistoryKept(b, c)
    ensures HistoryKept(a, c)
  {
    forall k | k in a
      ensures k in c && KeepsEnd(a[k], c[k])
    {
      assert KeepsEnd(a[k], b[k]) && KeepsEnd(b[k], c[k]);
    }
  }

  /** Every run keeps the invariant, and over its whole length no ended call is rewritten but by one manual status. */
  lemma {:induction false} RunKeepsInvariant(w: World, steps: seq<Step>)
    requires Inv(w)
    ensures Inv(RunSteps(w, steps)) && HistoryKept(w.db.calls, RunSteps(w, steps).db.calls)
    decreases |steps|
  {
    hide Inv, Apply, HistoryKept;
    if steps == [] {
      HistoryReflexive(w.db.calls);
    } else {
      StepKeepsInv(w, steps[0]);
      RunKeepsInvariant(Apply(w, steps[0]), steps[1..]);
      HistoryComposes(w.db.calls, Apply(w, steps[0]).db.calls, RunSteps(w, steps).db.calls);
    }
  }

  lemma HistoryReflexive(calls: map<CallId, Call>)
    ensures HistoryKept(calls, calls)
  {
  }
}
