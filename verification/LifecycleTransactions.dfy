/**
 The shape every transaction about one existing call has: at most that row
 changes, its lead is returned exactly when the call stops being open, and one
 agent may be freed. Any step of that shape keeps the whole invariant.
 */
module LifecycleTransactions {
  import opened Wrappers
  import opened DialerDb
  import opened CallActions
  import opened UserAccess
  import opened Lifecycle

  /** Once ended, a call changes again only by a manual status that locks it; a locked call not at all. */
  predicate KeepsEnd(before: Call, after: Call) {
    && (before.endedAt.Some? ==>
          && after.endedAt == before.endedAt
          && (|| (after.state == before.state && after.outcome == before.outcome && after.lockedAt == before.lockedAt)
              || (before.lockedAt.None? && after.lockedAt.Some?)))
  }

  ghost predicate HistoryKept(a: map<CallId, Call>, b: map<CallId, Call>) {
    forall c | c in a :: c in b && KeepsEnd(a[c], b[c])
  }

  /** What every step achieves: the invariant again, and no ended call rewritten. */
  ghost predicate Follows(before: World, after: World) {
    Inv(after) && HistoryKept(before.db.calls, after.db.calls)
  }

  predicate RowSteps(before: Call, after: Call) {
    && after.agentId == before.agentId && after.campaignId == before.campaignId
    && after.contactId == before.contactId && after.createdAt == before.createdAt
    && CallRowOk(after)
    && KeepsEnd(before, after)
    && (Open(after) ==> Open(before))
    && (Active(after) ==> Active(before))
    && (before.state == AgentReleased ==> after.state == AgentReleased || after.endedAt.Some?)
  }

  /** Only the row of this call may change, and only as RowSteps allows. */
  ghost predicate CallSteps(a: map<CallId, Call>, b: map<CallId, Call>, id: CallId) {
    && id in a
    && b.Keys == a.Keys
    && (forall c | c in a && c != id :: b[c] == a[c])
    && RowSteps(a[id], b[id])
  }

  /** A call that stops being open returns its lead under this status; any other transaction leaves leads alone. */
  ghost predicate LeadSteps(a: Db, b: Db, id: CallId, status: ContactStatus)
    requires id in a.calls && id in b.calls
  {
    b.contacts ==
      if Open(a.calls[id]) && !Open(b.calls[id]) then ReturnLead(a, a.calls[id].contactId, status).contacts else a.contacts
  }

  ghost predicate SameUsers(a: Db, b: Db) {
    b.users == a.users && b.sessions == a.sessions
  }

  ghost predicate Transaction(a: Db, b: Db, id: CallId, status: ContactStatus, freed: Option<AgentId>) {
    && id in a.calls && id in b.calls
    && CallSteps(a.calls, b.calls, id)
    && status != Calling
    && LeadSteps(a, b, id, status)
    && b.agents == FinishAgent(a.(calls := b.calls), freed).agents
    && SameUsers(a, b)
  }

  // ---------------------------------------------------------------- one family of the invariant at a time

  lemma KeepsCalls(w: World, b: Db, id: CallId, status: ContactStatus, freed: Option<AgentId>)
    requires CallsOk(w) && Transaction(w.db, b, id, status, freed)
    ensures CallsOk(w.(db := b, now := w.now + 1))
  {
    hide CallRowOk, KeepsEnd;
    forall c | c in b.calls
      ensures CallRowOk(b.calls[c]) && RefsOk(b, b.calls[c]) && b.calls[c].createdAt < w.now + 1
    {
      assert CallRowOk(w.db.calls[c]) && RefsOk(w.db, w.db.calls[c]) && w.db.calls[c].createdAt < w.now;
    }
  }

  lemma HoldsBefore(a: map<CallId, Call>, b: map<CallId, Call>, id: CallId)
    requires CallSteps(a, b, id)
    ensures forall c, k :: Holds(b, c, k) ==> Holds(a, c, k)
    ensures forall c, k :: c != id ==> Holds(b, c, k) == Holds(a, c, k)
    ensures Open(b[id]) == Open(a[id]) ==> forall k :: Holds(b, id, k) == Holds(a, id, k)
  {
    hide CallRowOk, KeepsEnd;
  }

  lemma KeepsLeads(a: Db, b: Db, id: CallId, status: ContactStatus, freed: Option<AgentId>)
    requires LeadsOk(a.calls, a.contacts) && Transaction(a, b, id, status, freed)
    ensures LeadsOk(b.calls, b.contacts)
  {
    HoldsBefore(a.calls, b.calls, id);
    hide CallSteps, FinishAgent;
    if Open(a.calls[id]) && !Open(b.calls[id]) {
      EndingReturnsLead(a, b, id, status);
    } else {
      UnchangedLeads(a.calls, b.calls, a.contacts, id);
    }
  }

  lemma UnchangedLeads(a: map<CallId, Call>, b: map<CallId, Call>, contacts: map<ContactId, Contact>, id: CallId)
    requires LeadsOk(a, contacts)
    requires forall c, k :: Holds(b, c, k) == Holds(a, c, k)
    ensures LeadsOk(b, contacts)
  {
    hide Holds;
    forall k | k in contacts && contacts[k].status == Calling
      ensures exists c :: Holds(b, c, k)
    {
      var c :| Holds(a, c, k);
      assert Holds(b, c, k);
    }
  }

  lemma EndingReturnsLead(a: Db, b: Db, id: CallId, status: ContactStatus)
    requires LeadsOk(a.calls, a.contacts) && status != Calling
    requires id in a.calls && id in b.calls && Open(a.calls[id]) && !Open(b.calls[id])
    requires b.contacts == ReturnLead(a, a.calls[id].contactId, status).contacts
    requires forall c, k :: Holds(b.calls, c, k) ==> Holds(a.calls, c, k)
    requires forall c, k :: c != id ==> Holds(b.calls, c, k) == Holds(a.calls, c, k)
    ensures LeadsOk(b.calls, b.contacts)
  {
    forall k | k in b.contacts && b.contacts[k].status == Calling
      ensures exists c :: Holds(b.calls, c, k)
    {
      assert a.contacts[k].status == Calling && a.calls[id].contactId != Some(k);
      var c :| Holds(a.calls, c, k);
      assert c != id;
      assert Holds(b.calls, c, k);
    }
    forall c, k | k in b.contacts && Holds(b.calls, c, k)
      ensures b.contacts[k].status == Calling
    {
      assert Holds(a.calls, c, k);
      assert !Holds(b.calls, id, k);
      assert Holds(a.calls, id, k) ==> c == id;
    }
  }

  lemma KeepsAttempts(w: World, b: Db, id: CallId, status: ContactStatus, freed: Option<AgentId>)
    requires AttemptsOk(w) && Transaction(w.db, b, id, status, freed)
    ensures AttemptsOk(w.(db := b, now := w.now + 1))
  {
    hide CallRowOk, KeepsEnd, FinishAgent;
    forall k | k in b.contacts
      ensures b.contacts[k].attempts == |Attempts(b.calls, k, Since(w.lastReset, b.contacts[k].campaignId))|
    {
      assert b.contacts[k].attempts == w.db.contacts[k].attempts;
      assert b.contacts[k].campaignId == w.db.contacts[k].campaignId;
      var since := Since(w.lastReset, w.db.contacts[k].campaignId);
      assert forall c | c in b.calls :: b.calls[c].contactId == w.db.calls[c].contactId
                                        && b.calls[c].createdAt == w.db.calls[c].createdAt;
      assert Attempts(b.calls, k, since) == Attempts(w.db.calls, k, since);
    }
  }

  lemma OccupiesBefore(a: map<CallId, Call>, b: map<CallId, Call>, id: CallId)
    requires CallSteps(a, b, id)
    ensures forall c, g :: Occupies(b, c, g) ==> Occupies(a, c, g)
    ensures forall c, g :: c != id ==> Occupies(b, c, g) == Occupies(a, c, g)
    ensures Active(b[id]) == Active(a[id]) ==> forall g :: Occupies(b, id, g) == Occupies(a, id, g)
  {
    hide CallRowOk, KeepsEnd, Open;
  }

  lemma ActiveMeansOccupied(calls: map<CallId, Call>, g: AgentId)
    ensures HasActiveCall(calls, g) <==> exists c :: Occupies(calls, c, g)
  {
    hide Active;
    assert forall c | c in calls && Active(calls[c]) && calls[c].agentId == Some(g) :: Occupies(calls, c, g);
  }

  lemma FreeingKeepsOccupied(db: Db, freed: Option<AgentId>, g: AgentId)
    requires g in db.agents
    ensures FinishAgent(db, freed).agents[g] == db.agents[g]
            || (freed == Some(g) && FinishAgent(db, freed).agents[g] == FreedAgent(db.agents[g]) && forall c :: !Occupies(db.calls, c, g))
    ensures FinishAgent(db, freed).agents[g].userId == db.agents[g].userId
    ensures FinishAgent(db, freed).agents[g] != db.agents[g] && FinishAgent(db, freed).agents[g].registered ==>
              FinishAgent(db, freed).agents[g].status == Ready
    ensures freed == Some(g) && (forall c :: !Occupies(db.calls, c, g)) ==> FinishAgent(db, freed).agents[g].status != InCall
  {
    ActiveMeansOccupied(db.calls, g);
    hide HasActiveCall, Occupies;
  }

  lemma KeepsAgents(a: Db, b: Db, id: CallId, status: ContactStatus, freed: Option<AgentId>)
    requires AgentsOk(a.calls, a.agents) && Transaction(a, b, id, status, freed)
    ensures AgentsOk(b.calls, b.agents)
  {
    OccupiesBefore(a.calls, b.calls, id);
    hide CallSteps, LeadSteps, FinishAgent, FreedAgent, Occupies;
    forall c, g | Occupies(b.calls, c, g)
      ensures g in b.agents && b.agents[g].status == InCall
    {
      assert Occupies(a.calls, c, g);
      FreeingKeepsOccupied(a.(calls := b.calls), freed, g);
    }
    forall g | g in b.agents && b.agents[g].registered
      ensures b.agents[g].status != Offline
    {
      FreeingKeepsOccupied(a.(calls := b.calls), freed, g);
    }
  }

  /** Whoever stops occupying an agent frees it now or leaves a task that will. */
  ghost predicate FreesLater(a: Db, b: Db, id: CallId, freed: Option<AgentId>, before: multiset<Task>,
                             after: multiset<Task>)
    requires id in a.calls && id in b.calls
  {
    && (Active(a.calls[id]) && !Active(b.calls[id]) && a.calls[id].agentId.Some? ==>
          freed == a.calls[id].agentId || exists t :: t in after && WillFinish(t, a.calls[id].agentId.value))
    && (forall t: Task, g: AgentId | t in before && WillFinish(t, g) :: freed == Some(g) || exists u :: u in after && WillFinish(u, g))
  }

  lemma KeepsFreed(w: World, b: Db, tasks: multiset<Task>, id: CallId, status: ContactStatus, freed: Option<AgentId>)
    requires AgentsFreed(w) && Transaction(w.db, b, id, status, freed)
    requires FreesLater(w.db, b, id, freed, w.tasks, tasks)
    ensures AgentsFreed(w.(db := b, tasks := tasks, now := w.now + 1))
  {
    OccupiesBefore(w.db.calls, b.calls, id);
    hide CallSteps, LeadSteps, FinishAgent, FreedAgent, Occupies, WillFinish, FreesLater, Active;
    forall g | g in b.agents && b.agents[g].status == InCall && g !in w.lost
      ensures (exists c :: Occupies(b.calls, c, g)) || (exists t :: t in tasks && WillFinish(t, g))
    {
      FreedOne(w, b, tasks, id, freed, g);
    }
  }

  lemma FreedOne(w: World, b: Db, tasks: multiset<Task>, id: CallId, freed: Option<AgentId>, g: AgentId)
    requires AgentsFreed(w) && g in b.agents && b.agents[g].status == InCall && g !in w.lost
    requires b.agents == FinishAgent(w.db.(calls := b.calls), freed).agents
    requires id in w.db.calls && id in b.calls && FreesLater(w.db, b, id, freed, w.tasks, tasks)
    requires forall c, g :: c != id ==> Occupies(b.calls, c, g) == Occupies(w.db.calls, c, g)
    requires Active(b.calls[id]) == Active(w.db.calls[id]) ==> forall g :: Occupies(b.calls, id, g) == Occupies(w.db.calls, id, g)
    ensures (exists c :: Occupies(b.calls, c, g)) || (exists t :: t in tasks && WillFinish(t, g))
  {
    hide FinishAgent, FreedAgent, Open;
    FreeingKeepsOccupied(w.db.(calls := b.calls), freed, g);
    if freed == Some(g) {
    } else if exists t :: t in w.tasks && WillFinish(t, g) {
      var t :| t in w.tasks && WillFinish(t, g);
    } else {
      assert w.db.agents[g].status == InCall;
      var c :| Occupies(w.db.calls, c, g);
      assert c != id ==> Occupies(b.calls, c, g);
    }
  }

  lemma KeepsTasks(a: Db, b: Db, before: multiset<Task>, after: multiset<Task>, id: CallId, status: ContactStatus,
                   freed: Option<AgentId>)
    requires (forall t | t in before :: TaskOk(a, t)) && Transaction(a, b, id, status, freed)
    requires forall t | t in after :: t in before || TaskOk(b, t)
    ensures forall t | t in after :: TaskOk(b, t)
  {
    hide LeadSteps, FinishAgent;
    forall t | t in after
      ensures TaskOk(b, t)
    {
      if t in before {
        assert TaskOk(a, t);
        TaskStillOk(a.calls, b.calls, a, b, id, t);
      }
    }
  }

  lemma TaskStillOk(ac: map<CallId, Call>, bc: map<CallId, Call>, a: Db, b: Db, id: CallId, t: Task)
    requires ac == a.calls && bc == b.calls && CallSteps(ac, bc, id) && TaskOk(a, t)
    ensures TaskOk(b, t)
  {
    hide CallRowOk, Active, Open;
    assert bc[t.callId] == ac[t.callId] || t.callId == id;
  }

  lemma KeepsUsers(a: Db, b: Db, id: CallId, status: ContactStatus, freed: Option<AgentId>)
    requires UsersOk(a) && Transaction(a, b, id, status, freed)
    ensures UsersOk(b)
  {
    hide LeadSteps, FreedAgent, CallRowOk, KeepsEnd, Open, FinishAgent;
    forall c, u | c in b.calls && Active(b.calls[c]) && OwnedBy(b, c, u)
      ensures u in b.users && b.users[u].active && forall s :: !LiveFor(b.sessions, s, u)
    {
      assert Active(a.calls[c]) && a.calls[c].agentId == b.calls[c].agentId;
      FreeingKeepsOccupied(a.(calls := b.calls), freed, b.calls[c].agentId.value);
      assert OwnedBy(a, c, u);
    }
  }

  lemma KeepsHistory(a: Db, b: Db, id: CallId, status: ContactStatus, freed: Option<AgentId>)
    requires Transaction(a, b, id, status, freed)
    ensures HistoryKept(a.calls, b.calls)
  {
    hide CallRowOk, LeadSteps, FinishAgent;
  }

  /** Any transaction of that shape keeps the invariant. */
  lemma TransactionKeepsInv(w: World, b: Db, tasks: multiset<Task>, id: CallId, status: ContactStatus,
                            freed: Option<AgentId>)
    requires Inv(w) && Transaction(w.db, b, id, status, freed)
    requires FreesLater(w.db, b, id, freed, w.tasks, tasks)
    requires forall t | t in tasks :: t in w.tasks || TaskOk(b, t)
    ensures Follows(w, w.(db := b, tasks := tasks, now := w.now + 1))
  {
    hide Transaction, FreesLater, CallsOk, LeadsOk, AttemptsOk, AgentsOk, AgentsFreed, UsersOk, TaskOk;
    var after := w.(db := b, tasks := tasks, now := w.now + 1);
    var same := w.(db := b, now := w.now + 1);
    KeepsCalls(w, b, id, status, freed);
    KeepsLeads(w.db, b, id, status, freed);
    KeepsAttempts(w, b, id, status, freed);
    KeepsAgents(w.db, b, id, status, freed);
    KeepsFreed(w, b, tasks, id, status, freed);
    KeepsTasks(w.db, b, w.tasks, tasks, id, status, freed);
    KeepsUsers(w.db, b, id, status, freed);
    OnlyDbCounts(same, after);
    KeepsHistory(w.db, b, id, status, freed);
  }

  lemma OnlyDbCounts(a: World, b: World)
    requires b == a.(tasks := b.tasks, lost := b.lost)
    ensures CallsOk(a) == CallsOk(b) && AttemptsOk(a) == AttemptsOk(b)
  {
  }
}
