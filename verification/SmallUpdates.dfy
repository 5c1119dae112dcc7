/**
 The steps that are one statement or one small transaction: when each of them
 changes something, and what, listed out.
 */
module SmallUpdates {
  import opened Wrappers
  import opened DialerDb
  import opened Terms
  import opened Finalization
  import opened VoicemailDrop
  import opened CallActions
  import opened UserAccess
  import opened TransactionEffects
  import opened Lifecycle

  /** The database after a step; such a step leaves everything else of the world alone. */
  function After(w: World, step: Step): Db {
    Effect(w, step).db
  }

  predicate OnlyDb(w: World, step: Step) {
    Effect(w, step) == w.(db := After(w, step))
  }

  // ---------------------------------------------------------------- one call

  /** This row of the calls table and nothing else. */
  predicate OnlyRow(db: Db, after: Db, id: CallId, row: Call) {
    id in db.calls && after == db.(calls := db.calls[id := row])
  }

  /** The originate was queued: the agent rings, unless the call is over or in a drop or a result was set by hand. */
  lemma QueuedMeans(w: World, id: CallId)
    requires SchemaValid(w.db)
    ensures OnlyDb(w, QueueOriginate(id))
    ensures var (db, after) := (w.db, After(w, QueueOriginate(id)));
            if id in db.calls && db.calls[id].state !in OVER_STATES + DROP_STATES + {VoicemailPlaybackCompleted}
            then OnlyRow(db, after, id, db.calls[id].(state := AgentRinging, updatedAt := w.now))
            else after == db
  {
    if id in w.db.calls {
      assert LockValid(w.db.calls[id]);
    }
  }

  /** A voicemail signal of a running call is remembered, a later one does not take it back. */
  lemma SignalMeans(w: World, id: CallId, detected: bool)
    ensures OnlyDb(w, Signal(id, detected))
    ensures var (db, after) := (w.db, After(w, Signal(id, detected)));
            if id in db.calls && Running(db.calls[id])
            then OnlyRow(db, after, id, db.calls[id].(voicemailDetected := db.calls[id].voicemailDetected || detected, updatedAt := w.now))
            else after == db
  {
  }

  // ---------------------------------------------------------------- legs

  /** The legs after an originate: the agent's is started on its channel, whatever it was before; the customer's is named. */
  lemma LegUpdatesMean(w: World, id: CallId, uuid: ChannelUuid)
    ensures OnlyDb(w, Execute(AgentLegStarted(id, uuid))) && OnlyDb(w, Execute(CustomerLegNamed(id, uuid)))
    ensures var (db, after) := (w.db, After(w, Execute(AgentLegStarted(id, uuid))));
            && after == db.(legs := after.legs) && after.legs.Keys == db.legs.Keys
            && forall l | l in db.legs ::
                 after.legs[l] == if db.legs[l].callId == id && db.legs[l].kind == AgentLeg
                                  then db.legs[l].(uuid := Some(uuid), state := LegStarted) else db.legs[l]
    ensures var (db, after) := (w.db, After(w, Execute(CustomerLegNamed(id, uuid))));
            && after == db.(legs := after.legs) && after.legs.Keys == db.legs.Keys
            && forall l | l in db.legs ::
                 after.legs[l] == if db.legs[l].callId == id && db.legs[l].kind == CustomerLeg
                                  then db.legs[l].(uuid := Some(uuid)) else db.legs[l]
  {
  }

  // ---------------------------------------------------------------- agents

  /** Has a running call, its agent on the phone or not. */
  ghost predicate HasCall(calls: map<CallId, Call>, a: AgentId) {
    exists c :: c in calls && Running(calls[c]) && calls[c].agentId == Some(a)
  }

  lemma HasCallIsOpen(calls: map<CallId, Call>, a: AgentId)
    ensures HasOpenCall(calls, a) == HasCall(calls, a)
  {
    forall c | c in calls
      ensures Open(calls[c]) == Running(calls[c])
    {
      RunningIsOpen(calls[c]);
    }
    hide Open, Running;
  }

  /** Registration brings an offline agent back; losing it takes an idle one offline; nobody leaves a call by it. */
  lemma RegistrationMeans(w: World, a: AgentId, registered: bool)
    ensures OnlyDb(w, Register(a, registered))
    ensures var (db, after) := (w.db, After(w, Register(a, registered)));
            if a !in db.agents then after == db
            else
              var was := db.agents[a];
              && after == db.(agents := db.agents[a := after.agents[a]])
              && after.agents[a] == was.(registered := registered, status := after.agents[a].status)
              && (after.agents[a].status != was.status <==>
                    || (registered && was.status == Offline)
                    || (!registered && was.status in {Ready, Registered} && !HasCall(db.calls, a)))
              && (after.agents[a].status != was.status ==> after.agents[a].status == if registered then Ready else Offline)
  {
    HasCallIsOpen(w.db.calls, a);
    hide HasOpenCall, HasCall;
  }

  /** Pausing and resuming set the availability and nothing else. */
  lemma AvailabilityMeans(w: World, a: AgentId, paused: bool)
    ensures OnlyDb(w, Pause(a, paused))
    ensures var (db, after) := (w.db, After(w, Pause(a, paused)));
            if a !in db.agents then after == db
            else
              && after == db.(agents := db.agents[a := after.agents[a]])
              && after.agents[a] == db.agents[a].(availability := after.agents[a].availability)
              && (after.agents[a].availability == Paused <==> paused) && (after.agents[a].availability == Available <==> !paused)
  {
  }

  // ---------------------------------------------------------------- leads and lists

  /** A lead is added new and unattempted, unless its campaign has its number or its identifier is taken. */
  lemma AddMeans(w: World, contact: ContactId, campaign: CampaignId, number: PhoneNumber)
    ensures OnlyDb(w, Execute(AddLead(contact, campaign, number)))
    ensures var (db, after) := (w.db, After(w, Execute(AddLead(contact, campaign, number))));
            var known := exists k :: k in db.contacts && db.contacts[k].campaignId == campaign && db.contacts[k].number == number;
            if contact in db.contacts || known then after == db
            else
              && after == db.(contacts := after.contacts) && after.contacts.Keys == db.contacts.Keys + {contact}
              && (forall k | k in db.contacts :: after.contacts[k] == db.contacts[k])
              && var lead := after.contacts[contact];
                 && lead.campaignId == campaign && lead.number == number && lead.status == New && lead.attempts == 0
                 && lead.lastAttemptedAt.None?
  {
  }

  lemma SuppressMeans(w: World, number: PhoneNumber, listed: bool)
    ensures OnlyDb(w, Execute(Suppress(number, listed)))
    ensures var (db, after) := (w.db, After(w, Execute(Suppress(number, listed))));
            && after == db.(suppressed := after.suppressed)
            && forall n :: n in after.suppressed <==> (if n == number then listed else n in db.suppressed)
  {
  }

  lemma SwitchesMean(w: World, campaign: CampaignId, on: bool)
    ensures Effect(w, Execute(SetCampaign(campaign, on))) == w.(db := w.db.(campaigns := w.db.campaigns[campaign := on]))
    ensures Effect(w, Execute(PauseStarts(on))) == w.(db := w.db.(callStartPaused := on))
  {
  }

  // ---------------------------------------------------------------- sessions

  /** The session goes to this state if the condition holds; nothing else changes, and nothing at all otherwise. */
  predicate SessionGoes(w: World, step: Step, id: SessionId, when: bool, to: Session) {
    Effect(w, step) == if when then w.(db := w.db.(sessions := w.db.sessions[id := to])) else w
  }

  /** What a supervisor does: switching the mode reconnects a live session on a new leg; stopping ends it. */
  lemma SupervisorsMean(w: World, id: SessionId, actor: UserId, leg: ChannelUuid, job: nat)
    ensures id !in w.db.sessions ==>
              Effect(w, ChangeMode(id, actor, leg)) == Effect(w, RecordJob(id, job)) == Effect(w, StopSupervising(id, actor, leg)) == w
    ensures id in w.db.sessions ==>
              var s := w.db.sessions[id];
              && SessionGoes(w, ChangeMode(id, actor, leg), id, s.actor == actor && s.state == Live,
                             s.(state := Connecting, legUuid := leg, jobUuid := None))
              && SessionGoes(w, RecordJob(id, job), id, true, s.(jobUuid := Some(job)))
              && SessionGoes(w, StopSupervising(id, actor, leg), id, s.actor == actor && s.legUuid == leg, s.(state := SessionEnded))
  {
  }

  /** The supervisor's leg: its answer connects the session, its hangup ends it. */
  lemma SessionsMean(w: World, id: SessionId, leg: ChannelUuid)
    ensures id !in w.db.sessions ==> Effect(w, SupervisorAnswered(id, leg)) == Effect(w, SupervisorHungUp(id, leg)) == w
    ensures id in w.db.sessions ==>
              var s := w.db.sessions[id];
              && SessionGoes(w, SupervisorAnswered(id, leg), id, s.legUuid == leg && s.state == Connecting, s.(state := Live))
              && SessionGoes(w, SupervisorHungUp(id, leg), id, s.legUuid == leg && s.state in {Connecting, Live},
                             s.(state := SessionEnded))
  {
  }

  /** A failed job fails a session that still connects on it; a failed originate, the session or the leg it was for. */
  lemma FailuresMean(w: World, id: SessionId, job: nat, only: Option<ChannelUuid>)
    ensures id !in w.db.sessions ==> Effect(w, SupervisorJobFailed(id, job)) == Effect(w, SupervisionFailed(id, only)) == w
    ensures id in w.db.sessions ==>
              var s := w.db.sessions[id];
              && SessionGoes(w, SupervisorJobFailed(id, job), id, s.jobUuid == Some(job) && s.state == Connecting,
                             s.(state := SessionFailed))
              && SessionGoes(w, SupervisionFailed(id, only), id, only.None? || only.value == s.legUuid, s.(state := SessionFailed))
  {
  }
}
