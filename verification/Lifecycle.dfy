/**
 The dialer's call control as one state machine. A step is one transaction, one
 pooled statement, or one stretch between two awaits of an operation that holds
 what it read; such operations are tasks, and any of them may run next or be lost.
 */
module Lifecycle {
  import opened Wrappers
  import opened DialerDb
  import opened Finalization
  import opened VoicemailDrop
  import opened ChannelEvents
  import opened CallActions
  import opened UserAccess

  /** An operation suspended at an await, with the values it captured. */
  datatype Task =
    | EndDrop(callId: CallId, failed: bool, agentReleased: bool, contact: Option<ContactId>)
    | SendDropCommands(callId: CallId, agent: AgentId, claimedState: CallState)
    | ReleaseMark(callId: CallId, agent: AgentId)
    | ReleaseLegs(callId: CallId, agent: AgentId)
    | ReleaseFinish(callId: CallId, agent: AgentId)

  /** How FreeSWITCH answered a voicemail transfer and the release of the agent leg. */
  datatype DropAnswer = TransferRejected | TransferUnclear | AgentLegGone | AgentLegUnclear

  /** Statements on the pool that check nothing but keys: the legs of an originate, and the administrators' lists. */
  datatype Statement =
    | AgentLegStarted(id: CallId, uuid: ChannelUuid)
    | CustomerLegNamed(id: CallId, uuid: ChannelUuid)
    | AddLead(contact: ContactId, campaign: CampaignId, number: PhoneNumber)
    | Suppress(number: PhoneNumber, listed: bool)
    | SetCampaign(campaign: CampaignId, running: bool)
    | PauseStarts(paused: bool)

  function Executed(db: Db, statement: Statement): Db {
    match statement
    case AgentLegStarted(id, uuid) => StartAgentLeg(db, id, uuid)
    case CustomerLegNamed(id, uuid) => NameCustomerLeg(db, id, uuid)
    case AddLead(contact, campaign, number) => AddContact(db, contact, campaign, number)
    case Suppress(number, listed) => SetSuppressed(db, number, listed)
    case SetCampaign(campaign, running) => db.(campaigns := db.campaigns[campaign := running])
    case PauseStarts(paused) => db.(callStartPaused := paused)
  }

  datatype Step =
    | Create(actor: UserId, agent: AgentId, lead: LeadChoice, policy: RetryPolicy,
             id: CallId, agentLeg: LegId, customerLeg: LegId)
    | QueueOriginate(id: CallId)
    | Generic(e: TaggedEvent)
    | LogHangup(e: TaggedEvent)
    | Finalize(id: CallId, resolver: Resolver, event: Option<CallEvent>, logWhenFinal: bool)
    | Signal(id: CallId, detected: bool)
    | ClaimVoicemail(id: CallId, user: UserId)
    | AnswerDrop(task: Task, answer: DropAnswer)
    | PlaybackStarted(id: CallId)
    | ReleaseForPlayback(id: CallId)
    | PlaybackCompleted(id: CallId)
    | ReadDrop(id: CallId, failed: bool, timedOut: bool)
    | RunTask(task: Task)
    | LoseTask(task: Task)
    | AgentEnds(id: CallId, user: UserId)
    | SetStatus(id: CallId, user: UserId, outcome: Outcome)
    | Reset(campaign: CampaignId)
    | Register(agent: AgentId, registered: bool)
    | Pause(agent: AgentId, paused: bool)
    | ChangeUser(user: UserId, role: Option<Role>, active: Option<bool>)
    | RemoveUser(user: UserId)
    | Supervise(session: SessionId, actor: UserId, call: CallId, leg: ChannelUuid)
    | ChangeMode(session: SessionId, actor: UserId, leg: ChannelUuid)
    | RecordJob(session: SessionId, job: nat)
    | SupervisorAnswered(session: SessionId, leg: ChannelUuid)
    | SupervisorHungUp(session: SessionId, leg: ChannelUuid)
    | SupervisorJobFailed(session: SessionId, job: nat)
    | StopSupervising(session: SessionId, actor: UserId, leg: ChannelUuid)
    | SupervisionFailed(session: SessionId, only: Option<ChannelUuid>)
    | Execute(statement: Statement)

  /**
   The database, the suspended operations, and the clock. Two histories the code
   does not keep: when each campaign was last reset, and the agents whose release
   was lost half way and whom nobody has freed since.
   */
  datatype World = World(db: Db, tasks: multiset<Task>, lastReset: map<CampaignId, Time>, lost: set<AgentId>, now: Time)

  predicate WillFinish(task: Task, a: AgentId) {
    (task.ReleaseLegs? || task.ReleaseFinish?) && task.agent == a
  }

  /** dropVoicemailForCall claims, then holds the agent and the state it claimed from. */
  function Claim(w: World, id: CallId, user: UserId): World {
    var db := ClaimDrop(w.db, id, user, w.now);
    if id in w.db.calls && id in db.calls && w.db.calls[id].state != VoicemailDropRequested
       && db.calls[id].state == VoicemailDropRequested && db.calls[id].agentId.Some?
    then w.(db := db,
            tasks := w.tasks + multiset{SendDropCommands(id, db.calls[id].agentId.value, w.db.calls[id].state)})
    else w.(db := db)
  }

  /** The answer to the drop commands: revert, give up, or go on to release the agent. */
  function Answer(w: World, task: Task, answer: DropAnswer): World {
    if task !in w.tasks || !task.SendDropCommands? then w
    else
      var rest := w.tasks - multiset{task};
      match answer
      case TransferRejected => w.(db := RevertDrop(w.db, task.callId, task.claimedState, w.now), tasks := rest)
      case AgentLegGone =>
        w.(db := Log(w.db, CallEvent(task.callId, AgentReleasedEvent, None)),
           tasks := rest + multiset{ReleaseMark(task.callId, task.agent)})
      case _ => w.(tasks := rest)
  }

  /** What the caller of finalizeIncompleteVoicemailPlayback read, held until its transaction. */
  function Read(w: World, id: CallId, failed: bool, timedOut: bool): World {
    if DropInProgress(w.db, id) then
      var released := !timedOut && w.db.calls[id].state == AgentReleased;
      w.(tasks := w.tasks + multiset{EndDrop(id, failed, released, w.db.calls[id].contactId)})
    else w
  }

  function Run(w: World, task: Task): World {
    if task !in w.tasks then w
    else
      var rest := w.tasks - multiset{task};
      match task
      case EndDrop(id, failed, released, contact) =>
        w.(db := FinalizeIncomplete(w.db, id, failed, released, contact, w.now), tasks := rest)
      case SendDropCommands(_, _, _) => w
      case ReleaseMark(id, agent) =>
        w.(db := MarkReleased(w.db, id, w.now), tasks := rest + multiset{ReleaseLegs(id, agent)})
      case ReleaseLegs(id, agent) =>
        w.(db := CloseLegs(w.db, id, Some(AgentLeg), w.now), tasks := rest + multiset{ReleaseFinish(id, agent)})
      case ReleaseFinish(id, agent) =>
        w.(db := FinishAgent(w.db, Some(agent)), tasks := rest)
  }

  function Lose(w: World, task: Task): World {
    if task !in w.tasks then w
    else w.(tasks := w.tasks - multiset{task},
            lost := if task.ReleaseLegs? || task.ReleaseFinish? then w.lost + {task.agent} else w.lost)
  }

  function ResetLeads(w: World, campaign: CampaignId): World {
    if campaign in w.db.campaigns && !CampaignBusy(w.db, campaign)
    then w.(db := ResetCampaign(w.db, campaign), lastReset := w.lastReset[campaign := w.now])
    else w
  }

  /** createDialerCall's callers pass the agent of the acting user. */
  function Start(w: World, actor: UserId, agent: AgentId, lead: LeadChoice, policy: RetryPolicy,
                 id: CallId, agentLeg: LegId, customerLeg: LegId): World {
    if agent in w.db.agents && w.db.agents[agent].userId == actor
    then w.(db := CreateDialerCall(w.db, actor, agent, lead, policy, id, agentLeg, customerLeg, w.now).0)
    else w
  }

  function Effect(w: World, step: Step): World {
    match step
    case Create(actor, agent, lead, policy, id, agentLeg, customerLeg) =>
      Start(w, actor, agent, lead, policy, id, agentLeg, customerLeg)
    case QueueOriginate(id) => w.(db := OriginateQueued(w.db, id, w.now))
    case Generic(e) => w.(db := GenericEvent(w.db, e, w.now))
    case LogHangup(e) => w.(db := LogTagged(w.db, e))
    case Finalize(id, resolver, event, logWhenFinal) =>
      w.(db := FinalizeCall(w.db, id, resolver, event, logWhenFinal, w.now).0)
    case Signal(id, detected) => w.(db := VoicemailSignal(w.db, id, detected, w.now))
    case ClaimVoicemail(id, user) => Claim(w, id, user)
    case AnswerDrop(task, answer) => Answer(w, task, answer)
    case PlaybackStarted(id) => w.(db := MarkPlaybackStarted(w.db, id, w.now))
    case ReleaseForPlayback(id) => w.(db := ReleaseAgent(w.db, id, w.now))
    case PlaybackCompleted(id) => w.(db := FinalizeCompleted(w.db, id, w.now))
    case ReadDrop(id, failed, timedOut) => Read(w, id, failed, timedOut)
    case RunTask(task) => Run(w, task)
    case LoseTask(task) => Lose(w, task)
    case AgentEnds(id, user) => w.(db := EndDialerCall(w.db, id, user, w.now).0)
    case SetStatus(id, user, outcome) => w.(db := SetManualStatus(w.db, id, user, outcome, w.now).0)
    case Reset(campaign) => ResetLeads(w, campaign)
    case Register(agent, registered) => w.(db := SetRegistration(w.db, agent, registered))
    case Pause(agent, paused) => w.(db := SetAvailability(w.db, agent, paused))
    case ChangeUser(user, role, active) => w.(db := UpdateUser(w.db, user, role, active).0)
    case RemoveUser(user) => w.(db := DeleteUser(w.db, user).0)
    case Supervise(session, actor, call, leg) => w.(db := StartSession(w.db, session, actor, call, leg).0)
    case ChangeMode(session, actor, leg) => w.(db := SwitchMode(w.db, session, actor, leg))
    case RecordJob(session, job) => w.(db := SetSessionJob(w.db, session, job))
    case SupervisorAnswered(session, leg) => w.(db := SessionAnswered(w.db, session, leg))
    case SupervisorHungUp(session, leg) => w.(db := SessionHungUp(w.db, session, leg))
    case SupervisorJobFailed(session, job) => w.(db := SessionJobFailed(w.db, session, job))
    case StopSupervising(session, actor, leg) => w.(db := StopSession(w.db, session, actor, leg))
    case SupervisionFailed(session, only) => w.(db := FailSession(w.db, session, only))
    case Execute(statement) => w.(db := Executed(w.db, statement))
  }

  /** The step and the clock. */
  function Tick(w: World, step: Step): World {
    Effect(w, step).(now := w.now + 1)
  }

  /** An agent that is not "in_call" any more was freed, so its lost release is history. */
  function Settle(w: World): World {
    w.(lost := set a | a in w.lost && a in w.db.agents && w.db.agents[a].status == InCall)
  }

  function Apply(w: World, step: Step): World {
    Settle(Tick(w, step))
  }

  function RunSteps(w: World, steps: seq<Step>): World
    decreases |steps|
  {
    if steps == [] then w else RunSteps(Apply(w, steps[0]), steps[1..])
  }

  // ---------------------------------------------------------------- what every reachable state satisfies

  /** Ended, terminal and having an outcome are the same thing, and "failed" means failed. */
  predicate CallRowOk(call: Call) {
    && (call.endedAt.Some? <==> IsTerminal(call.state))
    && (call.endedAt.Some? <==> call.outcome.Some?)
    && (call.state == Failed <==> call.outcome == Some(CallFailed))
    && (call.lockedAt.Some? ==> call.endedAt.Some?)
    && call.state != VoicemailPlaybackCompleted
    && (call.endedAt.None? ==> (call.agentReleasedAt.Some? <==> call.state == AgentReleased))
  }

  /** Foreign keys, and a lead's calls belong to the lead's campaign. */
  predicate RefsOk(db: Db, call: Call) {
    && call.agentId.Some? && call.agentId.value in db.agents
    && call.campaignId.Some?
    && (call.contactId.Some? ==>
          call.contactId.value in db.contacts && db.contacts[call.contactId.value].campaignId == call.campaignId.value)
  }

  ghost predicate CallsOk(w: World) {
    forall c | c in w.db.calls ::
      CallRowOk(w.db.calls[c]) && RefsOk(w.db, w.db.calls[c]) && w.db.calls[c].createdAt < w.now
  }

  predicate Holds(calls: map<CallId, Call>, c: CallId, k: ContactId) {
    c in calls && Open(calls[c]) && calls[c].contactId == Some(k)
  }

  /** A lead is "calling" exactly while an open call holds it, and no two hold one. */
  ghost predicate LeadsOk(calls: map<CallId, Call>, contacts: map<ContactId, Contact>) {
    && (forall k | k in contacts && contacts[k].status == Calling :: exists c :: Holds(calls, c, k))
    && (forall c, k | k in contacts && Holds(calls, c, k) :: contacts[k].status == Calling)
    && (forall c, d, k :: Holds(calls, c, k) && Holds(calls, d, k) ==> c == d)
  }

  function Since(lastReset: map<CampaignId, Time>, campaign: CampaignId): Time {
    if campaign in lastReset then lastReset[campaign] else 0
  }

  function Attempts(calls: map<CallId, Call>, k: ContactId, since: Time): set<CallId> {
    set c | c in calls && calls[c].contactId == Some(k) && since <= calls[c].createdAt
  }

  /** A lead's attempt count is the number of calls created for it since its campaign's last reset. */
  ghost predicate AttemptsOk(w: World) {
    && (forall g | g in w.lastReset :: w.lastReset[g] <= w.now)
    && (forall k | k in w.db.contacts ::
          w.db.contacts[k].attempts == |Attempts(w.db.calls, k, Since(w.lastReset, w.db.contacts[k].campaignId))|)
  }

  predicate Occupies(calls: map<CallId, Call>, c: CallId, a: AgentId) {
    c in calls && Active(calls[c]) && calls[c].agentId == Some(a)
  }

  /** At most one call occupies an agent, an occupied agent is "in_call", and a registered one is never "offline". */
  ghost predicate AgentsOk(calls: map<CallId, Call>, agents: map<AgentId, Agent>) {
    && (forall a | a in agents && agents[a].registered :: agents[a].status != Offline)
    && (forall c, a :: Occupies(calls, c, a) ==> a in agents && agents[a].status == InCall)
    && (forall c, d, a :: Occupies(calls, c, a) && Occupies(calls, d, a) ==> c == d)
  }

  /** An agent is "in_call" only for a call that occupies it, a release under way, or one that was lost. */
  ghost predicate AgentsFreed(w: World) {
    forall a | a in w.db.agents && w.db.agents[a].status == InCall ::
      || (exists c :: Occupies(w.db.calls, c, a))
      || (exists t :: t in w.tasks && WillFinish(t, a))
      || a in w.lost
  }

  /** What a suspended operation captured still means what it meant. */
  predicate TaskOk(db: Db, task: Task) {
    && task.callId in db.calls
    && match task
       case EndDrop(id, _, released, contact) =>
         contact == db.calls[id].contactId
         && (released ==> db.calls[id].state == AgentReleased || db.calls[id].endedAt.Some?)
       case SendDropCommands(id, agent, claimed) =>
         db.calls[id].agentId == Some(agent) && (claimed == Bridged || claimed == VoicemailSignalDetected)
       case _ => db.calls[task.callId].agentId == Some(task.agent)
  }

  ghost predicate TasksOk(w: World) {
    forall t | t in w.tasks :: TaskOk(w.db, t)
  }

  predicate LiveFor(sessions: map<SessionId, Session>, s: SessionId, u: UserId) {
    s in sessions && sessions[s].actor == u && IsLive(sessions[s].state)
  }

  /**
   Nobody supervises while on a call of their own; only active admins supervise, one
   session each; only active users call.
  */
  ghost predicate UsersOk(db: Db) {
    && (forall s, u :: LiveFor(db.sessions, s, u) ==>
          u in db.users && db.users[u].active && db.users[u].role == AdminRole)
    && (forall s, r, u :: LiveFor(db.sessions, s, u) && LiveFor(db.sessions, r, u) ==> s == r)
    && (forall c, u | c in db.calls && Active(db.calls[c]) && OwnedBy(db, c, u) ::
          u in db.users && db.users[u].active && forall s :: !LiveFor(db.sessions, s, u))
  }

  ghost predicate Inv(w: World) {
    CallsOk(w) && LeadsOk(w.db.calls, w.db.contacts) && AttemptsOk(w) && AgentsOk(w.db.calls, w.db.agents)
    && AgentsFreed(w) && TasksOk(w) && UsersOk(w.db)
  }

  /** A database before its first call: leads unattempted, nobody on the phone, nobody supervising. */
  ghost predicate Initial(w: World) {
    && w.db.calls == map[] && w.tasks == multiset{} && w.lastReset == map[] && w.lost == {}
    && (forall k | k in w.db.contacts :: w.db.contacts[k].status != Calling && w.db.contacts[k].attempts == 0)
    && (forall a | a in w.db.agents :: w.db.agents[a].status != InCall)
    && (forall a | a in w.db.agents && w.db.agents[a].registered :: w.db.agents[a].status != Offline)
    && (forall s, u :: !LiveFor(w.db.sessions, s, u))
  }

  lemma InitialSatisfiesInv(w: World)
    requires Initial(w)
    ensures Inv(w)
  {
    forall k | k in w.db.contacts
      ensures |Attempts(w.db.calls, k, Since(w.lastReset, w.db.contacts[k].campaignId))| == 0
    {
      assert Attempts(w.db.calls, k, Since(w.lastReset, w.db.contacts[k].campaignId)) == {};
    }
  }
}
