/**
 Transactions under the user media lock: account changes (auth/routes.ts) and live
 supervision (dashboard/supervisor.ts). The lock makes each of them one atomic step.
 */
module UserAccess {
  import opened Wrappers
  import opened DialerDb
  import opened CallActions

  predicate OwnsActiveCall(db: Db, user: UserId) {
    exists c | c in db.calls :: Active(db.calls[c]) && OwnedBy(db, c, user)
  }

  datatype AccountResult = AccountChanged | AccountNotFound | AccountActiveCall | AccountActiveSupervisor

  function RetireAgents(agents: map<AgentId, Agent>, user: UserId): map<AgentId, Agent> {
    map a | a in agents ::
      if agents[a].userId == user then agents[a].(status := Offline, registered := false) else agents[a]
  }

  /** updateUser: only a deactivation looks for active calls; losing admin rights too looks for a session. */
  function UpdateUser(db: Db, user: UserId, role: Option<Role>, active: Option<bool>): (Db, AccountResult) {
    if user !in db.users then (db, AccountNotFound)
    else
      var existing := db.users[user];
      var deactivated := existing.active && active == Some(false);
      var accessRemoved := deactivated || (existing.role == AdminRole && role == Some(AgentRole));
      if deactivated && OwnsActiveCall(db, user) then (db, AccountActiveCall)
      else if accessRemoved && HasLiveSession(db.sessions, user) then (db, AccountActiveSupervisor)
      else
        var row := User(if active.Some? then active.value else existing.active,
                        if role.Some? then role.value else existing.role);
        (db.(users := db.users[user := row],
             agents := if deactivated then RetireAgents(db.agents, user) else db.agents), AccountChanged)
  }

  /** deleteUser deactivates; rows are kept. */
  function DeleteUser(db: Db, user: UserId): (Db, AccountResult) {
    if user !in db.users then (db, AccountNotFound)
    else if OwnsActiveCall(db, user) then (db, AccountActiveCall)
    else if HasLiveSession(db.sessions, user) then (db, AccountActiveSupervisor)
    else (db.(users := db.users[user := db.users[user].(active := false)], agents := RetireAgents(db.agents, user)),
          AccountChanged)
  }

  datatype SessionResult = SessionStarted | AccessChanged | FinishOwnCall | AlreadyMonitoring | SessionKeyConflict

  /** startSupervisorSession's transaction; the partial unique index admits one live session per actor. */
  function StartSession(db: Db, id: SessionId, actor: UserId, call: CallId, leg: ChannelUuid): (Db, SessionResult) {
    if actor !in db.users || !db.users[actor].active || db.users[actor].role != AdminRole then (db, AccessChanged)
    else if OwnsActiveCall(db, actor) then (db, FinishOwnCall)
    else if HasLiveSession(db.sessions, actor) then (db, AlreadyMonitoring)
    else if id in db.sessions then (db, SessionKeyConflict)
    else (db.(sessions := db.sessions[id := Session(actor, call, Connecting, leg, None)]), SessionStarted)
  }

  function PutSession(db: Db, id: SessionId, session: Session): Db {
    db.(sessions := db.sessions[id := session])
  }

  /** updateSupervisorSessionMode's guarded update: an active session reconnects on a new leg. */
  function SwitchMode(db: Db, id: SessionId, actor: UserId, leg: ChannelUuid): Db {
    if id in db.sessions && db.sessions[id].actor == actor && db.sessions[id].state == Live
    then PutSession(db, id, db.sessions[id].(state := Connecting, legUuid := leg, jobUuid := None)) else db
  }

  function SetSessionJob(db: Db, id: SessionId, job: nat): Db {
    if id in db.sessions then PutSession(db, id, db.sessions[id].(jobUuid := Some(job))) else db
  }

  function SessionAnswered(db: Db, id: SessionId, leg: ChannelUuid): Db {
    if id in db.sessions && db.sessions[id].legUuid == leg && db.sessions[id].state == Connecting
    then PutSession(db, id, db.sessions[id].(state := Live)) else db
  }

  function SessionHungUp(db: Db, id: SessionId, leg: ChannelUuid): Db {
    if id in db.sessions && db.sessions[id].legUuid == leg && IsLive(db.sessions[id].state)
    then PutSession(db, id, db.sessions[id].(state := SessionEnded)) else db
  }

  /** persistSupervisorBackgroundJobFailure for the session holding that job. */
  function SessionJobFailed(db: Db, id: SessionId, job: nat): Db {
    if id in db.sessions && db.sessions[id].jobUuid == Some(job) && db.sessions[id].state == Connecting
    then PutSession(db, id, db.sessions[id].(state := SessionFailed)) else db
  }

  /** stopSupervisorSession's update. */
  function StopSession(db: Db, id: SessionId, actor: UserId, leg: ChannelUuid): Db {
    if id in db.sessions && db.sessions[id].actor == actor && db.sessions[id].legUuid == leg
    then PutSession(db, id, db.sessions[id].(state := SessionEnded)) else db
  }

  /** failSupervisorSession after a failed originate, for one leg or for any. */
  function FailSession(db: Db, id: SessionId, leg: Option<ChannelUuid>): Db {
    if id in db.sessions && (leg.None? || leg.value == db.sessions[id].legUuid)
    then PutSession(db, id, db.sessions[id].(state := SessionFailed)) else db
  }
}
