/**
 When a call that has ended has an unfinished leg. Every transaction that ends a
 call closes all its legs, but the leg updates after an originate have no guard
 (dashboard/calls.ts): run after the end, they start the agent's leg again.
 */
module LegsAfterEnd {
  import opened Wrappers
  import opened DialerDb
  import opened Finalization
  import opened VoicemailDrop
  import opened ChannelEvents
  import opened CallActions
  import opened UserAccess
  import opened TransactionEffects
  import opened ConsistencyRepair
  import opened Lifecycle
  import opened LifecycleTransactions
  import opened LifecycleInvariant
  import opened LifecycleTheorems
  import opened Terms

  predicate Ended(db: Db, id: CallId) {
    id in db.calls && db.calls[id].endedAt.Some?
  }

  /** The agent's leg of a call that has already ended is set to started. */
  predicate StartsLate(w: World, step: Step, id: CallId) {
    step.Execute? && step.statement.AgentLegStarted? && step.statement.id == id && Ended(w.db, id)
  }

  /**
   What closes the agent's leg of an ended call again: a finalization or repair of the
   call, a release statement of it that was still under way, or the leg's own terminal
   event when it names a channel.
   */
  predicate ClosesAgentLeg(w: World, step: Step, id: CallId) {
    || (step.Finalize? && step.id == id)
    || (step.RunTask? && step.task in w.tasks && step.task.ReleaseLegs? && step.task.callId == id)
    || (step.Generic? && step.e.callId == id && step.e.leg == AgentLeg && IsTerminalEvent(step.e.name)
        && step.e.legUuid.Some?)
  }

  /** Some step of the run started the agent's leg after the end of the call, and no later one has closed it. */
  ghost predicate StartedLate(first: World, steps: seq<Step>, id: CallId)
    decreases |steps|
  {
    && steps != []
    && var before := RunSteps(first, steps[..|steps| - 1]);
       var step := steps[|steps| - 1];
       || StartsLate(before, step, id)
       || (StartedLate(first, steps[..|steps| - 1], id) && !ClosesAgentLeg(before, step, id))
  }

  // ---------------------------------------------------------------- the legs after each step

  /** The transactions that close every leg of their call: the four that end one, and a replayed finalization. */
  predicate ClosesLegs(w: World, step: Step, id: CallId) {
    match step
    case Finalize(c, resolver, event, logWhenFinal) =>
      var status := FinalizeCall(w.db, c, resolver, event, logWhenFinal, w.now).1;
      c == id && (status == Finalized || status == AlreadyFinalized)
    case PlaybackCompleted(c) => c == id && DropInProgress(w.db, c)
    case RunTask(task) => task in w.tasks && task.EndDrop? && task.callId == id && DropInProgress(w.db, id)
    case AgentEnds(c, user) => c == id && OwnedBy(w.db, c, user) && Active(w.db.calls[c])
    case _ => false
  }

  /** And those that close the agent's leg alone, when the agent leaves the call. */
  predicate ClosesAgentLegOnly(w: World, step: Step, id: CallId) {
    match step
    case ReleaseForPlayback(c) => c == id && DropInProgress(w.db, c)
    case RunTask(task) => task in w.tasks && task.ReleaseLegs? && task.callId == id
    case _ => false
  }

  function Target(step: Step): CallId {
    match step
    case Finalize(c, _, _, _) => c
    case PlaybackCompleted(c) => c
    case ReleaseForPlayback(c) => c
    case RunTask(task) => task.callId
    case AgentEnds(c, _) => c
    case _ => 0
  }

  /** The table of legs after a step that starts no call. */
  function LegsAfter(w: World, step: Step): map<LegId, Leg> {
    if ClosesLegs(w, step, Target(step)) then EndLegs(w.db.legs, Target(step), None, w.now)
    else if ClosesAgentLegOnly(w, step, Target(step)) then EndLegs(w.db.legs, Target(step), Some(AgentLeg), w.now)
    else if step.Generic? && step.e.callId in w.db.calls && step.e.legUuid.Some? then AdvanceLegs(w.db.legs, step.e, w.now)
    else if step.Execute? && step.statement.AgentLegStarted? then
      StartAgentLeg(w.db, step.statement.id, step.statement.uuid).legs
    else if step.Execute? && step.statement.CustomerLegNamed? then
      NameCustomerLeg(w.db, step.statement.id, step.statement.uuid).legs
    else w.db.legs
  }

  /** A step's legs are as LegsAfter says, and it ends a call only if it closes all its legs. */
  ghost predicate LegsFollow(w: World, step: Step, id: CallId) {
    && Effect(w, step).db.legs == LegsAfter(w, step)
    && (Ended(Effect(w, step).db, id) ==> Ended(w.db, id) || ClosesLegs(w, step, id))
  }

  ghost predicate Same(a: Db, b: Db, id: CallId) {
    b.legs == a.legs && Ended(b, id) == Ended(a, id)
  }

  lemma UpdateIsSame(db: Db, id: CallId, row: Call, k: CallId)
    requires id in db.calls && row.endedAt == db.calls[id].endedAt
    ensures Same(db, UpdateCall(db, id, row), k)
    ensures PutCall(db, id, row).Some? ==> Same(db, PutCall(db, id, row).value, k)
  {
  }

  lemma LoggedIsSame(db: Db, after: Db, row: CallEvent, k: CallId)
    requires Same(db, after, k)
    ensures Same(db, Log(after, row), k) && Same(Log(db, row), db, k)
  {
    hide Log;
  }

  lemma ClaimIsSame(db: Db, id: CallId, user: UserId, now: Time, k: CallId)
    ensures Same(db, ClaimDrop(db, id, user, now), k)
  {
    hide Log, PutCall;
    if id in db.calls {
      var call := db.calls[id];
      var row := call.(state := VoicemailDropRequested, dropRequestedAt := Coalesce(call.dropRequestedAt, Some(now)),
                       updatedAt := now);
      UpdateIsSame(db, id, row, k);
    }
  }

  lemma RevertIsSame(db: Db, id: CallId, claimed: CallState, now: Time, k: CallId)
    ensures Same(db, RevertDrop(db, id, claimed, now), k)
  {
    hide UpdateCall;
    if id in db.calls {
      UpdateIsSame(db, id, db.calls[id].(state := claimed, dropRequestedAt := None, updatedAt := now), k);
    }
  }

  lemma MarkStartedIsSame(db: Db, id: CallId, now: Time, k: CallId)
    ensures Same(db, MarkPlaybackStarted(db, id, now), k)
  {
    hide UpdateCall, Log, IsVoicemailDropActive;
    if id in db.calls {
      var logged := Log(db, CallEvent(id, PlaybackStartedEvent, None));
      UpdateIsSame(logged, id, db.calls[id].(state := VoicemailPlaybackStarted, updatedAt := now), k);
    }
  }

  lemma MarkReleasedIsSame(db: Db, id: CallId, now: Time, k: CallId)
    ensures Same(db, MarkReleased(db, id, now), k)
  {
    hide UpdateCall, IsVoicemailDropActive;
    if id in db.calls {
      var call := db.calls[id];
      UpdateIsSame(db, id, call.(state := AgentReleased, agentReleasedAt := Coalesce(call.agentReleasedAt, Some(now)),
                                 updatedAt := now), k);
    }
  }

  lemma QueuedIsSame(db: Db, id: CallId, now: Time, k: CallId)
    ensures Same(db, OriginateQueued(db, id, now), k)
  {
    hide UpdateCall, IsTerminal;
    if id in db.calls {
      UpdateIsSame(db, id, db.calls[id].(state := AgentRinging, updatedAt := now), k);
    }
  }

  lemma SignalIsSame(db: Db, id: CallId, detected: bool, now: Time, k: CallId)
    ensures Same(db, VoicemailSignal(db, id, detected, now), k)
  {
    hide Open;
  }

  lemma StatusIsSame(db: Db, id: CallId, user: UserId, outcome: Outcome, now: Time, k: CallId)
    ensures Same(db, SetManualStatus(db, id, user, outcome, now).0, k)
  {
    hide Log, IsTerminal, TerminalStateFor, PutCall;
    if id in db.calls && db.calls[id].lockedAt.None? {
      UpdateIsSame(db, id, ManualRow(db.calls[id], outcome, now), k);
      ManualRowPasses(db.calls[id], outcome, now);
      PutSucceeds(db, id, ManualRow(db.calls[id], outcome, now));
    }
  }

  lemma GenericFollows(db: Db, e: TaggedEvent, now: Time, k: CallId)
    ensures Ended(GenericEvent(db, e, now), k) == Ended(db, k)
    ensures GenericEvent(db, e, now).legs == if e.callId in db.calls && e.legUuid.Some? then AdvanceLegs(db.legs, e, now) else db.legs
  {
    hide LogTagged, AdvanceLegs, AdvanceMatches, AdvancedState, BridgesCall, PutCall;
    if e.callId in db.calls {
      AdvancePassesGuard(db.calls[e.callId], e, now);
      var touched := TouchLegs(LogTagged(db, e), e, now);
      UpdateIsSame(touched, e.callId, AdvancedRow(db.calls[e.callId], e, now), k);
      PutSucceeds(touched, e.callId, AdvancedRow(db.calls[e.callId], e, now));
    }
  }

  lemma PutSucceeds(db: Db, id: CallId, row: Call)
    requires id in db.calls && GuardUpdate(db.calls[id], row).Some?
    ensures PutCall(db, id, row).Some?
    ensures PutCall(db, id, row).value == db.(calls := db.calls[id := GuardUpdate(db.calls[id], row).value])
  {
  }

  // ---------------------------------------------------------------- the transactions that close legs

  lemma CleanupCloses(db: Db, id: CallId, now: Time)
    requires id in db.calls
    ensures Cleanup(db, id, now).legs == EndLegs(db.legs, id, None, now) && Cleanup(db, id, now).calls == db.calls
  {
    hide EndLegs, ReturnLeadUnlessHeld, FinishAgent;
  }

  lemma PutEndsOne(db: Db, id: CallId, row: Call, k: CallId)
    requires id in db.calls && PutCall(db, id, row).Some?
    ensures PutCall(db, id, row).value.legs == db.legs
    ensures Ended(PutCall(db, id, row).value, k) ==> Ended(db, k) || k == id
  {
    hide GuardUpdate;
  }

  lemma SameCalls(a: Db, b: Db, k: CallId)
    requires b.calls == a.calls
    ensures Ended(b, k) == Ended(a, k)
  {
  }

  lemma UnfinishedFollows(db: Db, id: CallId, resolver: Resolver, event: Option<CallEvent>, now: Time, k: CallId)
    requires id in db.calls && !IsFinalized(db.calls[id])
    ensures var (b, status) := FinalizeUnfinished(db, id, resolver, event, now);
            && b.legs == (if status == Finalized then EndLegs(db.legs, id, None, now) else db.legs)
            && (Ended(b, k) ==> Ended(db, k) || (status == Finalized && k == id))
            && status != AlreadyFinalized
  {
    hide LogOptional, Cleanup, PutCall, EndedRow, Decide, EndLegs, Ended;
    if Decide(db.calls[id], resolver).Some? {
      var logged := LogOptional(db, event);
      var row := EndedRow(db.calls[id], Decide(db.calls[id], resolver).value, now);
      SameCalls(db, logged, k);
      if PutCall(logged, id, row).Some? {
        var updated := PutCall(logged, id, row).value;
        PutEndsOne(logged, id, row, k);
        CleanupCloses(updated, id, now);
        SameCalls(updated, Cleanup(updated, id, now), k);
      }
    }
  }

  lemma ReplayFollows(db: Db, id: CallId, event: Option<CallEvent>, logWhenFinal: bool, now: Time, k: CallId)
    requires id in db.calls
    ensures ReplayFinalized(db, id, event, logWhenFinal, now).legs == EndLegs(db.legs, id, None, now)
    ensures Ended(ReplayFinalized(db, id, event, logWhenFinal, now), k) == Ended(db, k)
  {
    hide LogOptional, Cleanup, EndLegs;
    CleanupCloses(if logWhenFinal then LogOptional(db, event) else db, id, now);
  }

  lemma FinalizeFollows(db: Db, id: CallId, resolver: Resolver, event: Option<CallEvent>, logWhenFinal: bool, now: Time,
                        k: CallId)
    ensures var (b, status) := FinalizeCall(db, id, resolver, event, logWhenFinal, now);
            var closes := status == Finalized || status == AlreadyFinalized;
            && b.legs == (if closes then EndLegs(db.legs, id, None, now) else db.legs)
            && (Ended(b, k) ==> Ended(db, k) || (closes && k == id))
  {
    hide FinalizeUnfinished, ReplayFinalized, IsFinalized, EndLegs, Ended;
    if id in db.calls {
      if IsFinalized(db.calls[id]) {
        ReplayFollows(db, id, event, logWhenFinal, now, k);
      } else {
        UnfinishedFollows(db, id, resolver, event, now, k);
      }
    }
  }

  lemma CloseDropCloses(db: Db, event: CallEvent, contact: Option<ContactId>, status: ContactStatus,
                        agent: Option<AgentId>, now: Time)
    ensures CloseDrop(db, event, contact, status, agent, now).legs == EndLegs(db.legs, event.callId, None, now)
  {
    hide EndLegs, Log, ReturnLead, FinishAgent;
  }

  /** An update that goes through and ends its call, followed by the closing of all its legs. */
  lemma DropFollows(db: Db, b: Db, id: CallId, row: Call, event: CallEvent, contact: Option<ContactId>, status: ContactStatus,
                    agent: Option<AgentId>, now: Time, k: CallId)
    requires id in db.calls && GuardUpdate(db.calls[id], row).Some? && event.callId == id
    requires b == CloseDrop(PutCall(db, id, row).value, event, contact, status, agent, now)
    ensures b.legs == EndLegs(db.legs, id, None, now)
    ensures Ended(b, k) ==> Ended(db, k) || k == id
  {
    hide EndLegs, CloseDrop, GuardUpdate, Ended, PutCall;
    PutSucceeds(db, id, row);
    PutEndsOne(db, id, row, k);
    CloseDropCloses(PutCall(db, id, row).value, event, contact, status, agent, now);
    SameCalls(PutCall(db, id, row).value, b, k);
  }

  lemma CompletedFollows(db: Db, id: CallId, now: Time, k: CallId)
    requires id in db.calls ==> LockValid(db.calls[id])
    ensures FinalizeCompleted(db, id, now).legs == if DropInProgress(db, id) then EndLegs(db.legs, id, None, now) else db.legs
    ensures Ended(FinalizeCompleted(db, id, now), k) ==> Ended(db, k) || (k == id && DropInProgress(db, id))
  {
    if DropInProgress(db, id) {
      var call := db.calls[id];
      DropIsUnlocked(call);
      DropEndsPass(call, false, now);
      hide EndLegs, CloseDrop, CompletedRow, GuardUpdate, Ended, IsVoicemailDropActive, PutCall, LockValid;
      PutSucceeds(db, id, CompletedRow(call, now));
      DropFollows(db, FinalizeCompleted(db, id, now), id, CompletedRow(call, now), CallEvent(id, PlaybackCompletedEvent, None),
                  call.contactId, Done, if call.agentReleasedAt.None? then call.agentId else None, now, k);
    }
  }

  lemma DropIsUnlocked(call: Call)
    requires LockValid(call) && IsVoicemailDropActive(call.state)
    ensures call.lockedAt.None?
  {
  }

  lemma IncompleteFollows(db: Db, id: CallId, failed: bool, released: bool, contact: Option<ContactId>, now: Time, k: CallId)
    requires id in db.calls ==> LockValid(db.calls[id])
    ensures FinalizeIncomplete(db, id, failed, released, contact, now).legs
         == if DropInProgress(db, id) then EndLegs(db.legs, id, None, now) else db.legs
    ensures Ended(FinalizeIncomplete(db, id, failed, released, contact, now), k)
            ==> Ended(db, k) || (k == id && DropInProgress(db, id))
  {
    if DropInProgress(db, id) {
      var call := db.calls[id];
      DropIsUnlocked(call);
      DropEndsPass(call, failed, now);
      var event := IncompleteEvent(id, failed);
      assert event.callId == id;
      hide EndLegs, CloseDrop, IncompleteRow, IncompleteEvent, GuardUpdate, Ended, IsVoicemailDropActive, PutCall, LockValid;
      PutSucceeds(db, id, IncompleteRow(call, failed, now));
      DropFollows(db, FinalizeIncomplete(db, id, failed, released, contact, now), id, IncompleteRow(call, failed, now), event,
                  contact, New, if released then None else call.agentId, now, k);
    }
  }

  lemma ReleaseFollows(db: Db, id: CallId, now: Time, k: CallId)
    ensures ReleaseAgent(db, id, now).legs
         == if DropInProgress(db, id) then EndLegs(db.legs, id, Some(AgentLeg), now) else db.legs
    ensures Ended(ReleaseAgent(db, id, now), k) ==> Ended(db, k)
  {
    hide MarkReleased, Log, FinishAgent, EndLegs, IsVoicemailDropActive;
    MarkReleasedIsSame(Log(db, CallEvent(id, AgentReleasedEvent, None)), id, now, k);
  }

  lemma AgentEndPasses(call: Call, now: Time)
    requires Active(call)
    ensures GuardUpdate(call, AgentEndedRow(call, now)).Some?
  {
  }

  lemma AgentEndFollows(db: Db, id: CallId, user: UserId, now: Time, k: CallId)
    ensures var closes := OwnedBy(db, id, user) && Active(db.calls[id]);
            && EndDialerCall(db, id, user, now).0.legs == (if closes then EndLegs(db.legs, id, None, now) else db.legs)
            && (Ended(EndDialerCall(db, id, user, now).0, k) ==> Ended(db, k) || (k == id && closes))
  {
    hide Log, ReturnLead, FinishAgent, EndLegs, Active, PutCall, AgentEndedRow, GuardUpdate, Ended;
    if OwnedBy(db, id, user) && Active(db.calls[id]) {
      AgentEndPasses(db.calls[id], now);
      var row := AgentEndedRow(db.calls[id], now);
      PutSucceeds(db, id, row);
      PutEndsOne(db, id, row, k);
      SameCalls(PutCall(db, id, row).value, EndDialerCall(db, id, user, now).0, k);
    }
  }

  // ---------------------------------------------------------------- every step

  lemma UpdateStepIsSame(w: World, step: Step, id: CallId)
    requires step.QueueOriginate? || step.Signal? || step.PlaybackStarted? || step.SetStatus?
    ensures Same(w.db, Effect(w, step).db, id)
  {
    hide OriginateQueued, VoicemailSignal, MarkPlaybackStarted, SetManualStatus, Same;
    match step {
      case QueueOriginate(c) => QueuedIsSame(w.db, c, w.now, id);
      case Signal(c, detected) => SignalIsSame(w.db, c, detected, w.now, id);
      case PlaybackStarted(c) => MarkStartedIsSame(w.db, c, w.now, id);
      case SetStatus(c, user, outcome) => StatusIsSame(w.db, c, user, outcome, w.now, id);
    }
  }

  lemma CallStepFollows(w: World, step: Step, id: CallId)
    requires CallsOk(w)
    requires step.QueueOriginate? || step.Generic? || step.Signal? || step.PlaybackStarted? || step.ReleaseForPlayback?
             || step.PlaybackCompleted? || step.Finalize? || step.AgentEnds? || step.SetStatus?
    ensures LegsFollow(w, step, id)
  {
    hide Ended, EndLegs, AdvanceLegs, RefsOk, IsVoicemailDropActive, Active, OwnedBy;
    if step.QueueOriginate? || step.Signal? || step.PlaybackStarted? || step.SetStatus? {
      UpdateStepIsSame(w, step, id);
      hide Effect;
    } else {
      hide GenericEvent, ReleaseAgent, FinalizeCompleted, FinalizeCall, EndDialerCall;
      match step {
        case Generic(e) => GenericFollows(w.db, e, w.now, id);
        case ReleaseForPlayback(c) => ReleaseFollows(w.db, c, w.now, id);
        case PlaybackCompleted(c) => CompletedFollows(w.db, c, w.now, id);
        case Finalize(c, resolver, event, logWhenFinal) =>
          FinalizeFollows(w.db, c, resolver, event, logWhenFinal, w.now, id);
        case AgentEnds(c, user) => AgentEndFollows(w.db, c, user, w.now, id);
      }
    }
  }

  lemma RunTaskFollows(w: World, task: Task, k: CallId)
    requires CallsOk(w)
    ensures LegsFollow(w, RunTask(task), k)
  {
    hide FinalizeIncomplete, MarkReleased, FinishAgent, EndLegs, DropInProgress, Ended, RefsOk;
    if task in w.tasks {
      match task
      case EndDrop(id, failed, released, contact) =>
        IncompleteFollows(w.db, id, failed, released, contact, w.now, k);
      case ReleaseMark(id, agent) => MarkReleasedIsSame(w.db, id, w.now, k);
      case ReleaseLegs(id, agent) => SameCalls(w.db, CloseLegs(w.db, id, Some(AgentLeg), w.now), k);
      case ReleaseFinish(id, agent) => SameCalls(w.db, FinishAgent(w.db, Some(agent)), k);
      case _ =>
    }
  }

  lemma AnswerIsSame(w: World, task: Task, answer: DropAnswer, k: CallId)
    ensures Same(w.db, Answer(w, task, answer).db, k)
  {
    hide RevertDrop, Log;
    if task.SendDropCommands? {
      RevertIsSame(w.db, task.callId, task.claimedState, w.now, k);
    }
  }

  lemma TaskStepFollows(w: World, step: Step, k: CallId)
    requires CallsOk(w)
    requires step.ClaimVoicemail? || step.AnswerDrop? || step.ReadDrop? || step.RunTask? || step.LoseTask?
    ensures LegsFollow(w, step, k)
  {
    hide ClaimDrop, DropInProgress, Run, Answer, Ended, CallsOk;
    if step.RunTask? {
      RunTaskFollows(w, step.task, k);
      hide LegsFollow;
    } else if step.ClaimVoicemail? {
      ClaimIsSame(w.db, step.id, step.user, w.now, k);
    } else if step.AnswerDrop? {
      AnswerIsSame(w, step.task, step.answer, k);
    }
  }

  lemma StatementFollows(w: World, statement: Statement, k: CallId)
    ensures LegsFollow(w, Execute(statement), k)
  {
    hide Ended, StartAgentLeg, NameCustomerLeg;
    StatementFrame(w.db, statement);
    SameCalls(w.db, Executed(w.db, statement), k);
  }

  /** Neither calls nor legs. */
  ghost predicate RowsKept(a: Db, b: Db) {
    b.calls == a.calls && b.legs == a.legs
  }

  /** The steps about accounts, agents, leads and supervision, and the log of a hangup. */
  predicate IsSideStep(step: Step) {
    || step.LogHangup? || step.Reset? || step.Register? || step.Pause? || step.ChangeUser? || step.RemoveUser?
    || step.Supervise? || IsSessionStep(step)
  }

  lemma SideStepKeepsRows(w: World, step: Step)
    requires IsSideStep(step)
    ensures RowsKept(w.db, Effect(w, step).db)
  {
    if IsSessionStep(step) {
      hide Effect, IsSessionStep;
      SessionStepFrame(w, step);
    } else {
      hide LogTagged, CampaignBusy, OwnsActiveCall, HasLiveSession, HasOpenCall, RetireAgents;
    }
  }

  lemma SideStepFollows(w: World, step: Step, k: CallId)
    requires IsSideStep(step)
    ensures LegsFollow(w, step, k)
  {
    hide Effect;
    SideStepKeepsRows(w, step);
  }

  lemma StepFollows(w: World, step: Step, k: CallId)
    requires CallsOk(w) && !step.Create?
    ensures LegsFollow(w, step, k)
  {
    hide LegsFollow, CallsOk;
    if step.QueueOriginate? || step.Generic? || step.Signal? || step.PlaybackStarted? || step.ReleaseForPlayback?
       || step.PlaybackCompleted? || step.Finalize? || step.AgentEnds? || step.SetStatus? {
      CallStepFollows(w, step, k);
    } else if step.ClaimVoicemail? || step.AnswerDrop? || step.ReadDrop? || step.RunTask? || step.LoseTask? {
      TaskStepFollows(w, step, k);
    } else if step.Execute? {
      StatementFollows(w, step.statement, k);
    } else {
      SideStepFollows(w, step, k);
    }
  }

  // ---------------------------------------------------------------- the agent's leg, and only it

  predicate LegTold(leg: Leg, late: bool) {
    leg.endedAt.Some? && (leg.state == LegEnded <==> !(late && leg.kind == AgentLeg))
  }

  /** `late` says whether the agent's leg of an ended call is running again; every other leg of it is finished. */
  ghost predicate Told(db: Db, id: CallId, late: bool) {
    && (late ==> Ended(db, id))
    && (Ended(db, id) ==> forall l | l in db.legs && db.legs[l].callId == id :: LegTold(db.legs[l], late))
  }

  function NowLate(w: World, step: Step, id: CallId, late: bool): bool {
    StartsLate(w, step, id) || (late && !ClosesAgentLeg(w, step, id))
  }

  lemma AllClosedTold(a: Db, b: Db, id: CallId, target: CallId, now: Time, late: bool)
    requires Told(a, id, late) && b.legs == EndLegs(a.legs, target, None, now)
    requires Ended(b, id) ==> Ended(a, id) || id == target
    requires Ended(a, id) ==> Ended(b, id)
    ensures Told(b, id, late && id != target)
  {
    hide Ended;
  }

  lemma AgentClosedTold(a: Db, b: Db, id: CallId, target: CallId, now: Time, late: bool)
    requires Told(a, id, late) && b.legs == EndLegs(a.legs, target, Some(AgentLeg), now)
    requires Ended(b, id) <==> Ended(a, id)
    ensures Told(b, id, late && id != target)
  {
    hide Ended;
  }

  lemma AdvancedTold(a: Db, b: Db, id: CallId, e: TaggedEvent, now: Time, late: bool)
    requires Told(a, id, late) && b.legs == AdvanceLegs(a.legs, e, now)
    requires Ended(b, id) <==> Ended(a, id)
    ensures Told(b, id, late && !(e.callId == id && e.leg == AgentLeg && IsTerminalEvent(e.name)))
  {
    hide Ended;
  }

  lemma StartedTold(a: Db, b: Db, id: CallId, target: CallId, uuid: ChannelUuid, late: bool)
    requires Told(a, id, late) && b.legs == StartAgentLeg(a, target, uuid).legs
    requires Ended(b, id) <==> Ended(a, id)
    ensures Told(b, id, late || (Ended(a, id) && id == target))
  {
    hide Ended;
  }

  lemma NamedTold(a: Db, b: Db, id: CallId, target: CallId, uuid: ChannelUuid, late: bool)
    requires Told(a, id, late) && b.legs == NameCustomerLeg(a, target, uuid).legs
    requires Ended(b, id) <==> Ended(a, id)
    ensures Told(b, id, late)
  {
    hide Ended;
  }

  // ---------------------------------------------------------------- one step

  lemma StepKeepsEnded(w: World, step: Step, id: CallId)
    requires Inv(w)
    ensures Ended(w.db, id) ==> Ended(Effect(w, step).db, id)
  {
    hide Inv, Effect;
    StepKeepsInv(w, step);
  }

  lemma ReplayIsAnswered(w: World, id: CallId, resolver: Resolver, event: Option<CallEvent>, logWhenFinal: bool)
    requires CallsOk(w) && Ended(w.db, id)
    ensures FinalizeCall(w.db, id, resolver, event, logWhenFinal, w.now).1 == AlreadyFinalized
    ensures !DropInProgress(w.db, id) && !Active(w.db.calls[id])
  {
    assert CallRowOk(w.db.calls[id]);
    hide CallsOk, ReplayFinalized, FinalizeUnfinished;
  }

  /** Closing an ended call's legs is what the three cases say; an ending transaction finds the call not ended. */
  lemma ClosingSteps(w: World, step: Step, id: CallId)
    requires CallsOk(w)
    ensures ClosesLegs(w, step, id) ==> id == Target(step)
    ensures Ended(w.db, id) ==> (ClosesLegs(w, step, id) <==> step.Finalize? && step.id == id)
    ensures Ended(w.db, id) ==>
              (ClosesAgentLegOnly(w, step, id) <==>
                step.RunTask? && step.task in w.tasks && step.task.ReleaseLegs? && step.task.callId == id)
  {
    hide CallsOk, FinalizeCall, OwnedBy, Active, DropInProgress, Ended;
    if Ended(w.db, id) {
      if step.Finalize? {
        ReplayIsAnswered(w, id, step.resolver, step.event, step.logWhenFinal);
      } else {
        ReplayIsAnswered(w, id, KeepDecision, None, false);
      }
    }
  }

  /** What one step does to a call's legs, without the step. */
  ghost predicate Moves(w: World, step: Step, b: Db, id: CallId) {
    && (Ended(w.db, id) ==> Ended(b, id))
    && b.legs == LegsAfter(w, step)
    && (Ended(b, id) ==> Ended(w.db, id) || ClosesLegs(w, step, id))
    && (ClosesLegs(w, step, id) ==> id == Target(step))
    && (Ended(w.db, id) ==> (ClosesLegs(w, step, id) <==> step.Finalize? && step.id == id))
    && (Ended(w.db, id) ==>
          (ClosesAgentLegOnly(w, step, id) <==>
           step.RunTask? && step.task in w.tasks && step.task.ReleaseLegs? && step.task.callId == id))
  }

  lemma StepMoves(w: World, step: Step, id: CallId)
    requires Inv(w) && !step.Create?
    ensures Moves(w, step, Effect(w, step).db, id)
  {
    assert CallsOk(w);
    hide Inv, CallsOk, Effect, LegsAfter, ClosesLegs, ClosesAgentLegOnly, Ended, StartsLate;
    StepKeepsEnded(w, step, id);
    StepFollows(w, step, id);
    ClosingSteps(w, step, id);
  }

  lemma ClosingTells(w: World, step: Step, b: Db, id: CallId, late: bool)
    requires Moves(w, step, b, id) && Told(w.db, id, late) && ClosesLegs(w, step, Target(step))
    ensures Told(b, id, NowLate(w, step, id, late))
  {
    hide Ended, EndLegs, FinalizeCall, DropInProgress, OwnedBy, Active;
    assert NowLate(w, step, id, late) == (late && id != Target(step));
    hide NowLate, ClosesLegs, LegTold;
    AllClosedTold(w.db, b, id, Target(step), w.now, late);
  }

  lemma AgentClosingTells(w: World, step: Step, b: Db, id: CallId, late: bool)
    requires Moves(w, step, b, id) && Told(w.db, id, late) && !ClosesLegs(w, step, Target(step))
    requires ClosesAgentLegOnly(w, step, Target(step))
    ensures Told(b, id, NowLate(w, step, id, late))
  {
    hide Ended, EndLegs, ClosesLegs, DropInProgress, LegTold;
    assert NowLate(w, step, id, late) == (late && id != Target(step));
    hide NowLate, ClosesAgentLegOnly;
    AgentClosedTold(w.db, b, id, Target(step), w.now, late);
  }

  lemma EventTells(w: World, step: Step, b: Db, id: CallId, late: bool)
    requires Moves(w, step, b, id) && Told(w.db, id, late) && step.Generic?
    ensures Told(b, id, NowLate(w, step, id, late))
  {
    hide EndLegs, LegTold, AdvanceLegs;
    var e := step.e;
    if e.callId in w.db.calls && e.legUuid.Some? {
      AdvancedTold(w.db, b, id, e, w.now, late);
    }
  }

  lemma StatementTells(w: World, step: Step, b: Db, id: CallId, late: bool)
    requires Moves(w, step, b, id) && Told(w.db, id, late) && step.Execute?
    ensures Told(b, id, NowLate(w, step, id, late))
  {
    hide Ended, LegTold, StartAgentLeg, NameCustomerLeg;
    var statement := step.statement;
    if statement.AgentLegStarted? {
      StartedTold(w.db, b, id, statement.id, statement.uuid, late);
    } else if statement.CustomerLegNamed? {
      NamedTold(w.db, b, id, statement.id, statement.uuid, late);
    }
  }

  lemma QuietTells(w: World, step: Step, b: Db, id: CallId, late: bool)
    requires Moves(w, step, b, id) && Told(w.db, id, late) && !step.Generic? && !step.Execute?
    requires !ClosesLegs(w, step, Target(step)) && !ClosesAgentLegOnly(w, step, Target(step))
    ensures Told(b, id, NowLate(w, step, id, late))
  {
    hide Ended, LegTold, FinalizeCall, DropInProgress, OwnedBy, Active;
    assert late ==> !ClosesAgentLeg(w, step, id);
  }

  lemma MoveTells(w: World, step: Step, b: Db, id: CallId, late: bool)
    requires Moves(w, step, b, id) && Told(w.db, id, late)
    ensures Told(b, id, NowLate(w, step, id, late))
  {
    hide Moves, Told, NowLate, ClosesLegs, ClosesAgentLegOnly;
    if ClosesLegs(w, step, Target(step)) {
      ClosingTells(w, step, b, id, late);
    } else if ClosesAgentLegOnly(w, step, Target(step)) {
      AgentClosingTells(w, step, b, id, late);
    } else if step.Generic? {
      EventTells(w, step, b, id, late);
    } else if step.Execute? {
      StatementTells(w, step, b, id, late);
    } else {
      QuietTells(w, step, b, id, late);
    }
  }

  /** A new call has not ended, and its legs are not those of another. */
  lemma CreateTells(w: World, step: Step, id: CallId, late: bool)
    requires step.Create? && Told(w.db, id, late)
    ensures Told(Effect(w, step).db, id, late)
  {
    hide LegTold, CreateRefusal, SelectLead, Log, OccupiedAgent, AttemptedContact;
  }

  lemma StepTells(w: World, step: Step, id: CallId, late: bool)
    requires Inv(w) && Told(w.db, id, late)
    ensures Told(Apply(w, step).db, id, NowLate(w, step, id, late))
  {
    hide Inv, Effect, Told, Moves;
    if step.Create? {
      CreateTells(w, step, id, late);
    } else {
      StepMoves(w, step, id);
      MoveTells(w, step, Effect(w, step).db, id, late);
    }
  }

  // ---------------------------------------------------------------- every call has an agent's leg

  ghost predicate HasAgentLeg(legs: map<LegId, Leg>, id: CallId) {
    exists l :: l in legs && legs[l].callId == id && legs[l].kind == AgentLeg
  }

  lemma CreateAddsAgentLeg(w: World, step: Step, id: CallId)
    requires step.Create? && (id in w.db.calls ==> HasAgentLeg(w.db.legs, id)) && id in Effect(w, step).db.calls
    ensures HasAgentLeg(Effect(w, step).db.legs, id)
  {
    hide CreateRefusal, SelectLead, Log, OccupiedAgent, AttemptedContact, HasAgentLeg;
    var b := Effect(w, step).db;
    if id in w.db.calls {
      StillThere(w.db.legs, b.legs, id);
    } else {
      assert step.agentLeg in b.legs && b.legs[step.agentLeg].callId == id && b.legs[step.agentLeg].kind == AgentLeg;
      assert HasAgentLeg(b.legs, id) by {
        ThereIs(b.legs, step.agentLeg, id);
      }
    }
  }

  lemma ThereIs(legs: map<LegId, Leg>, l: LegId, id: CallId)
    requires l in legs && legs[l].callId == id && legs[l].kind == AgentLeg
    ensures HasAgentLeg(legs, id)
  {
  }

  lemma StillThere(a: map<LegId, Leg>, b: map<LegId, Leg>, id: CallId)
    requires HasAgentLeg(a, id) && SameLegs(a, b)
    ensures HasAgentLeg(b, id)
  {
  }

  lemma StepKeepsAgentLeg(w: World, step: Step, id: CallId)
    requires Inv(w) && (id in w.db.calls ==> HasAgentLeg(w.db.legs, id)) && id in Apply(w, step).db.calls
    ensures HasAgentLeg(Apply(w, step).db.legs, id)
  {
    hide Inv, Effect, Moves, HasAgentLeg;
    if step.Create? {
      CreateAddsAgentLeg(w, step, id);
    } else {
      StepMoves(w, step, id);
      OtherStepsKeepCallSet(w, step);
      LegsStay(w, step, Effect(w, step).db, id);
      StillThere(w.db.legs, Effect(w, step).db.legs, id);
    }
  }

  ghost predicate SameLegs(a: map<LegId, Leg>, b: map<LegId, Leg>) {
    forall l | l in a :: l in b && b[l].callId == a[l].callId && b[l].kind == a[l].kind
  }

  lemma TablesStay(db: Db, id: CallId, only: Option<LegKind>, e: TaggedEvent, uuid: ChannelUuid, now: Time)
    ensures SameLegs(db.legs, EndLegs(db.legs, id, only, now)) && SameLegs(db.legs, AdvanceLegs(db.legs, e, now))
    ensures SameLegs(db.legs, StartAgentLeg(db, id, uuid).legs) && SameLegs(db.legs, NameCustomerLeg(db, id, uuid).legs)
  {
  }

  lemma LegsStay(w: World, step: Step, b: Db, id: CallId)
    requires Moves(w, step, b, id)
    ensures SameLegs(w.db.legs, b.legs)
  {
    hide ClosesLegs, ClosesAgentLegOnly, Ended, EndLegs, AdvanceLegs, StartAgentLeg, NameCustomerLeg, SameLegs;
    var e := if step.Generic? then step.e else TaggedEvent(0, ChannelCreate, AgentLeg, None, None, OtherCause);
    TablesStay(w.db, Target(step), None, e, 0, w.now);
    TablesStay(w.db, Target(step), Some(AgentLeg), e, 0, w.now);
    if step.Execute? && (step.statement.AgentLegStarted? || step.statement.CustomerLegNamed?) {
      TablesStay(w.db, step.statement.id, None, e, step.statement.uuid, w.now);
    }
    TableStays(w.db.legs);
  }

  lemma TableStays(legs: map<LegId, Leg>)
    ensures SameLegs(legs, legs)
  {
  }

  // ---------------------------------------------------------------- the theorem

  ghost predicate Accounted(w: World, id: CallId, late: bool) {
    Inv(w) && Told(w.db, id, late) && (id in w.db.calls ==> HasAgentLeg(w.db.legs, id))
  }

  lemma {:induction false} RunTells(first: World, steps: seq<Step>, id: CallId)
    requires Initial(first)
    ensures Accounted(RunSteps(first, steps), id, StartedLate(first, steps, id))
    decreases |steps|
  {
    hide Inv, Told, HasAgentLeg, Apply, RunSteps, Initial;
    if steps == [] {
      EmptyRun(first);
      InitialSatisfiesInv(first);
      InitialIsAccounted(first, id);
    } else {
      var init := steps[..|steps| - 1];
      var before := RunSteps(first, init);
      var step := steps[|steps| - 1];
      RunTells(first, init, id);
      RunEndsWithStep(first, steps);
      StepKeepsInv(before, step);
      StepTells(before, step, id, StartedLate(first, init, id));
      if id in Apply(before, step).db.calls {
        StepKeepsAgentLeg(before, step, id);
      }
      assert StartedLate(first, steps, id) == NowLate(before, step, id, StartedLate(first, init, id));
    }
  }

  lemma InitialIsAccounted(first: World, id: CallId)
    requires Initial(first)
    ensures Told(first.db, id, false) && id !in first.db.calls
  {
  }

  /**
   In every run from an initial state: an ended call has an unfinished leg if and only
   if its agent's leg was started after the end and nothing has closed it since, and
   then that leg, once ended and running again, is the unfinished one.
   */
  lemma UnfinishedLegIff(first: World, steps: seq<Step>, id: CallId)
    requires Initial(first)
    requires var w := RunSteps(first, steps); id in w.db.calls && w.db.calls[id].endedAt.Some?
    ensures var w := RunSteps(first, steps);
            (exists l :: l in w.db.legs && LegUnfinished(w.db.legs[l], id)) <==> StartedLate(first, steps, id)
    ensures var w := RunSteps(first, steps);
            forall l | l in w.db.legs && LegUnfinished(w.db.legs[l], id) ::
              w.db.legs[l].kind == AgentLeg && w.db.legs[l].endedAt.Some? && w.db.legs[l].state != LegEnded
  {
    RunTells(first, steps, id);
    hide Inv, RunSteps, StartedLate, Initial;
    var w := RunSteps(first, steps);
    forall l | l in w.db.legs && w.db.legs[l].callId == id
      ensures LegUnfinished(w.db.legs[l], id) <==> StartedLate(first, steps, id) && w.db.legs[l].kind == AgentLeg
    {
      assert LegTold(w.db.legs[l], StartedLate(first, steps, id));
    }
  }

  // ---------------------------------------------------------------- what the repair finds

  /**
   In every run the repair has no outcome to decide: each candidate is a final call
   whose agent's leg was started after its end, or whose agent waits for a release
   that is under way or was lost.
   */
  lemma RepairOnlyFinishesReleases(first: World, steps: seq<Step>, id: CallId)
    requires Initial(first) && Candidate(RunSteps(first, steps).db, id)
    ensures var w := RunSteps(first, steps);
            && IsFinalized(w.db.calls[id])
            && (|| StartedLate(first, steps, id)
                || (&& AgentStranded(w.db, id)
                    && var a := w.db.calls[id].agentId.value;
                       LostSince(first, steps, a) || exists t :: t in w.tasks && WillFinish(t, a)))
  {
    var w := RunSteps(first, steps);
    CandidateIs(first, steps, id);
    hide RunSteps, Initial, Candidate, StartedLate, LostSince, AgentStranded, WillFinish, IsFinalized;
    if AgentStranded(w.db, id) {
      StrandedMeans(first, steps, id);
    }
  }

  lemma RunHasInv(first: World, steps: seq<Step>)
    requires Initial(first)
    ensures Inv(first) && Inv(RunSteps(first, steps)) && first.lost == {}
  {
    hide Inv, RunSteps;
    InitialSatisfiesInv(first);
    RunKeepsInvariant(first, steps);
  }

  lemma RowIsOk(w: World, id: CallId)
    requires Inv(w) && id in w.db.calls
    ensures CallRowOk(w.db.calls[id]) && RefsOk(w.db, w.db.calls[id])
    ensures Over(w.db.calls[id]) == IsFinalized(w.db.calls[id]) == w.db.calls[id].endedAt.Some?
  {
    hide LeadsOk, AttemptsOk, AgentsOk, AgentsFreed, TasksOk, UsersOk, RefsOk;
    assert CallRowOk(w.db.calls[id]) && RefsOk(w.db, w.db.calls[id]);
  }

  /** Of the query's conditions only the legs and the agent are left. */
  lemma CandidateIs(first: World, steps: seq<Step>, id: CallId)
    requires Initial(first)
    ensures var w := RunSteps(first, steps);
            Candidate(w.db, id) <==> Ended(w.db, id) && (StartedLate(first, steps, id) || AgentStranded(w.db, id))
    ensures Ended(RunSteps(first, steps).db, id) ==> IsFinalized(RunSteps(first, steps).db.calls[id])
  {
    RunHasInv(first, steps);
    var w := RunSteps(first, steps);
    hide RunSteps, Initial, StartedLate, LegUnfinished, AgentStranded, LeadStranded, Inv;
    if id in w.db.calls {
      RowIsOk(w, id);
      hide CallRowOk, RefsOk;
      if Over(w.db.calls[id]) {
        NoLeadStranded(w, id);
        UnfinishedLegIff(first, steps, id);
      }
    }
  }

  lemma StrandedMeans(first: World, steps: seq<Step>, id: CallId)
    requires Initial(first) && id in RunSteps(first, steps).db.calls && AgentStranded(RunSteps(first, steps).db, id)
    ensures var w := RunSteps(first, steps);
            && w.db.calls[id].agentId.Some?
            && var a := w.db.calls[id].agentId.value;
               LostSince(first, steps, a) || exists t :: t in w.tasks && WillFinish(t, a)
  {
    RunHasInv(first, steps);
    var w := RunSteps(first, steps);
    var a := w.db.calls[id].agentId.value;
    LostIsHistory(first, steps, a);
    hide RunSteps, Initial, LostSince, CallsOk, LeadsOk, AttemptsOk, AgentsOk, TasksOk, UsersOk, WillFinish;
    ActiveMeansOccupied(w.db.calls, a);
    hide Occupies, HasActiveCall;
  }

  /**
   The repair's candidates in every run, exactly: with no release of its agent under
   way, an ended call is one if and only if its agent's leg was started after the end
   and not closed since, or a release of its agent was lost, nobody has freed it since
   and no call needs it.
   */
  lemma RepairFindsExactly(first: World, steps: seq<Step>, id: CallId, a: AgentId)
    requires Initial(first) && id in RunSteps(first, steps).db.calls
    requires RunSteps(first, steps).db.calls[id].agentId == Some(a)
    requires forall t | t in RunSteps(first, steps).tasks :: !WillFinish(t, a)
    ensures var w := RunSteps(first, steps);
            Candidate(w.db, id) <==>
              && w.db.calls[id].endedAt.Some?
              && (StartedLate(first, steps, id) || (!OnPhone(w.db.calls, a) && LostSince(first, steps, a)))
  {
    var w := RunSteps(first, steps);
    RunHasInv(first, steps);
    CandidateIs(first, steps, id);
    RowIsOk(w, id);
    OnPhoneIsActive(w.db.calls, a);
    hide RunSteps, Initial, Candidate, StartedLate, LostSince, WillFinish, Inv, HasActiveCall, OnPhone, CallRowOk, LegUnfinished;
    if !HasActiveCall(w.db.calls, a) {
      AgentsAreFreed(first, steps, a);
    }
  }
}
