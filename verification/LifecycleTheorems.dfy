/**
 What holds of every state any interleaving of the dialer's steps can reach, in
 the terms of the code's own promises.
 */
module LifecycleTheorems {
  import opened Wrappers
  import opened DialerDb
  import opened CallActions
  import opened ChannelEvents
  import opened Finalization
  import opened VoicemailDrop
  import opened UserAccess
  import opened ConsistencyRepair
  import opened Lifecycle
  import opened LifecycleTransactions
  import opened LifecycleInvariant
  import opened AgentFreeing
  import opened Terms
  import opened TransactionEffects

  /** A state some run from an initial database reaches. */
  ghost predicate Reachable(w: World) {
    exists first, steps :: Initial(first) && RunSteps(first, steps) == w
  }

  lemma ReachableSatisfiesInv(w: World)
    requires Reachable(w)
    ensures Inv(w)
  {
    hide Inv, Initial;
    var first, steps :| Initial(first) && RunSteps(first, steps) == w;
    InitialSatisfiesInv(first);
    RunKeepsInvariant(first, steps);
  }

  /** End time, terminal state and outcome come together, and "failed" means the same in both columns. */
  lemma EndedRowsAgree(w: World, c: CallId)
    requires Reachable(w) && c in w.db.calls
    ensures w.db.calls[c].endedAt.Some? <==> IsTerminal(w.db.calls[c].state)
    ensures w.db.calls[c].endedAt.Some? <==> w.db.calls[c].outcome.Some?
    ensures w.db.calls[c].state == Failed <==> w.db.calls[c].outcome == Some(CallFailed)
  {
    ReachableSatisfiesInv(w);
    hide LeadsOk, AttemptsOk, AgentsOk, AgentsFreed, TasksOk, UsersOk, RefsOk, Reachable;
    assert CallRowOk(w.db.calls[c]);
  }

  /**
   After a call has ended its end time never changes, and its state and outcome
   change at most once: whatever the first part of the future did, either it left
   them alone or the rest of the future does. Once locked they never change.
   */
  lemma EndIsFinal(w: World, first: seq<Step>, second: seq<Step>, c: CallId)
    requires Reachable(w) && c in w.db.calls && w.db.calls[c].endedAt.Some?
    ensures var middle := RunSteps(w, first); var last := RunSteps(middle, second);
            && c in middle.db.calls && c in last.db.calls
            && var (x, y, z) := (w.db.calls[c], middle.db.calls[c], last.db.calls[c]);
               && x.endedAt == y.endedAt == z.endedAt
               && ((x.state == y.state && x.outcome == y.outcome) || (y.state == z.state && y.outcome == z.outcome))
               && (x.lockedAt.Some? ==> x.state == y.state && x.outcome == y.outcome)
  {
    hide Inv, Reachable, RunSteps;
    ReachableSatisfiesInv(w);
    RunKeepsInvariant(w, first);
    RunKeepsInvariant(RunSteps(w, first), second);
  }

  /** A lead is "calling" exactly while a call that has not ended holds it, and never two calls hold one lead. */
  lemma LeadsAreReserved(w: World, k: ContactId)
    requires Reachable(w) && k in w.db.contacts
    ensures w.db.contacts[k].status == Calling <==>
            exists c :: c in w.db.calls && w.db.calls[c].endedAt.None? && w.db.calls[c].contactId == Some(k)
    ensures forall c, d | c in w.db.calls && d in w.db.calls
                          && w.db.calls[c].endedAt.None? && w.db.calls[d].endedAt.None?
                          && w.db.calls[c].contactId == Some(k) && w.db.calls[d].contactId == Some(k) :: c == d
  {
    ReachableSatisfiesInv(w);
    hide AttemptsOk, AgentsOk, AgentsFreed, TasksOk, UsersOk, RefsOk, Reachable;
    assert forall c | c in w.db.calls :: CallRowOk(w.db.calls[c]);
    assert forall c :: Holds(w.db.calls, c, k) <==>
                         c in w.db.calls && w.db.calls[c].endedAt.None? && w.db.calls[c].contactId == Some(k);
  }

  /** The attempt counter counts the calls created for the lead since its campaign's leads were last reset. */
  lemma AttemptsCountCalls(w: World, k: ContactId)
    requires Reachable(w) && k in w.db.contacts
    ensures w.db.contacts[k].attempts == |Attempts(w.db.calls, k, Since(w.lastReset, w.db.contacts[k].campaignId))|
  {
    ReachableSatisfiesInv(w);
    hide CallsOk, LeadsOk, AgentsOk, AgentsFreed, TasksOk, UsersOk, Reachable, Attempts;
  }

  /** No agent is needed by two calls; an agent that one needs is "in_call". */
  lemma AgentsAreExclusive(w: World, c: CallId, d: CallId, a: AgentId)
    requires Reachable(w) && c in w.db.calls && NeedsAgent(w.db.calls[c]) && w.db.calls[c].agentId == Some(a)
    ensures a in w.db.agents && w.db.agents[a].status == InCall
    ensures d in w.db.calls && NeedsAgent(w.db.calls[d]) && w.db.calls[d].agentId == Some(a) ==> c == d
  {
    ReachableSatisfiesInv(w);
    RunningIsOpen(w.db.calls[c]);
    hide CallsOk, LeadsOk, AttemptsOk, AgentsFreed, TasksOk, UsersOk, Reachable, Active, NeedsAgent;
    assert Occupies(w.db.calls, c, a);
    if d in w.db.calls && NeedsAgent(w.db.calls[d]) && w.db.calls[d].agentId == Some(a) {
      RunningIsOpen(w.db.calls[d]);
      assert Occupies(w.db.calls, d, a);
    }
  }

  /** The step that loses a release of this agent between its mark and its last statement. */
  predicate LosesRelease(w: World, step: Step, a: AgentId) {
    step.LoseTask? && step.task in w.tasks && WillFinish(step.task, a)
  }

  /** Some step of the run lost a release of the agent while it was "in_call", and no later step has freed it. */
  ghost predicate LostSince(first: World, steps: seq<Step>, a: AgentId)
    decreases |steps|
  {
    && steps != []
    && var before := RunSteps(first, steps[..|steps| - 1]);
       var step := steps[|steps| - 1];
       || (LosesRelease(before, step, a) && IsInCall(before.db, a))
       || (LostSince(first, steps[..|steps| - 1], a) && !Frees(before, step, a))
  }

  lemma {:induction false} RunEndsWithStep(w: World, steps: seq<Step>)
    requires steps != []
    ensures RunSteps(w, steps) == Apply(RunSteps(w, steps[..|steps| - 1]), steps[|steps| - 1])
    decreases |steps|
  {
    hide Apply;
    if |steps| == 1 {
      assert steps[1..] == [] && steps[..0] == [];
      assert RunSteps(Apply(w, steps[0]), []) == Apply(w, steps[0]);
    } else {
      RunEndsWithStep(Apply(w, steps[0]), steps[1..]);
      assert steps[1..][..|steps[1..]| - 1] == steps[..|steps| - 1][1..];
    }
  }

  lemma TasksKeepLost(w: World, id: CallId, user: UserId, task: Task, answer: DropAnswer, failed: bool, timedOut: bool)
    ensures Claim(w, id, user).lost == Answer(w, task, answer).lost == Read(w, id, failed, timedOut).lost == w.lost
    ensures Run(w, task).lost == w.lost
  {
    hide ClaimDrop, RevertDrop, Log, DropInProgress, FinalizeIncomplete, MarkReleased, CloseLegs, FinishAgent;
  }

  lemma LoseRecords(w: World, task: Task, a: AgentId)
    ensures a in Lose(w, task).lost <==> a in w.lost || (task in w.tasks && WillFinish(task, a))
  {
  }

  lemma OnlyLossesAreRecorded(w: World, step: Step, a: AgentId)
    ensures a in Effect(w, step).lost <==> a in w.lost || LosesRelease(w, step, a)
  {
    hide WillFinish;
    if step.LoseTask? {
      LoseRecords(w, step.task, a);
    } else if step.ClaimVoicemail? || step.AnswerDrop? || step.ReadDrop? || step.RunTask? {
      var id := if step.ClaimVoicemail? || step.ReadDrop? then step.id else 0;
      var task := if step.AnswerDrop? || step.RunTask? then step.task else ReleaseFinish(0, 0);
      TasksKeepLost(w, id, if step.ClaimVoicemail? then step.user else 0, task,
                    if step.AnswerDrop? then step.answer else TransferUnclear,
                    step.ReadDrop? && step.failed, step.ReadDrop? && step.timedOut);
    } else {
      OthersKeepLost(w, step);
    }
  }

  lemma OthersKeepLost(w: World, step: Step)
    requires !step.LoseTask? && !step.ClaimVoicemail? && !step.AnswerDrop? && !step.ReadDrop? && !step.RunTask?
    ensures Effect(w, step).lost == w.lost
  {
    hide GenericEvent, FinalizeCall, VoicemailSignal, MarkPlaybackStarted, ReleaseAgent, FinalizeCompleted,
      EndDialerCall, SetManualStatus, UpdateUser, DeleteUser, StartSession, Log, CreateDialerCall, ResetCampaign;
  }

  /** Losing a task changes no row, so it takes no agent out of its call. */
  lemma LosingFreesNobody(w: World, step: Step, a: AgentId)
    requires LosesRelease(w, step, a)
    ensures Apply(w, step).db == w.db
  {
  }

  /** The recorded set holds agents that are "in_call", and is that history. */
  ghost predicate Recorded(w: World, a: AgentId, lost: bool) {
    Inv(w) && (a in w.lost <==> lost) && (lost ==> IsInCall(w.db, a))
  }

  lemma StepRecords(w: World, step: Step, a: AgentId, lost: bool)
    requires Recorded(w, a, lost)
    ensures Recorded(Apply(w, step), a,
                     (LosesRelease(w, step, a) && IsInCall(w.db, a)) || (lost && !Frees(w, step, a)))
  {
    hide Inv, Effect, LosesRelease, Frees;
    StepKeepsInv(w, step);
    OnlyLossesAreRecorded(w, step, a);
    if LosesRelease(w, step, a) {
      LosingFreesNobody(w, step, a);
    }
    if IsInCall(w.db, a) {
      InCallUntilFreed(w, step, a);
    }
  }

  lemma {:induction false} RunRecords(first: World, steps: seq<Step>, a: AgentId)
    requires Inv(first) && first.lost == {}
    ensures Recorded(RunSteps(first, steps), a, LostSince(first, steps, a))
    decreases |steps|
  {
    hide Inv, Apply, LosesRelease, RunSteps, IsInCall, Frees, Recorded;
    if steps == [] {
      EmptyRun(first);
      assert Recorded(first, a, false) by { NothingRecorded(first, a); }
    } else {
      var init := steps[..|steps| - 1];
      RunRecords(first, init, a);
      RunEndsWithStep(first, steps);
      StepRecords(RunSteps(first, init), steps[|steps| - 1], a, LostSince(first, init, a));
    }
  }

  lemma NothingRecorded(first: World, a: AgentId)
    requires Inv(first) && first.lost == {}
    ensures Recorded(first, a, false)
  {
    hide Inv;
  }

  lemma LostIsHistory(first: World, steps: seq<Step>, a: AgentId)
    requires Inv(first) && first.lost == {}
    ensures a in RunSteps(first, steps).lost <==> LostSince(first, steps, a)
    ensures LostSince(first, steps, a) ==> IsInCall(RunSteps(first, steps).db, a)
  {
    hide Inv, RunSteps, LostSince, IsInCall;
    RunRecords(first, steps, a);
  }

  lemma EmptyRun(w: World)
    ensures RunSteps(w, []) == w
  {
  }

  /**
   When no release of the agent is under way: without a call that needs it, it is "in_call"
   exactly if a release of it was lost half way and no step has freed it since, by
   finishing it while no call needs it or by retiring its user.
   */
  lemma AgentsAreFreed(first: World, steps: seq<Step>, a: AgentId)
    requires Initial(first) && a in RunSteps(first, steps).db.agents
    requires !OnPhone(RunSteps(first, steps).db.calls, a)
    requires forall t | t in RunSteps(first, steps).tasks :: !WillFinish(t, a)
    ensures RunSteps(first, steps).db.agents[a].status == InCall <==> LostSince(first, steps, a)
  {
    var w := RunSteps(first, steps);
    hide RunSteps, CallsOk, LeadsOk, AttemptsOk, AgentsOk, TasksOk, UsersOk, Reachable, Occupies, HasActiveCall, WillFinish;
    assert Reachable(w) by { RunIsReachable(first, steps); }
    ReachableSatisfiesInv(w);
    assert Inv(first) by { InitialSatisfiesInv(first); }
    LostIsHistory(first, steps, a);
    ActiveMeansOccupied(w.db.calls, a);
    OnPhoneIsActive(w.db.calls, a);
    hide LostSince, OnPhone;
  }

  lemma RunIsReachable(first: World, steps: seq<Step>)
    requires Initial(first)
    ensures Reachable(RunSteps(first, steps))
  {
    hide Initial, RunSteps;
  }

  /** The repair of an ended call frees its agent, lost release or not, unless another call needs it. */
  lemma RepairFreesTheAgent(w: World, id: CallId, a: AgentId)
    requires id in w.db.calls && IsFinalized(w.db.calls[id]) && w.db.calls[id].agentId == Some(a)
    requires a in w.db.agents && !OnPhone(w.db.calls, a)
    ensures var after := Apply(w, Finalize(id, KeepDecision, None, false));
            a in after.db.agents && after.db.agents[a].status != InCall && a !in after.lost
  {
    OnPhoneIsActive(w.db.calls, a);
    hide HasActiveCall, HasOtherOpenCall, OnPhone;
    assert Effect(w, Finalize(id, KeepDecision, None, false)).db == Cleanup(w.db, id, w.now);
  }

  /** Registration and status never contradict each other: a registered agent is not shown "offline". */
  lemma RegisteredIsNeverOffline(w: World, a: AgentId)
    requires Reachable(w) && a in w.db.agents && w.db.agents[a].registered
    ensures w.db.agents[a].status != Offline
  {
    ReachableSatisfiesInv(w);
    hide CallsOk, LeadsOk, AttemptsOk, AgentsFreed, TasksOk, UsersOk, Reachable, Occupies;
  }

  /** Calling and supervising exclude each other; only active admins supervise, and only active users call. */
  lemma CallingExcludesSupervising(w: World, u: UserId)
    requires Reachable(w)
    ensures !(OnACall(w.db, u) && Supervising(w.db.sessions, u))
    ensures OnACall(w.db, u) ==> u in w.db.users && w.db.users[u].active
    ensures Supervising(w.db.sessions, u) ==> u in w.db.users && w.db.users[u].active && w.db.users[u].role == AdminRole
    ensures forall s, r | s in w.db.sessions && r in w.db.sessions
                          && w.db.sessions[s].actor == u && w.db.sessions[r].actor == u
                          && w.db.sessions[s].state in {Connecting, Live} && w.db.sessions[r].state in {Connecting, Live} :: s == r
  {
    ReachableSatisfiesInv(w);
    LiveSessionCounts(w.db, u);
    UserIsBusy(w.db, u);
    hide CallsOk, LeadsOk, AttemptsOk, AgentsOk, AgentsFreed, TasksOk, Reachable, Active, OwnedBy, HasLiveSession,
      OnACall, Supervising;
    assert forall s | s in w.db.sessions && w.db.sessions[s].actor == u && w.db.sessions[s].state in {Connecting, Live} ::
        LiveFor(w.db.sessions, s, u);
  }

  lemma NoLeadStranded(w: World, id: CallId)
    requires Inv(w) && id in w.db.calls && Over(w.db.calls[id])
    ensures !LeadStranded(w.db, id)
  {
    hide AttemptsOk, AgentsOk, AgentsFreed, TasksOk, UsersOk, RefsOk;
    assert CallRowOk(w.db.calls[id]);
    var contact := w.db.calls[id].contactId;
    if contact.Some? && contact.value in w.db.contacts && w.db.contacts[contact.value].status == Calling {
      var c :| Holds(w.db.calls, c, contact.value);
      assert HasOtherOpenCall(w.db.calls, contact.value, id);
    }
  }

  // ---------------------------------------------------------------- where calls come from

  lemma DropsKeepCallSet(w: World, id: CallId, user: UserId, task: Task, answer: DropAnswer, failed: bool,
                         timedOut: bool)
    ensures Claim(w, id, user).db.calls.Keys == w.db.calls.Keys
    ensures Answer(w, task, answer).db.calls.Keys == w.db.calls.Keys
    ensures Read(w, id, failed, timedOut).db.calls.Keys == w.db.calls.Keys
    ensures Lose(w, task).db.calls.Keys == w.db.calls.Keys
  {
    hide ClaimDrop, RevertDrop, Log, DropInProgress;
    ClaimFrame(w.db, id, user, Bridged, w.now);
    if task.SendDropCommands? {
      ClaimFrame(w.db, task.callId, 0, task.claimedState, w.now);
    }
  }

  lemma TaskStepKeepsCallSet(w: World, step: Step)
    requires step.ClaimVoicemail? || step.AnswerDrop? || step.ReadDrop? || step.RunTask? || step.LoseTask?
    ensures Apply(w, step).db.calls.Keys == w.db.calls.Keys
  {
    hide Claim, Answer, Read, Run, Lose;
    var id := if step.ClaimVoicemail? || step.ReadDrop? then step.id else 0;
    var user := if step.ClaimVoicemail? then step.user else 0;
    var task := if step.AnswerDrop? || step.RunTask? || step.LoseTask? then step.task else ReleaseFinish(0, 0);
    var answer := if step.AnswerDrop? then step.answer else TransferUnclear;
    DropsKeepCallSet(w, id, user, task, answer, step.ReadDrop? && step.failed, step.ReadDrop? && step.timedOut);
    RunKeepsCallSet(w, task);
  }

  lemma RunKeepsCallSet(w: World, task: Task)
    ensures Run(w, task).db.calls.Keys == w.db.calls.Keys
  {
    hide FinalizeIncomplete, MarkReleased, FinishAgent, CloseLegs;
    if task.EndDrop? {
      IncompleteFrame(w.db, task.callId, task.failed, task.agentReleased, task.contact, w.now);
    }
    MarkReleasedFrame(w.db, task.callId, w.now);
  }

  lemma CallStepKeepsCallSet(w: World, step: Step)
    requires step.QueueOriginate? || step.Generic? || step.Signal? || step.PlaybackStarted? || step.ReleaseForPlayback?
             || step.PlaybackCompleted? || step.Finalize? || step.AgentEnds? || step.SetStatus?
    ensures Apply(w, step).db.calls.Keys == w.db.calls.Keys
  {
    hide GenericEvent, MarkPlaybackStarted, ReleaseAgent, FinalizeCompleted, FinalizeCall, UpdateCall, FinishAgent,
      CloseLegs, Log,
      ReturnLead, PutCall, Active, OwnedBy;
    match step {
      case Generic(e) => GenericFrame(w.db, e, w.now);
      case PlaybackStarted(id) => MarkStartedFrame(w.db, id, w.now);
      case ReleaseForPlayback(id) => ReleaseFrame(w.db, id, w.now);
      case PlaybackCompleted(id) => CompletedFrame(w.db, id, w.now);
      case Finalize(id, resolver, event, logWhenFinal) => FinalizeFrame(w.db, id, resolver, event, logWhenFinal, w.now);
      case AgentEnds(id, user) => AgentEndKeepsCallSet(w.db, id, user, w.now);
      case SetStatus(id, user, outcome) => ManualKeepsCallSet(w.db, id, user, outcome, w.now);
      case _ =>
    }
  }

  lemma AgentEndKeepsCallSet(db: Db, id: CallId, user: UserId, now: Time)
    ensures EndDialerCall(db, id, user, now).0.calls.Keys == db.calls.Keys
  {
    hide FinishAgent, CloseLegs, Log, ReturnLead;
  }

  lemma ManualKeepsCallSet(db: Db, id: CallId, user: UserId, outcome: Outcome, now: Time)
    ensures SetManualStatus(db, id, user, outcome, now).0.calls.Keys == db.calls.Keys
  {
    hide Log;
  }

  /**
   Nothing but createDialerCall brings a call into being, and a new call obeys every
   rule: in particular no lead on the suppression list, in a stopped campaign, already
   being called or out of attempts is ever dialed.
   */
  lemma NewCallsObeyTheRules(w: World, step: Step, c: CallId)
    requires c !in w.db.calls && c in Apply(w, step).db.calls
    ensures step.Create? && step.id == c
    ensures MayDial(w.db, step.actor, step.agent, step.policy, w.now, LeadOf(step.lead),
                    step.lead.ChosenLead? && step.lead.confirmCompleted, step.lead.ChosenLead? && step.lead.confirmRetryWait)
    ensures w.db.agents[step.agent].userId == step.actor
    ensures Apply(w, step).db.calls[c].contactId == LeadOf(step.lead)
    ensures Apply(w, step).db.calls[c].agentId == Some(step.agent)
  {
    if step.Create? {
      CallStartsIffAllowed(w.db, step.actor, step.agent, step.lead, step.policy, step.id, step.agentLeg,
                           step.customerLeg, w.now);
      hide HasActiveCall, HasLiveSession, MayDial, Log;
    } else {
      hide HasActiveCall, HasLiveSession, MayDial, Claim, Answer, Read, Run, Lose, CreateDialerCall;
      OtherStepsKeepCallSet(w, step);
    }
  }

  lemma OtherStepsKeepCallSet(w: World, step: Step)
    requires !step.Create?
    ensures Apply(w, step).db.calls.Keys == w.db.calls.Keys
  {
    if step.ClaimVoicemail? || step.AnswerDrop? || step.ReadDrop? || step.RunTask? || step.LoseTask? {
      TaskStepKeepsCallSet(w, step);
    } else if step.QueueOriginate? || step.Generic? || step.Signal? || step.PlaybackStarted? || step.ReleaseForPlayback?
              || step.PlaybackCompleted? || step.Finalize? || step.AgentEnds? || step.SetStatus? {
      CallStepKeepsCallSet(w, step);
    } else {
      hide Log, CampaignBusy, OwnsActiveCall, HasLiveSession, HasOpenCall, RetireAgents, Executed;
      if step.Execute? {
        StatementFrame(w.db, step.statement);
      }
    }
  }
}
