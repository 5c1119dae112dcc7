/**
 The run that strands an agent: a voicemail drop releases the agent's leg and marks
 the call released, and the operation is lost before it frees the agent.
 */
module LostRelease {
  import opened Wrappers
  import opened DialerDb
  import opened Finalization
  import opened ChannelEvents
  import opened CallActions
  import opened UserAccess
  import opened VoicemailDrop
  import opened Lifecycle
  import opened LifecycleTheorems

  const START := World(
    Db(map[], map[], map[], map[0 := Agent(0, Ready, Available, true)], map[0 := User(true, AgentRole)], map[],
       map[0 := true], {}, [], false),
    multiset{}, map[], {}, 0)

  const STEPS: seq<Step> := [
    Create(0, 0, ManualNumber(0), RetryPolicy(1, 0), 0, 0, 1),
    Generic(TaggedEvent(0, ChannelBridge, CustomerLeg, None, None, OtherCause)),
    ClaimVoicemail(0, 0),
    AnswerDrop(SendDropCommands(0, 0, Bridged), AgentLegGone),
    RunTask(ReleaseMark(0, 0)),
    LoseTask(ReleaseLegs(0, 0))
  ]

  /** One call of agent 0 in this state, its agent "in_call", nothing lost, and these operations suspended. */
  ghost predicate At(w: World, state: CallState, tasks: multiset<Task>) {
    && w.db.calls.Keys == {0} && w.db.agents.Keys == {0}
    && w.db.calls[0].state == state && w.db.calls[0].endedAt.None? && w.db.calls[0].lockedAt.None?
    && w.db.calls[0].agentId == Some(0)
    && w.db.agents[0].status == InCall && w.db.agents[0].userId == 0
    && w.lost == {} && w.tasks == tasks
  }

  lemma CallStarts()
    ensures At(Apply(START, STEPS[0]), CustomerDialing, multiset{})
  {
    CallStartsIffAllowed(START.db, 0, 0, ManualNumber(0), RetryPolicy(1, 0), 0, 0, 1, 0);
    assert !HasActiveCall(START.db.calls, 0) && !HasLiveSession(START.db.sessions, 0);
    hide Log;
  }

  lemma BridgePasses(db: Db, now: Time)
    requires 0 in db.calls && db.calls[0].state == CustomerDialing && db.calls[0].endedAt.None? && db.calls[0].lockedAt.None?
    ensures var after := GenericEvent(db, STEPS[1].e, now);
            && after.agents == db.agents && after.calls.Keys == db.calls.Keys && 0 in after.calls
            && after.calls[0].state == Bridged
            && after.calls[0] == db.calls[0].(state := Bridged, answeredAt := after.calls[0].answeredAt, updatedAt := now)
  {
    hide LogTagged, TouchLegs;
  }

  lemma CallBridges(w: World)
    requires At(w, CustomerDialing, multiset{})
    ensures At(Apply(w, STEPS[1]), Bridged, multiset{})
  {
    BridgePasses(w.db, w.now);
    hide GenericEvent;
  }

  lemma ClaimPasses(db: Db, now: Time)
    requires 0 in db.calls && db.calls[0].state == Bridged && db.calls[0].endedAt.None? && db.calls[0].lockedAt.None?
    requires db.calls[0].agentId == Some(0) && 0 in db.agents && db.agents[0].userId == 0
    ensures var after := ClaimDrop(db, 0, 0, now);
            && after.agents == db.agents && after.calls.Keys == db.calls.Keys && 0 in after.calls
            && after.calls[0].state == VoicemailDropRequested && after.calls[0].agentId == Some(0)
            && after.calls[0].endedAt.None? && after.calls[0].lockedAt.None?
  {
    hide Log;
  }

  lemma DropIsClaimed(w: World)
    requires At(w, Bridged, multiset{})
    ensures At(Apply(w, STEPS[2]), VoicemailDropRequested, multiset{SendDropCommands(0, 0, Bridged)})
  {
    ClaimPasses(w.db, w.now);
    hide ClaimDrop;
  }

  lemma AgentLegGoes(w: World)
    requires At(w, VoicemailDropRequested, multiset{SendDropCommands(0, 0, Bridged)})
    ensures At(Apply(w, STEPS[3]), VoicemailDropRequested, multiset{ReleaseMark(0, 0)})
  {
    hide Log;
  }

  lemma CallIsMarked(w: World)
    requires At(w, VoicemailDropRequested, multiset{ReleaseMark(0, 0)})
    ensures At(Apply(w, STEPS[4]), AgentReleased, multiset{ReleaseLegs(0, 0)})
  {
  }

  lemma ReleaseIsLost(w: World)
    requires At(w, AgentReleased, multiset{ReleaseLegs(0, 0)})
    ensures var after := Apply(w, STEPS[5]);
            && after.tasks == multiset{} && after.lost == {0} && 0 in after.db.agents
            && after.db.agents[0].status == InCall && !HasActiveCall(after.db.calls, 0)
  {
  }

  lemma SixSteps(w: World, steps: seq<Step>)
    requires |steps| == 6
    ensures RunSteps(w, steps) == Apply(Apply(Apply(Apply(Apply(Apply(w, steps[0]), steps[1]), steps[2]), steps[3]), steps[4]), steps[5])
  {
    hide Apply;
    var w1 := Apply(w, steps[0]);
    var w2 := Apply(w1, steps[1]);
    var w3 := Apply(w2, steps[2]);
    var w4 := Apply(w3, steps[3]);
    var w5 := Apply(w4, steps[4]);
    assert RunSteps(w5, steps[5..]) == Apply(w5, steps[5]) by {
      assert steps[5..][1..] == [];
      EmptyRun(Apply(w5, steps[5]));
    }
    assert RunSteps(w4, steps[4..]) == RunSteps(w5, steps[5..]) by { assert steps[4..][1..] == steps[5..]; }
    assert RunSteps(w3, steps[3..]) == RunSteps(w4, steps[4..]) by { assert steps[3..][1..] == steps[4..]; }
    assert RunSteps(w2, steps[2..]) == RunSteps(w3, steps[3..]) by { assert steps[2..][1..] == steps[3..]; }
    assert RunSteps(w1, steps[1..]) == RunSteps(w2, steps[2..]) by { assert steps[1..][1..] == steps[2..]; }
  }

  lemma StartIsInitial()
    ensures Initial(START) && START.lost == {}
  {
    assert forall s, u :: !LiveFor(START.db.sessions, s, u);
  }

  ghost predicate Stranded(w: World, a: AgentId) {
    && w.tasks == multiset{} && a in w.lost && a in w.db.agents
    && w.db.agents[a].status == InCall && !HasActiveCall(w.db.calls, a)
  }

  lemma StepsStrand()
    ensures Stranded(Apply(Apply(Apply(Apply(Apply(Apply(START, STEPS[0]), STEPS[1]), STEPS[2]), STEPS[3]), STEPS[4]), STEPS[5]), 0)
  {
    var w1 := Apply(START, STEPS[0]);
    var w2 := Apply(w1, STEPS[1]);
    var w3 := Apply(w2, STEPS[2]);
    var w4 := Apply(w3, STEPS[3]);
    var w5 := Apply(w4, STEPS[4]);
    CallStarts();
    hide Apply, At, HasActiveCall;
    CallBridges(w1);
    DropIsClaimed(w2);
    AgentLegGoes(w3);
    CallIsMarked(w4);
    ReleaseIsLost(w5);
  }

  /** An agent on no call, with nobody left to free it, stays "in_call": a run from an initial state reaches it. */
  lemma AgentIsStranded()
    ensures Initial(START) && Stranded(RunSteps(START, STEPS), 0) && LostSince(START, STEPS, 0)
  {
    hide Apply, At, RunSteps, HasActiveCall, LostSince, Initial;
    StartIsInitial();
    StepsStrand();
    SixSteps(START, STEPS);
    InitialSatisfiesInv(START);
    LostIsHistory(START, STEPS, 0);
  }
}
