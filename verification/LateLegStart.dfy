/**
 The run that leaves an ended call with a running leg: the agent ends its call while
 the originate is still being answered, and the answer then starts the agent's leg.
 */
module LateLegStart {
  import opened Wrappers
  import opened DialerDb
  import opened Finalization
  import opened VoicemailDrop
  import opened CallActions
  import opened UserAccess
  import opened ConsistencyRepair
  import opened Lifecycle
  import opened LifecycleTheorems
  import opened LegsAfterEnd
  import opened ChannelEvents
  import LostRelease

  const START := LostRelease.START

  const STEPS: seq<Step> := [
    Create(0, 0, ManualNumber(0), RetryPolicy(1, 0), 0, 0, 1),
    AgentEnds(0, 0),
    Execute(AgentLegStarted(0, 7))
  ]

  /** One call of agent 0 with its two legs. */
  ghost predicate At(w: World, ended: bool) {
    && w.db.calls.Keys == {0} && w.db.legs.Keys == {0, 1} && w.db.agents.Keys == {0} && w.db.agents[0].userId == 0
    && w.db.calls[0].agentId == Some(0) && w.db.calls[0].lockedAt.None?
    && (if ended then w.db.calls[0].endedAt.Some? else Active(w.db.calls[0]))
    && w.db.legs[0].callId == 0 && w.db.legs[0].kind == AgentLeg && w.db.legs[1].callId == 0
  }

  lemma CallStarts()
    ensures At(Apply(START, STEPS[0]), false)
  {
    CallStartsIffAllowed(START.db, 0, 0, ManualNumber(0), RetryPolicy(1, 0), 0, 0, 1, 0);
    assert !HasActiveCall(START.db.calls, 0) && !HasLiveSession(START.db.sessions, 0);
    hide Log;
  }

  /** The agent's end as far as At can tell. */
  ghost predicate EndsTheCall(a: Db, b: Db) {
    && b.calls.Keys == a.calls.Keys && b.legs.Keys == a.legs.Keys && b.agents.Keys == a.agents.Keys
    && (0 in a.calls && 0 in b.calls ==>
          && b.calls[0].endedAt.Some? && b.calls[0].agentId == a.calls[0].agentId
          && b.calls[0].lockedAt == a.calls[0].lockedAt)
    && SameLegs(a.legs, b.legs)
    && (forall a0 | a0 in a.agents && a0 in b.agents :: b.agents[a0].userId == a.agents[a0].userId)
  }

  lemma EndPasses(db: Db, now: Time)
    requires 0 in db.calls && Active(db.calls[0]) && OwnedBy(db, 0, 0)
    ensures EndsTheCall(db, EndDialerCall(db, 0, 0, now).0)
  {
    hide Log, HasActiveCall, EndLegs, SameLegs, Active;
    AgentEndFollows(db, 0, 0, now, 0);
    AgentEndPasses(db.calls[0], now);
    TablesStay(db, 0, None, TaggedEvent(0, ChannelCreate, AgentLeg, None, None, OtherCause), 0, now);
  }

  lemma EndedThen(a: World, b: World)
    requires At(a, false) && EndsTheCall(a.db, b.db)
    ensures At(b, true)
  {
    hide Active;
  }

  lemma AgentOwns(w: World)
    requires At(w, false)
    ensures 0 in w.db.calls && Active(w.db.calls[0]) && OwnedBy(w.db, 0, 0)
  {
    hide Active;
  }

  lemma AgentEndIsThat(w: World)
    ensures Apply(w, STEPS[1]).db == EndDialerCall(w.db, 0, 0, w.now).0
  {
    hide EndDialerCall;
  }

  lemma CallEnds(w: World)
    requires At(w, false)
    ensures At(Apply(w, STEPS[1]), true)
  {
    hide EndDialerCall, Active, OwnedBy, At, Apply, EndsTheCall;
    AgentOwns(w);
    EndPasses(w.db, w.now);
    AgentEndIsThat(w);
    EndedThen(w, Apply(w, STEPS[1]));
  }

  lemma LegStarts(w: World)
    requires At(w, true)
    ensures Candidate(Apply(w, STEPS[2]).db, 0) && Ended(Apply(w, STEPS[2]).db, 0)
  {
    var b := Apply(w, STEPS[2]).db;
    hide LeadStranded, AgentStranded, IsTerminal;
    assert 0 in b.legs && LegUnfinished(b.legs[0], 0);
  }

  lemma ThreeSteps(w: World, steps: seq<Step>)
    requires |steps| == 3
    ensures RunSteps(w, steps) == Apply(Apply(Apply(w, steps[0]), steps[1]), steps[2])
  {
    hide Apply;
    RunEndsWithStep(w, steps);
    assert steps[..2][..1] == steps[..1] && steps[..1][..0] == [];
    RunEndsWithStep(w, steps[..2]);
    RunEndsWithStep(w, steps[..1]);
    EmptyRun(w);
  }

  /** From an initial state, three steps leave an ended call whose agent's leg runs: a candidate of the repair. */
  lemma EndedCallIsFoundAgain()
    ensures Initial(START) && Candidate(RunSteps(START, STEPS).db, 0) && StartedLate(START, STEPS, 0)
    ensures RunSteps(START, STEPS).db.calls[0].endedAt.Some?
  {
    hide Apply, At, RunSteps, Candidate, StartedLate, Initial, LegUnfinished;
    LostRelease.StartIsInitial();
    CallStarts();
    CallEnds(Apply(START, STEPS[0]));
    LegStarts(Apply(Apply(START, STEPS[0]), STEPS[1]));
    ThreeSteps(START, STEPS);
    StartedAfterTheEnd();
  }

  lemma StartedAfterTheEnd()
    ensures StartedLate(START, STEPS, 0)
  {
    hide Apply, At, RunSteps, ClosesAgentLeg;
    CallStarts();
    CallEnds(Apply(START, STEPS[0]));
    assert STEPS[..2][..1] == STEPS[..1] && STEPS[..1][..0] == [];
    RunEndsWithStep(START, STEPS[..2]);
    RunEndsWithStep(START, STEPS[..1]);
    EmptyRun(START);
    EndedAt(RunSteps(START, STEPS[..2]));
  }

  lemma EndedAt(w: World)
    requires At(w, true)
    ensures Ended(w.db, 0)
  {
  }
}
