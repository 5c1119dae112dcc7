/**
 esl-events.ts repairFinalizedCallConsistency over call-finalization.ts
 repairFinalizedCallTransaction: from any database the schema admits, every pass
 strictly shrinks the set of inconsistent ended calls until none is left.
 */
module ConsistencyRepair {
  import opened Wrappers
  import opened DialerDb
  import opened Finalization

  /** Ended or terminal: the outer filter of the candidate query. */
  predicate Over(call: Call) {
    call.endedAt.Some? || IsTerminal(call.state)
  }

  predicate LegUnfinished(leg: Leg, id: CallId) {
    leg.callId == id && (leg.state != LegEnded || leg.endedAt.None?)
  }

  predicate LeadStranded(db: Db, id: CallId)
    requires id in db.calls
  {
    var contact := db.calls[id].contactId;
    contact.Some? && contact.value in db.contacts && db.contacts[contact.value].status == Calling
    && !HasOtherOpenCall(db.calls, contact.value, id)
  }

  predicate AgentStranded(db: Db, id: CallId)
    requires id in db.calls
  {
    var agent := db.calls[id].agentId;
    agent.Some? && agent.value in db.agents && db.agents[agent.value].status == InCall
    && !HasActiveCall(db.calls, agent.value)
  }

  /** The where clause of the candidate query. */
  predicate Candidate(db: Db, id: CallId) {
    id in db.calls && Over(db.calls[id])
    && (|| (db.calls[id].endedAt.None? && IsTerminal(db.calls[id].state))
        || (db.calls[id].endedAt.Some? && (!IsTerminal(db.calls[id].state) || db.calls[id].outcome.None?))
        || LeadStranded(db, id)
        || (exists l | l in db.legs :: LegUnfinished(db.legs[l], id))
        || AgentStranded(db, id))
  }

  function Candidates(db: Db): set<CallId> {
    set c | c in db.calls && Candidate(db, c)
  }

  /** repairFinalizedCallTransaction */
  function RepairCall(db: Db, id: CallId, now: Time): (Db, bool) {
    var (after, status) := FinalizeCall(db, id, KeepDecision, None, false, now);
    (after, status == AlreadyFinalized || status == Finalized)
  }

  /** What a repair may not change about any call. */
  ghost predicate KeepsHistory(before: Call, after: Call) {
    && (before.outcome.Some? ==> after.outcome == before.outcome)
    && (before.endedAt.Some? ==> after.endedAt == before.endedAt)
    && (IsTerminal(before.state) ==> after.state == before.state)
    && (!Over(before) ==> after == before)
  }

  ghost predicate KeepsAllHistory(before: Db, after: Db) {
    before.calls.Keys == after.calls.Keys
    && forall c | c in before.calls :: KeepsHistory(before.calls[c], after.calls[c])
  }

  /** The row a repair leaves: untouched when it was final already, otherwise ended by the decision of the code. */
  function RepairedRow(call: Call, now: Time): Call
    requires Over(call)
  {
    if IsFinalized(call) then call
    else
      var guarded := GuardUpdate(call, EndedRow(call, Decide(call, KeepDecision).value, now));
      if guarded.Some? then guarded.value else call
  }

  lemma RepairedRowIsFinal(call: Call, now: Time)
    requires LockValid(call) && Over(call)
    ensures IsFinalized(RepairedRow(call, now)) && LockValid(RepairedRow(call, now))
    ensures KeepsHistory(call, RepairedRow(call, now))
    ensures RepairedRow(call, now).agentId == call.agentId && RepairedRow(call, now).contactId == call.contactId
  {
    if !IsFinalized(call) {
      DecisionPassesGuard(call, KeepDecision, now);
    }
  }

  /** A repair is that one row update followed by the cleanup, and it reports success. */
  lemma RepairIsUpdateThenCleanup(db: Db, id: CallId, now: Time)
    requires id in db.calls && LockValid(db.calls[id]) && Over(db.calls[id])
    ensures RepairCall(db, id, now)
         == (Cleanup(db.(calls := db.calls[id := RepairedRow(db.calls[id], now)]), id, now), true)
  {
    var call := db.calls[id];
    var updated := db.(calls := db.calls[id := RepairedRow(call, now)]);
    if IsFinalized(call) {
      assert db.calls[id := call] == db.calls;
      assert updated == db;
      assert FinalizeCall(db, id, KeepDecision, None, false, now) == (Cleanup(updated, id, now), AlreadyFinalized);
    } else {
      DecisionPassesGuard(call, KeepDecision, now);
      assert PutCall(db, id, EndedRow(call, Decide(call, KeepDecision).value, now)) == Some(updated);
      assert LogOptional(db, None) == db;
    }
  }

  lemma OpenCallsUnchanged(db: Db, id: CallId, after: Db)
    requires id in db.calls && id in after.calls
    requires after.calls == db.calls[id := after.calls[id]]
    requires !Open(db.calls[id]) && !Open(after.calls[id])
    ensures forall k, e :: HasOtherOpenCall(after.calls, k, e) == HasOtherOpenCall(db.calls, k, e)
    ensures forall a :: HasActiveCall(after.calls, a) == HasActiveCall(db.calls, a)
  {
    forall k, e
      ensures HasOtherOpenCall(after.calls, k, e) == HasOtherOpenCall(db.calls, k, e)
    {
      assert forall c | c in db.calls :: Open(after.calls[c]) ==> after.calls[c] == db.calls[c];
      assert forall c | c in db.calls :: Open(db.calls[c]) ==> after.calls[c] == db.calls[c];
    }
    forall a
      ensures HasActiveCall(after.calls, a) == HasActiveCall(db.calls, a)
    {
      assert forall c | c in db.calls :: Active(after.calls[c]) ==> after.calls[c] == db.calls[c];
      assert forall c | c in db.calls :: Active(db.calls[c]) ==> after.calls[c] == db.calls[c];
    }
  }

  /** The cleanup leaves nothing for the query to find about the call it ran for. */
  lemma CleanupSettles(db: Db, id: CallId, now: Time)
    requires id in db.calls && IsFinalized(db.calls[id])
    ensures !Candidate(Cleanup(db, id, now), id)
  {
    var call := db.calls[id];
    var after := Cleanup(db, id, now);
    var closed := CloseLegs(db, id, None, now);
    var returned := ReturnLeadUnlessHeld(closed, call.contactId, ContactStatusFor(call.outcome), id);
    assert forall l | l in closed.legs :: !LegUnfinished(closed.legs[l], id);
    assert !LeadStranded(returned, id);
    assert !AgentStranded(after, id);
  }

  /** The cleanup makes no other call a candidate: it only gives leads and agents back and closes legs. */
  lemma CleanupStrandsNobody(db: Db, id: CallId, now: Time, other: CallId)
    requires id in db.calls && other != id
    requires Candidate(Cleanup(db, id, now), other)
    ensures Candidate(db, other)
  {
    var call := db.calls[id];
    var after := Cleanup(db, id, now);
    var closed := CloseLegs(db, id, None, now);
    var returned := ReturnLeadUnlessHeld(closed, call.contactId, ContactStatusFor(call.outcome), id);
    if exists l | l in closed.legs :: LegUnfinished(closed.legs[l], other) {
      ClosingLegsStrandsNobody(db, id, now, other);
    }
    assert LeadStranded(returned, other) ==> LeadStranded(db, other);
    assert AgentStranded(after, other) ==> AgentStranded(db, other);
  }

  lemma ClosingLegsStrandsNobody(db: Db, id: CallId, now: Time, other: CallId)
    requires exists l :: l in CloseLegs(db, id, None, now).legs && LegUnfinished(CloseLegs(db, id, None, now).legs[l], other)
    ensures exists l :: l in db.legs && LegUnfinished(db.legs[l], other)
  {
    var closed := CloseLegs(db, id, None, now);
    var l :| l in closed.legs && LegUnfinished(closed.legs[l], other);
    assert LegUnfinished(db.legs[l], other);
  }

  /** Candidacy depends on the other rows only through their openness. */
  lemma CandidacyUnchanged(db: Db, id: CallId, after: Db, other: CallId)
    requires id in db.calls && id in after.calls && other != id
    requires after == db.(calls := db.calls[id := after.calls[id]])
    requires !Open(db.calls[id]) && !Open(after.calls[id])
    requires Candidate(after, other)
    ensures Candidate(db, other)
  {
    OpenCallsUnchanged(db, id, after);
    assert after.calls[other] == db.calls[other];
    assert LeadStranded(after, other) ==> LeadStranded(db, other);
    assert AgentStranded(after, other) ==> AgentStranded(db, other);
  }

  /** One repair: it succeeds, its call stops being a candidate, and no other call becomes one. */
  lemma RepairClearsCandidate(db: Db, id: CallId, now: Time)
    requires SchemaValid(db) && id in db.calls && Over(db.calls[id])
    ensures RepairCall(db, id, now).1
    ensures SchemaValid(RepairCall(db, id, now).0)
    ensures KeepsAllHistory(db, RepairCall(db, id, now).0)
    ensures Candidates(RepairCall(db, id, now).0) <= Candidates(db) - {id}
  {
    var after := RepairCall(db, id, now).0;
    RepairedRowIsFinal(db.calls[id], now);
    RepairIsUpdateThenCleanup(db, id, now);
    var updated := db.(calls := db.calls[id := RepairedRow(db.calls[id], now)]);
    CleanupSettles(updated, id, now);
    forall c | c in Candidates(after)
      ensures c in Candidates(db) - {id}
    {
      CleanupStrandsNobody(updated, id, now, c);
      CandidacyUnchanged(db, id, updated, c);
    }
  }

  /** The repair loop over the rows the query returned. */
  function RepairAll(db: Db, page: seq<CallId>, now: Time): (r: (Db, nat))
    decreases |page|
  {
    if page == [] then (db, 0)
    else
      var (first, done) := RepairCall(db, page[0], now);
      var (rest, count) := RepairAll(first, page[1..], now + 1);
      (rest, count + if done then 1 else 0)
  }

  /** The rows of one query: distinct candidates, oldest first, at most limit, none of the rest older. */
  ghost predicate IsCandidatePage(db: Db, limit: nat, page: seq<CallId>) {
    && (forall i | 0 <= i < |page| :: page[i] in Candidates(db))
    && (forall i, j | 0 <= i < j < |page| :: page[i] != page[j])
    && |page| == (if |Candidates(db)| < limit then |Candidates(db)| else limit)
    && (forall i, j | 0 <= i < j < |page| :: SortKey(db, page[i]) <= SortKey(db, page[j]))
    && (forall i, c | 0 <= i < |page| && c in Candidates(db) && c !in page :: SortKey(db, page[i]) <= SortKey(db, c))
  }

  /** coalesce(calls.ended_at, calls.updated_at) */
  function SortKey(db: Db, id: CallId): Time {
    if id !in db.calls then 0
    else if db.calls[id].endedAt.Some? then db.calls[id].endedAt.value
    else db.calls[id].updatedAt
  }

  lemma HistoryCompose(a: Db, b: Db, c: Db)
    requires KeepsAllHistory(a, b) && KeepsAllHistory(b, c)
    ensures KeepsAllHistory(a, c)
  {
    forall k | k in a.calls
      ensures KeepsHistory(a.calls[k], c.calls[k])
    {
      assert KeepsHistory(a.calls[k], b.calls[k]) && KeepsHistory(b.calls[k], c.calls[k]);
    }
  }

  /** A whole page: every row is repaired, even one an earlier repair of the page already settled. */
  lemma {:induction false} RepairAllClears(db: Db, page: seq<CallId>, now: Time)
    requires SchemaValid(db)
    requires forall i | 0 <= i < |page| :: page[i] in db.calls && Over(db.calls[page[i]])
    ensures RepairAll(db, page, now).1 == |page|
    ensures SchemaValid(RepairAll(db, page, now).0)
    ensures KeepsAllHistory(db, RepairAll(db, page, now).0)
    ensures Candidates(RepairAll(db, page, now).0) <= Candidates(db) - set i | 0 <= i < |page| :: page[i]
    decreases |page|
  {
    if page != [] {
      var first := RepairCall(db, page[0], now).0;
      RepairClearsCandidate(db, page[0], now);
      RepairAllClears(first, page[1..], now + 1);
      HistoryCompose(db, first, RepairAll(db, page, now).0);
      assert (set i | 0 <= i < |page| :: page[i]) == {page[0]} + set i | 0 <= i < |page[1..]| :: page[1..][i];
    }
  }

  lemma {:induction false} DistinctPageSize(page: seq<CallId>)
    requires forall i, j | 0 <= i < j < |page| :: page[i] != page[j]
    ensures |set i | 0 <= i < |page| :: page[i]| == |page|
  {
    if page != [] {
      var init := page[..|page| - 1];
      DistinctPageSize(init);
      assert (set i | 0 <= i < |page| :: page[i]) == (set i | 0 <= i < |init| :: init[i]) + {page[|page| - 1]};
    }
  }

  /** One pass of the scheduler: any page the query may return under its limit. */
  ghost predicate Pass(before: Db, limit: nat, after: Db) {
    exists page, now :: IsCandidatePage(before, limit, page) && after == RepairAll(before, page, now).0
  }

  /**
   The convergence measure: a pass with limit n repairs exactly the rows it read
   and the candidate count drops by at least that many.
   */
  lemma PassShrinks(db: Db, limit: nat, page: seq<CallId>, now: Time)
    requires SchemaValid(db) && IsCandidatePage(db, limit, page)
    ensures RepairAll(db, page, now).1 == |page|
    ensures SchemaValid(RepairAll(db, page, now).0)
    ensures KeepsAllHistory(db, RepairAll(db, page, now).0)
    ensures |Candidates(RepairAll(db, page, now).0)| + |page| <= |Candidates(db)|
    ensures limit >= 1 && Candidates(db) != {} ==>
              |Candidates(RepairAll(db, page, now).0)| < |Candidates(db)|
  {
    RepairAllClears(db, page, now);
    DistinctPageSize(page);
    var taken := set i | 0 <= i < |page| :: page[i];
    assert taken <= Candidates(db);
    var left := Candidates(RepairAll(db, page, now).0);
    SubsetSize(left, Candidates(db) - taken);
    assert |Candidates(db) - taken| == |Candidates(db)| - |taken|;
  }

  lemma {:induction false} SubsetSize(small: set<CallId>, big: set<CallId>)
    requires small <= big
    ensures |small| <= |big|
  {
    if small != {} {
      var x :| x in small;
      SubsetSize(small - {x}, big - {x});
    }
  }

  lemma PassRepairs(before: Db, limit: nat, after: Db)
    requires SchemaValid(before) && limit >= 1 && Pass(before, limit, after)
    ensures SchemaValid(after) && KeepsAllHistory(before, after)
    ensures |Candidates(after)| < |Candidates(before)| || Candidates(before) == Candidates(after) == {}
  {
    var page, now :| IsCandidatePage(before, limit, page) && after == RepairAll(before, page, now).0;
    PassShrinks(before, limit, page, now);
    if Candidates(before) == {} {
      assert |Candidates(after)| == 0;
    }
  }

  ghost predicate PassRun(states: seq<Db>, limits: seq<nat>) {
    && |states| == |limits| + 1
    && forall i | 0 <= i < |limits| :: limits[i] >= 1 && Pass(states[i], limits[i], states[i + 1])
  }

  /** What the first `passes` passes of a run have achieved. */
  ghost predicate Converging(first: Db, current: Db, passes: nat) {
    && SchemaValid(current)
    && KeepsAllHistory(first, current)
    && (|Candidates(current)| + passes <= |Candidates(first)| || Candidates(current) == {})
  }

  lemma ConvergingStep(first: Db, before: Db, limit: nat, after: Db, passes: nat)
    requires Converging(first, before, passes)
    requires limit >= 1 && Pass(before, limit, after)
    ensures Converging(first, after, passes + 1)
  {
    PassRepairs(before, limit, after);
    HistoryCompose(first, before, after);
  }

  lemma {:induction false} RunConverges(states: seq<Db>, limits: seq<nat>, passes: nat)
    requires PassRun(states, limits) && passes <= |limits| && SchemaValid(states[0])
    ensures Converging(states[0], states[passes], passes)
  {
    if passes > 0 {
      RunConverges(states, limits, passes - 1);
      assert Pass(states[passes - 1], limits[passes - 1], states[passes - 1 + 1]);
      ConvergingStep(states[0], states[passes - 1], limits[passes - 1], states[passes], passes - 1);
    }
  }

  /**
   From any database the schema admits, repeated passes with any limits of at
   least one reach a state with no candidate after at most as many passes as there
   were candidates, and every recorded outcome, end time and terminal state survives.
   */
  lemma RepairConverges(states: seq<Db>, limits: seq<nat>)
    requires PassRun(states, limits) && SchemaValid(states[0])
    ensures KeepsAllHistory(states[0], states[|limits|])
    ensures |limits| >= |Candidates(states[0])| ==> Candidates(states[|limits|]) == {}
  {
    RunConverges(states, limits, |limits|);
  }
}
