/**
 What the consistency repair looks for and what it does to a call, in the words of
 its query and of the finalization it runs.
 */
module RepairRules {
  import opened Wrappers
  import opened DialerDb
  import opened Terms
  import opened Finalization
  import opened TransactionEffects
  import opened CallEndings
  import opened ConsistencyRepair

  /** The call's lead is still shown as being called, and no other running call has it. */
  ghost predicate LeadLeftCalling(db: Db, id: CallId)
    requires id in db.calls
  {
    var contact := db.calls[id].contactId;
    contact.Some? && contact.value in db.contacts && db.contacts[contact.value].status == Calling
    && !HeldByAnother(db.calls, contact.value, id)
  }

  /** The call's agent is still shown as in a call, and no call needs it. */
  ghost predicate AgentLeftInCall(db: Db, id: CallId)
    requires id in db.calls
  {
    var agent := db.calls[id].agentId;
    agent.Some? && agent.value in db.agents && db.agents[agent.value].status == InCall && !OnPhone(db.calls, agent.value)
  }

  ghost predicate LegLeftRunning(db: Db, id: CallId) {
    exists l :: l in db.legs && db.legs[l].callId == id && !(db.legs[l].state == LegEnded && db.legs[l].endedAt.Some?)
  }

  /** A candidate is a call that is over in some column and is not in another, or has left a lead, a leg or an agent behind. */
  lemma CandidatesAreListed(db: Db, id: CallId)
    ensures Candidate(db, id) <==>
            && id in db.calls && (db.calls[id].endedAt.Some? || db.calls[id].state in OVER_STATES)
            && (!Final(db.calls[id]) || LeadLeftCalling(db, id) || LegLeftRunning(db, id) || AgentLeftInCall(db, id))
  {
    if id in db.calls {
      var call := db.calls[id];
      StatesAreListed(call.state);
      if call.contactId.Some? {
        HeldIsOtherOpen(db.calls, call.contactId.value, id);
      }
      if call.agentId.Some? {
        OnPhoneIsActive(db.calls, call.agentId.value);
      }
      assert LegLeftRunning(db, id) <==> exists l | l in db.legs :: LegUnfinished(db.legs[l], id);
      hide IsTerminal, HasOtherOpenCall, HasActiveCall, HeldByAnother, OnPhone, LegLeftRunning, LegUnfinished;
    }
  }

  /** When a call was last over: its end, or its last change. */
  function OverSince(call: Call): Time {
    match call.endedAt
    case Some(t) => t
    case None => call.updatedAt
  }

  /** A page holds as many distinct candidates as it may, and none that is left out has been over for longer. */
  lemma PagesTakeTheOldest(db: Db, limit: nat, page: seq<CallId>)
    requires IsCandidatePage(db, limit, page)
    ensures forall i | 0 <= i < |page| :: page[i] in db.calls && Candidate(db, page[i])
    ensures |page| < limit ==> forall c :: Candidate(db, c) ==> c in page
    ensures forall i, j | 0 <= i < j < |page| :: page[i] != page[j] && OverSince(db.calls[page[i]]) <= OverSince(db.calls[page[j]])
    ensures forall i, c | 0 <= i < |page| && Candidate(db, c) && c !in page :: OverSince(db.calls[page[i]]) <= OverSince(db.calls[c])
  {
    hide Candidate;
    assert forall c :: c in Candidates(db) <==> c in db.calls && Candidate(db, c);
    CandidatesAreCalls(db);
    if |page| < limit {
      AllAreTaken(db, page);
    }
  }

  lemma CandidatesAreCalls(db: Db)
    ensures forall c :: Candidate(db, c) ==> c in db.calls
  {
  }

  lemma AllAreTaken(db: Db, page: seq<CallId>)
    requires (forall i | 0 <= i < |page| :: page[i] in Candidates(db)) && (forall i, j | 0 <= i < j < |page| :: page[i] != page[j])
    requires |page| == |Candidates(db)|
    ensures forall c | c in Candidates(db) :: c in page
  {
    hide Candidates;
    DistinctPageSize(page);
    var taken := set i | 0 <= i < |page| :: page[i];
    assert taken <= Candidates(db);
    if exists c :: c in Candidates(db) && c !in page {
      var c :| c in Candidates(db) && c !in page;
      assert taken <= Candidates(db) - {c};
      SubsetSize(taken, Candidates(db) - {c});
    }
  }

  /** A repair of a candidate finalizes it by what its row says, or cleans up after a final one; it is counted either way. */
  lemma RepairMeans(db: Db, id: CallId, now: Time)
    requires SchemaValid(db) && Candidate(db, id)
    ensures var (b, repaired) := RepairCall(db, id, now);
            && repaired && id in b.calls && CleanedUp(db, b, id) && b.events == db.events
            && (if Final(db.calls[id]) then b.calls == db.calls
                else OtherCallsKept(db, b, id) && RowFinalized(db.calls[id], b.calls[id], KeepDecision, now))
  {
    FinalizeMeans(db, id, KeepDecision, None, false, now);
    CandidatesAreListed(db, id);
    hide SchemaValid, Candidate, CleanedUp, RowFinalized, FinalizeCall, LeadLeftCalling, LegLeftRunning, AgentLeftInCall;
  }
}
