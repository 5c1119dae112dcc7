/**
 The persistence queue and the event handler put together: esl-events.ts hands every
 frame to the queue of ordered-retry-queue.ts, whose attempts run the handler. Each
 attempt commits some first writes of its event's handling, and the queue retries,
 rejects or goes on. What the database holds is then a function of the accepted
 events and of how far the furthest attempt of each of them came. The queue is the
 only writer here, so an attempt's writes can be taken at its end.
 */
module EventDelivery {
  import opened Wrappers
  import opened DialerDb
  import opened Finalization
  import opened VoicemailDrop
  import opened ChannelEvents
  import opened ExactlyOnce
  import Q = RetryQueue

  /** reach: for every accepted event, how many writes its furthest attempt committed, at most all of them. */
  datatype State = State(queue: Q.Queue<TaggedEvent>, db: Db, reach: seq<nat>, now: Time)

  datatype Step =
    | Enqueue(event: TaggedEvent)
    | WaitForIdle(waiter: Q.WaiterId)
    | AttemptSucceeds
    | AttemptFails(transient: bool, reached: nat)
    | TimerFires
    | Stop

  /** No handling has more writes than two. */
  const ALL_WRITES: nat := 2

  function Further(a: nat, b: nat): nat {
    if a < b then b else a
  }

  function QueueStep(step: Step): Q.Step<TaggedEvent> {
    match step
    case Enqueue(event) => Q.Enqueue(event)
    case WaitForIdle(waiter) => Q.WaitForIdle(waiter)
    case AttemptSucceeds => Q.AttemptSucceeds
    case AttemptFails(transient, _) => Q.AttemptFails(transient)
    case TimerFires => Q.TimerFires
    case Stop => Q.Stop
  }

  /** The awaited attempt committed its first writes; its event is the one its ticket numbers. */
  function Written(s: State, reached: nat): State {
    var q := s.queue;
    if q.processing.None? || q.processing.value >= |q.accepted| || q.processing.value >= |s.reach| then s
    else
      var t := q.processing.value;
      s.(db := Attempt(s.db, q.accepted[t], reached, s.now), reach := s.reach[t := Further(s.reach[t], reached)])
  }

  /** A newly accepted event has had no attempt. */
  function Extended(reach: seq<nat>, n: nat): seq<nat> {
    reach + (if n > |reach| then [0] else [])
  }

  /** What the end of an attempt, if the step is one, left in the database. */
  function WrittenBy(s: State, step: Step): State {
    match step
    case AttemptSucceeds => Written(s, ALL_WRITES)
    case AttemptFails(_, reached) => Written(s, if reached < ALL_WRITES then reached else ALL_WRITES)
    case _ => s
  }

  function Apply(s: State, limits: Q.Limits, step: Step): State {
    var written := WrittenBy(s, step);
    var queue := Q.Apply(s.queue, limits, QueueStep(step));
    written.(queue := queue, now := s.now + 1, reach := Extended(written.reach, |queue.accepted|))
  }

  function Run(s: State, limits: Q.Limits, steps: seq<Step>): State
    decreases |steps|
  {
    if steps == [] then s else Run(Apply(s, limits, steps[0]), limits, steps[1..])
  }

  function Start(db: Db): State {
    State(Q.Empty(), db, [], 0)
  }

  /** The events in order, each handled as far as its furthest attempt came. */
  function AsFarAs(db: Db, events: seq<TaggedEvent>, reach: seq<nat>): Db
    requires |reach| == |events|
    decreases |events|
  {
    if events == [] then db
    else
      var n := |events| - 1;
      Attempt(AsFarAs(db, events[..n], reach[..n]), events[n], reach[n], 0)
  }

  // ---------------------------------------------------------------- attempts of one event

  lemma NoWrites(db: Db, e: TaggedEvent, now: Time)
    ensures Attempt(db, e, 0, now) == db
  {
    var writes := Writes(db, e);
    assert |writes| > 0 ==> writes[..0] == [];
  }

  lemma AllWrites(db: Db, e: TaggedEvent, now: Time)
    ensures |Writes(db, e)| <= ALL_WRITES
    ensures Attempt(db, e, ALL_WRITES, now) == Handle(db, e, now)
  {
    hide RunWrites, RunWrite;
    var writes := Writes(db, e);
    assert |writes| == 2 ==> writes[..2] == writes;
  }

  /** After a full handling no event has two writes left, so any further attempt is none or a full one. */
  lemma HandledLeavesOne(db: Db, e: TaggedEvent)
    requires SchemaValid(db) && e.uuid.Some? && db.agents == map[]
    ensures |Writes(Handle(db, e, 0), e)| <= 1
  {
    if IsCustomerTerminal(e) && e.callId in db.calls {
      HandlingSettles(db, e);
      HandlingKeepsCall(db, e, 0);
    }
    hide RunWrites;
  }

  lemma AfterAll(db: Db, e: TaggedEvent, reached: nat)
    requires SchemaValid(db) && e.uuid.Some? && db.agents == map[]
    ensures Attempt(Handle(db, e, 0), e, reached, 0) == Handle(db, e, 0)
  {
    var done := Handle(db, e, 0);
    HandledLeavesOne(db, e);
    hide RunWrites, Writes;
    if reached == 0 {
      NoWrites(done, e, 0);
    } else {
      var writes := Writes(done, e);
      assert reached < |writes| ==> false;
      HandledTwice(db, e);
    }
  }

  lemma AfterOne(db: Db, e: TaggedEvent, reached: nat)
    requires e.uuid.Some? && |Writes(db, e)| == 2 && reached >= 1
    ensures Attempt(Attempt(db, e, 1, 0), e, reached, 0) == Attempt(db, e, reached, 0)
  {
    var writes := Writes(db, e);
    assert writes[..1] == [writes[0]];
    TwoWrites(db, writes[0], writes[1], 0);
    LoggedDropRetries(db, e);
    var logged := LogTagged(db, e);
    assert Attempt(db, e, 1, 0) == logged;
    assert Writes(logged, e) == writes;
    if reached == 1 {
      TwoWrites(logged, writes[0], writes[1], 0);
      InsertLogs(db, CallEvent(e.callId, ChannelEventSeen, e.uuid));
      LoggedRowIsSkipped(logged, CallEvent(e.callId, ChannelEventSeen, e.uuid));
    }
  }

  /** Two attempts of one event leave what the further one leaves. */
  lemma AttemptsJoin(db: Db, e: TaggedEvent, first: nat, second: nat)
    requires SchemaValid(db) && e.uuid.Some? && db.agents == map[]
    ensures Attempt(Attempt(db, e, first, 0), e, second, 0) == Attempt(db, e, Further(first, second), 0)
  {
    hide RunWrites, Writes, SchemaValid;
    var writes := Writes(db, e);
    AllWrites(db, e, 0);
    if first >= |writes| {
      FullAttempt(db, e, first);
      FullAttempt(db, e, Further(first, second));
      AfterAll(db, e, second);
    } else if first == 0 {
      NoWrites(db, e, 0);
    } else if second == 0 {
      NoWrites(Attempt(db, e, first, 0), e, 0);
    } else {
      AfterOne(db, e, second);
    }
  }

  lemma FullAttempt(db: Db, e: TaggedEvent, reached: nat)
    requires reached >= |Writes(db, e)|
    ensures Attempt(db, e, reached, 0) == Handle(db, e, 0)
  {
  }

  /** The same under erasure, at whatever times the attempts ran. */
  lemma FurthestCounts(db: Db, other: Db, e: TaggedEvent, first: nat, second: nat, now: Time)
    requires SchemaValid(other) && e.uuid.Some? && Erase(db) == Erase(Attempt(other, e, first, 0))
    ensures Erase(Attempt(db, e, second, now)) == Erase(Attempt(other, e, Further(first, second), 0))
  {
    AttemptErases(db, e, second, now);
    AttemptErases(other, e, first, 0);
    AttemptErases(other, e, Further(first, second), 0);
    EraseKeepsSchema(other);
    assert Erase(other).agents == map[];
    hide Attempt, Erase, SchemaValid;
    AttemptsJoin(Erase(other), e, first, second);
  }

  // ---------------------------------------------------------------- events the queue has not come to

  lemma {:induction false} AsFarAsKeepsSchema(db: Db, events: seq<TaggedEvent>, reach: seq<nat>)
    requires SchemaValid(db) && |reach| == |events|
    ensures SchemaValid(AsFarAs(db, events, reach))
    decreases |events|
  {
    hide SchemaValid, Attempt;
    if events != [] {
      var n := |events| - 1;
      AsFarAsKeepsSchema(db, events[..n], reach[..n]);
      AttemptKeepsSchema(AsFarAs(db, events[..n], reach[..n]), events[n], reach[n], 0);
    }
  }

  lemma {:induction false} UntouchedTail(db: Db, events: seq<TaggedEvent>, reach: seq<nat>, n: nat)
    requires |reach| == |events| && n <= |events| && forall i | n <= i < |reach| :: reach[i] == 0
    ensures AsFarAs(db, events, reach) == AsFarAs(db, events[..n], reach[..n])
    decreases |events|
  {
    hide Attempt;
    if n == |events| {
      assert events[..n] == events && reach[..n] == reach;
    } else {
      var m := |events| - 1;
      UntouchedTail(db, events[..m], reach[..m], n);
      assert events[..m][..n] == events[..n] && reach[..m][..n] == reach[..n];
      NoWrites(AsFarAs(db, events[..m], reach[..m]), events[m], 0);
    }
  }

  /** The attempt of the event after which none was tried yet. */
  lemma LastTriedCounts(db: Db, first: Db, events: seq<TaggedEvent>, reach: seq<nat>, t: nat, reached: nat, now: Time)
    requires |reach| == |events| && t < |events| && (forall i | t < i < |reach| :: reach[i] == 0)
    requires SchemaValid(first) && events[t].uuid.Some? && Erase(db) == Erase(AsFarAs(first, events, reach))
    ensures Erase(Attempt(db, events[t], reached, now))
         == Erase(AsFarAs(first, events, reach[t := Further(reach[t], reached)]))
  {
    hide Attempt, Erase, SchemaValid, Further;
    var longer := reach[t := Further(reach[t], reached)];
    UntouchedTail(first, events, reach, t + 1);
    UntouchedTail(first, events, longer, t + 1);
    assert events[..t + 1][..t] == events[..t] && reach[..t + 1][..t] == reach[..t] && longer[..t + 1][..t] == reach[..t];
    AsFarAsKeepsSchema(first, events[..t], reach[..t]);
    FurthestCounts(db, AsFarAs(first, events[..t], reach[..t]), events[t], reach[t], reached, now);
  }

  lemma OneMore(db: Db, events: seq<TaggedEvent>, reach: seq<nat>, e: TaggedEvent)
    requires |reach| == |events|
    ensures AsFarAs(db, events + [e], reach + [0]) == AsFarAs(db, events, reach)
  {
    hide Attempt;
    assert (events + [e])[..|events|] == events && (reach + [0])[..|reach|] == reach;
    UntouchedTail(db, events + [e], reach + [0], |events|);
  }

  // ---------------------------------------------------------------- the invariant

  ghost predicate Identified(events: seq<TaggedEvent>) {
    forall i | 0 <= i < |events| :: events[i].uuid.Some?
  }

  /** The head is the first accepted event that is not settled, and attempts are only for it. */
  ghost predicate HeadOnly(q: Q.Queue<TaggedEvent>) {
    q.processing.Some? ==> q.processing.value == |q.settled| < |q.accepted|
  }

  /** Settled as persisted means handled to the end; what lies behind the head is untouched. */
  ghost predicate Reached(q: Q.Queue<TaggedEvent>, reach: seq<nat>) {
    && |reach| == |q.accepted| && |q.settled| <= |reach|
    && (forall i | 0 <= i < |reach| :: reach[i] <= ALL_WRITES)
    && (forall i | 0 <= i < |q.settled| && q.settled[i].persisted :: reach[i] == ALL_WRITES)
    && (forall i | |q.settled| < i < |reach| :: reach[i] == 0)
  }

  ghost predicate Inv(first: Db, s: State, limits: Q.Limits) {
    && Q.Valid(s.queue, limits) && HeadOnly(s.queue) && Reached(s.queue, s.reach) && Identified(s.queue.accepted)
    && SchemaValid(s.db)
    && Erase(s.db) == Erase(AsFarAs(first, s.queue.accepted, s.reach))
  }

  /** What one step of the queue does to its histories, and which attempt it awaits then. */
  ghost predicate Follows(q: Q.Queue<TaggedEvent>, after: Q.Queue<TaggedEvent>, step: Step) {
    && HeadOnly(after)
    && (after.accepted == q.accepted || (step.Enqueue? && after.accepted == q.accepted + [step.event]))
    && |after.settled| <= |after.accepted|
    && (|| after.settled == q.settled
        || (&& q.processing.Some? && |after.settled| == |q.settled| + 1 && after.settled[..|q.settled|] == q.settled
            && (after.settled[|q.settled|].persisted ==> step.AttemptSucceeds?)))
  }

  lemma DrainAwaitsHead(q: Q.Queue<TaggedEvent>)
    requires Q.InOrder(q) && (q.stopped ==> HeadOnly(q)) && (q.processing.Some? ==> HeadOnly(q))
    ensures HeadOnly(Q.Drain(q)) && Q.Drain(q).accepted == q.accepted && Q.Drain(q).settled == q.settled
  {
  }

  lemma EndFollows(q: Q.Queue<TaggedEvent>, limits: Q.Limits, step: Step)
    requires Q.Valid(q, limits) && HeadOnly(q) && (step.AttemptSucceeds? || step.AttemptFails?)
    ensures Follows(q, Q.Apply(q, limits, QueueStep(step)), step)
  {
    if Q.HoldsAttempt(q) {
      var settled := Q.Settle(q, step.AttemptSucceeds?).(processing := None);
      Q.SettleKeepsOrder(q, step.AttemptSucceeds?);
      assert settled.settled[..|q.settled|] == q.settled;
      DrainAwaitsHead(settled);
    } else if q.processing.Some? {
      DrainAwaitsHead(q.(processing := None));
    }
    hide Q.Drain, Q.InOrder, Q.RetryDelay, Q.SettledItems, Q.Items;
  }

  lemma QueueFollows(q: Q.Queue<TaggedEvent>, limits: Q.Limits, step: Step)
    requires Q.Valid(q, limits) && HeadOnly(q)
    ensures Follows(q, Q.Apply(q, limits, QueueStep(step)), step)
  {
    match step
    case AttemptSucceeds => EndFollows(q, limits, step);
    case AttemptFails(_, _) => EndFollows(q, limits, step);
    case Enqueue(event) =>
      if Q.Accepts(q, limits) {
        Q.ItemsOfAppended(q.entries, Q.Entry(0, event, |q.accepted|));
        DrainAwaitsHead(q.(entries := q.entries + [Q.Entry(0, event, |q.accepted|)],
                           depth := |q.entries| + 1, accepted := q.accepted + [event]));
      }
      hide Q.Drain;
    case TimerFires =>
      if q.retryTimer.Some? {
        DrainAwaitsHead(q.(retryTimer := None));
      }
      hide Q.Drain;
    case _ =>
  }

  /** The attempt's writes are those of the head. */
  lemma WritingKeeps(first: Db, s: State, limits: Q.Limits, reached: nat)
    requires Inv(first, s, limits) && SchemaValid(first) && reached <= ALL_WRITES
    ensures var w := Written(s, reached);
            && w.queue == s.queue && |w.reach| == |s.reach| && SchemaValid(w.db) && w.now == s.now
            && Erase(w.db) == Erase(AsFarAs(first, s.queue.accepted, w.reach))
            && Reached(s.queue, w.reach)
            && (reached == ALL_WRITES && s.queue.processing.Some? ==> w.reach[|s.queue.settled|] == ALL_WRITES)
  {
    var q := s.queue;
    hide Q.Valid, Erase, AsFarAs, Attempt, SchemaValid;
    if q.processing.Some? {
      var t := q.processing.value;
      LastTriedCounts(s.db, first, q.accepted, s.reach, t, reached, s.now);
      AttemptKeepsSchema(s.db, q.accepted[t], reached, s.now);
    }
  }

  lemma ReachedFollows(q: Q.Queue<TaggedEvent>, after: Q.Queue<TaggedEvent>, step: Step, reach: seq<nat>)
    requires Follows(q, after, step) && Reached(q, reach)
    requires step.AttemptSucceeds? && q.processing.Some? && |q.settled| < |reach| ==> reach[|q.settled|] == ALL_WRITES
    ensures Reached(after, Extended(reach, |after.accepted|))
  {
    hide HeadOnly;
    forall i | 0 <= i < |after.settled| && after.settled[i].persisted
      ensures i < |reach| && reach[i] == ALL_WRITES
    {
      if i < |q.settled| {
        assert after.settled[i] == q.settled[i] by {
          if after.settled != q.settled {
            assert after.settled[..|q.settled|][i] == after.settled[i];
          }
        }
      }
    }
  }

  lemma EventsFollow(first: Db, q: Q.Queue<TaggedEvent>, after: Q.Queue<TaggedEvent>, step: Step, reach: seq<nat>)
    requires Follows(q, after, step) && |reach| == |q.accepted| && Identified(q.accepted)
    requires step.Enqueue? ==> step.event.uuid.Some?
    ensures Identified(after.accepted) && |Extended(reach, |after.accepted|)| == |after.accepted|
    ensures AsFarAs(first, after.accepted, Extended(reach, |after.accepted|)) == AsFarAs(first, q.accepted, reach)
  {
    hide HeadOnly, AsFarAs;
    if after.accepted != q.accepted {
      OneMore(first, q.accepted, reach, step.event);
    } else {
      assert reach + [] == reach;
    }
  }

  lemma StepWrites(first: Db, s: State, limits: Q.Limits, step: Step)
    requires Inv(first, s, limits) && SchemaValid(first)
    ensures var w := WrittenBy(s, step);
            && |w.reach| == |s.reach| && SchemaValid(w.db) && Erase(w.db) == Erase(AsFarAs(first, s.queue.accepted, w.reach))
            && Reached(s.queue, w.reach)
            && (step.AttemptSucceeds? && s.queue.processing.Some? && |s.queue.settled| < |w.reach| ==>
                  w.reach[|s.queue.settled|] == ALL_WRITES)
  {
    hide Q.Valid, Erase, AsFarAs, SchemaValid, HeadOnly, Written, Identified;
    if step.AttemptSucceeds? {
      WritingKeeps(first, s, limits, ALL_WRITES);
    } else if step.AttemptFails? {
      WritingKeeps(first, s, limits, if step.reached < ALL_WRITES then step.reached else ALL_WRITES);
    }
  }

  lemma Assembled(first: Db, s: State, limits: Q.Limits, step: Step, queue: Q.Queue<TaggedEvent>)
    requires queue == Q.Apply(s.queue, limits, QueueStep(step))
    ensures var w := WrittenBy(s, step);
            Apply(s, limits, step) == w.(queue := queue, now := s.now + 1, reach := Extended(w.reach, |queue.accepted|))
  {
    hide Q.Apply, QueueStep, Written;
  }

  lemma StepKeepsInv(first: Db, s: State, limits: Q.Limits, step: Step)
    requires Inv(first, s, limits) && SchemaValid(first) && (step.Enqueue? ==> step.event.uuid.Some?)
    ensures Inv(first, Apply(s, limits, step), limits)
  {
    hide Q.Valid, Q.Apply, QueueStep, HeadOnly, Reached, Identified, Follows, Extended, SchemaValid, Erase, AsFarAs, WrittenBy,
      Apply;
    var queue := Q.Apply(s.queue, limits, QueueStep(step));
    var w := WrittenBy(s, step);
    QueueFollows(s.queue, limits, step);
    Q.StepKeepsValid(s.queue, limits, QueueStep(step));
    StepWrites(first, s, limits, step);
    ReachLength(s.queue, s.reach);
    ReachedFollows(s.queue, queue, step, w.reach);
    EventsFollow(first, s.queue, queue, step, w.reach);
    HeadFollows(s.queue, queue, step);
    Assembled(first, s, limits, step, queue);
  }

  lemma ReachLength(q: Q.Queue<TaggedEvent>, reach: seq<nat>)
    requires Reached(q, reach)
    ensures |reach| == |q.accepted|
  {
  }

  lemma HeadFollows(q: Q.Queue<TaggedEvent>, after: Q.Queue<TaggedEvent>, step: Step)
    requires Follows(q, after, step)
    ensures HeadOnly(after)
  {
  }

  /** Every queued event carries its UUID. */
  ghost predicate AllIdentified(steps: seq<Step>) {
    forall i | 0 <= i < |steps| && steps[i].Enqueue? :: steps[i].event.uuid.Some?
  }

  lemma {:induction false} RunKeepsInv(first: Db, s: State, limits: Q.Limits, steps: seq<Step>)
    requires Inv(first, s, limits) && SchemaValid(first) && AllIdentified(steps)
    ensures Inv(first, Run(s, limits, steps), limits)
    decreases |steps|
  {
    hide Inv, Apply, SchemaValid;
    if steps != [] {
      StepKeepsInv(first, s, limits, steps[0]);
      RunKeepsInv(first, Apply(s, limits, steps[0]), limits, steps[1..]);
    }
  }

  // ---------------------------------------------------------------- the theorems

  /**
   Every run of queue and handler together, with any failures, retries, rejections and
   a stop at any time: up to timestamps the database is the one in which each accepted
   event, in order, was handled once as far as its furthest attempt came. Persisted
   events were handled to the end; behind the first unsettled one nothing was touched.
   */
  lemma QueueAppliesInOrder(db: Db, limits: Q.Limits, steps: seq<Step>)
    requires SchemaValid(db) && AllIdentified(steps)
    ensures var s := Run(Start(db), limits, steps);
            && Reached(s.queue, s.reach)
            && Erase(s.db) == Erase(AsFarAs(db, s.queue.accepted, s.reach))
  {
    StartSatisfiesInv(db, limits);
    RunKeepsInv(db, Start(db), limits, steps);
    hide Run, AsFarAs;
  }

  lemma StartSatisfiesInv(db: Db, limits: Q.Limits)
    requires SchemaValid(db)
    ensures Inv(db, Start(db), limits)
  {
    hide Erase, SchemaValid;
  }

  lemma {:induction false} HandleAllEnds(db: Db, events: seq<TaggedEvent>, at: seq<Time>)
    requires |events| == |at| > 0
    ensures HandleAll(db, events, at)
         == Handle(HandleAll(db, events[..|events| - 1], at[..|at| - 1]), events[|events| - 1], at[|at| - 1])
    decreases |events|
  {
    hide Handle;
    var n := |events| - 1;
    if n == 0 {
      assert events[..0] == [] && at[..0] == [] && events[1..] == [] && at[1..] == [];
    } else {
      HandleAllEnds(Handle(db, events[0], at[0]), events[1..], at[1..]);
      assert events[1..][..n - 1] == events[..n][1..] && at[1..][..n - 1] == at[..n][1..];
    }
  }

  lemma {:induction false} WhollyHandled(db: Db, events: seq<TaggedEvent>, reach: seq<nat>, at: seq<Time>)
    requires |reach| == |events| == |at| && forall i | 0 <= i < |reach| :: reach[i] == ALL_WRITES
    ensures Erase(AsFarAs(db, events, reach)) == Erase(HandleAll(db, events, at))
    decreases |events|
  {
    hide Handle, Attempt, Erase, Writes;
    if events != [] {
      var n := |events| - 1;
      var before := AsFarAs(db, events[..n], reach[..n]);
      var other := HandleAll(db, events[..n], at[..n]);
      WhollyHandled(db, events[..n], reach[..n], at[..n]);
      HandleAllEnds(db, events, at);
      AllWrites(before, events[n], 0);
      HandleErases(before, events[n], 0);
      HandleErases(other, events[n], at[n]);
    }
  }

  lemma SettledArePrefix(q: Q.Queue<TaggedEvent>)
    requires Q.InOrder(q)
    ensures |q.settled| <= |q.accepted| && Q.SettledItems(q.settled) == q.accepted[..|q.settled|]
  {
    hide Q.SettledItems, Q.Items;
  }

  /**
   While no event was rejected, the database is, up to timestamps, what handling the
   settled events exactly once in their order leaves, followed by the furthest attempt
   of the next one if there is one.
   */
  lemma SettledAreHandledOnce(db: Db, limits: Q.Limits, steps: seq<Step>, at: seq<Time>)
    requires SchemaValid(db) && AllIdentified(steps)
    requires var q := Run(Start(db), limits, steps).queue;
             |at| == |q.settled| && forall i | 0 <= i < |q.settled| :: q.settled[i].persisted
    ensures var s := Run(Start(db), limits, steps);
            var handled := HandleAll(db, Q.SettledItems(s.queue.settled), at);
            var n := |s.queue.settled|;
            && n <= |s.queue.accepted| == |s.reach|
            && Erase(s.db) == Erase(if n < |s.reach| then Attempt(handled, s.queue.accepted[n], s.reach[n], 0) else handled)
  {
    var s := Run(Start(db), limits, steps);
    StartSatisfiesInv(db, limits);
    RunKeepsInv(db, Start(db), limits, steps);
    var q, n := s.queue, |s.queue.settled|;
    SettledArePrefix(q);
    hide *;
    HandledThenHead(db, q.accepted, s.reach, n, at);
  }

  lemma HandledThenHead(db: Db, events: seq<TaggedEvent>, reach: seq<nat>, n: nat, at: seq<Time>)
    requires |reach| == |events| && n == |at| <= |events|
    requires (forall i | 0 <= i < n :: reach[i] == ALL_WRITES) && forall i | n < i < |reach| :: reach[i] == 0
    ensures var handled := HandleAll(db, events[..n], at);
            Erase(AsFarAs(db, events, reach)) == Erase(if n < |events| then Attempt(handled, events[n], reach[n], 0) else handled)
  {
    hide Attempt, Erase, HandleAll, Writes;
    WhollyHandled(db, events[..n], reach[..n], at);
    if n < |events| {
      UntouchedTail(db, events, reach, n + 1);
      assert events[..n + 1][..n] == events[..n] && reach[..n + 1][..n] == reach[..n];
      AttemptErases(AsFarAs(db, events[..n], reach[..n]), events[n], reach[n], 0);
      AttemptErases(HandleAll(db, events[..n], at), events[n], reach[n], 0);
    } else {
      assert events[..n] == events && reach[..n] == reach;
    }
  }

  /** A drained queue: idle, not stopped, nothing rejected. Every accepted event has had its effect exactly once. */
  lemma DrainedQueueHandledAll(db: Db, limits: Q.Limits, steps: seq<Step>, at: seq<Time>)
    requires SchemaValid(db) && AllIdentified(steps)
    requires var q := Run(Start(db), limits, steps).queue;
             && Q.IsIdle(q) && !q.stopped && |at| == |q.accepted|
             && forall i | 0 <= i < |q.settled| :: q.settled[i].persisted
    ensures var s := Run(Start(db), limits, steps); Erase(s.db) == Erase(HandleAll(db, s.queue.accepted, at))
  {
    var q := Run(Start(db), limits, steps).queue;
    StartSatisfiesInv(db, limits);
    RunKeepsInv(db, Start(db), limits, steps);
    assert Q.SettledItems(q.settled) == q.accepted by {
      assert q.accepted == Q.SettledItems(q.settled) + q.discarded + Q.Items(q.entries);
    }
    hide Run, Attempt, Erase, HandleAll, Q.SettledItems, Q.Items, SchemaValid;
    SettledAreHandledOnce(db, limits, steps, at);
  }
}
