/**
 call-recording-finalizer.ts: workers claim terminal recordings, inspect the file
 without holding a lock, and may only write a result while their claim token is
 still the row's. Claim times are distinct, as ticks of one clock.
 */
module RecordingClaims {
  import opened Wrappers

  type CallId = nat
  type Time = nat

  datatype Status = Pending | Recording | Finalizing | Available | Unusable

  /** The recording columns of a call; over: the call has ended and is in a terminal state. */
  datatype Row = Row(enabled: bool, status: Status, hasPath: bool, over: bool, endedAt: Time, checkedAt: Option<Time>)

  datatype Claim = Claim(id: CallId, token: Time)

  datatype Verdict = Finalized | IntegrityFailed

  /** A call event, with the claim that wrote it; none when the call never had a file. */
  datatype Event = Event(id: CallId, verdict: Verdict, claim: Option<Time>)

  /** latest: the newest claim of each call, which the row does not keep once it has a result. */
  datatype World = World(rows: map<CallId, Row>, events: seq<Event>, latest: map<CallId, Time>, now: Time)

  datatype Delays = Delays(grace: nat, stale: nat)

  datatype Step =
    | RecordingStarts(id: CallId)
    | CallEnds(id: CallId)
    | FailWithoutPath(id: CallId, delays: Delays)
    | ClaimOne(id: CallId, delays: Delays)
    | Mark(claim: Claim, verdict: Verdict)

  // ---------------------------------------------------------------- statements

  predicate MissingFile(row: Row, delays: Delays, now: Time) {
    row.enabled && row.status == Pending && !row.hasPath && row.over && row.endedAt + delays.grace <= now
  }

  predicate Claimable(row: Row, delays: Delays, now: Time) {
    && row.over && row.hasPath
    && (|| ((row.status == Pending || row.status == Recording) && row.endedAt + delays.grace <= now)
        || (row.status == Finalizing && (if row.checkedAt.Some? then row.checkedAt.value else row.endedAt) + delays.stale <= now))
  }

  /** startCallRecording's claim of the path, only while the call lives. */
  function StartRecording(w: World, id: CallId): World {
    if id in w.rows && w.rows[id].enabled && !w.rows[id].hasPath && !w.rows[id].over
    then w.(rows := w.rows[id := w.rows[id].(hasPath := true, status := Recording)]) else w
  }

  function EndCall(w: World, id: CallId): World {
    if id in w.rows && !w.rows[id].over then w.(rows := w.rows[id := w.rows[id].(over := true, endedAt := w.now)]) else w
  }

  /** One row of markTerminalRecordingsWithoutPath. */
  function FailMissing(w: World, id: CallId, delays: Delays): World {
    if id in w.rows && MissingFile(w.rows[id], delays, w.now)
    then w.(rows := w.rows[id := w.rows[id].(status := Unusable, checkedAt := Some(w.now))],
            events := w.events + [Event(id, IntegrityFailed, None)])
    else w
  }

  /** One row of claimTerminalRecordings: the claim time is the token. */
  function ClaimRow(w: World, id: CallId, delays: Delays): World {
    if id in w.rows && Claimable(w.rows[id], delays, w.now)
    then w.(rows := w.rows[id := w.rows[id].(status := Finalizing, checkedAt := Some(w.now))], latest := w.latest[id := w.now])
    else w
  }

  predicate Holds(w: World, claim: Claim) {
    claim.id in w.rows && w.rows[claim.id].status == Finalizing && w.rows[claim.id].checkedAt == Some(claim.token)
  }

  /** markRecordingAvailable and markRecordingFailed: one statement, guarded by status and token. */
  function MarkRow(w: World, claim: Claim, verdict: Verdict): World {
    if Holds(w, claim)
    then w.(rows := w.rows[claim.id := w.rows[claim.id].(status := if verdict == Finalized then Available else Unusable,
                                                          checkedAt := Some(w.now))],
            events := w.events + [Event(claim.id, verdict, Some(claim.token))])
    else w
  }

  function Effect(w: World, step: Step): World {
    match step
    case RecordingStarts(id) => StartRecording(w, id)
    case CallEnds(id) => EndCall(w, id)
    case FailWithoutPath(id, delays) => FailMissing(w, id, delays)
    case ClaimOne(id, delays) => ClaimRow(w, id, delays)
    case Mark(claim, verdict) => MarkRow(w, claim, verdict)
  }

  /** Every statement has its own time. */
  function Apply(w: World, step: Step): World {
    Effect(w, step).(now := w.now + 1)
  }

  function Run(w: World, steps: seq<Step>): World
    decreases |steps|
  {
    if steps == [] then w else Run(Apply(w, steps[0]), steps[1..])
  }

  /** What each statement does to its row, listed out; none touches another row. */
  ghost predicate RowChanged(w: World, after: World, id: CallId, row: Row) {
    id in w.rows && after.rows == w.rows[id := row]
  }

  lemma StatementsMean(w: World, id: CallId, delays: Delays)
    ensures var after := StartRecording(w, id);
            if id in w.rows && w.rows[id].enabled && !w.rows[id].hasPath && !w.rows[id].over
            then after == w.(rows := after.rows) && RowChanged(w, after, id, w.rows[id].(hasPath := true, status := Recording))
            else after == w
    ensures var after := EndCall(w, id);
            if id in w.rows && !w.rows[id].over
            then after == w.(rows := after.rows) && RowChanged(w, after, id, w.rows[id].(over := true, endedAt := w.now))
            else after == w
    ensures var after := FailMissing(w, id, delays);
            if && id in w.rows && w.rows[id].enabled && w.rows[id].status == Pending && !w.rows[id].hasPath && w.rows[id].over
               && w.now >= w.rows[id].endedAt + delays.grace
            then
              && after == w.(rows := after.rows, events := w.events + [Event(id, IntegrityFailed, None)])
              && RowChanged(w, after, id, w.rows[id].(status := Unusable, checkedAt := Some(w.now)))
            else after == w
  {
  }

  /**
   A recording is claimed exactly when its call is over, it has a file, and it either
   waits since the grace period or was claimed too long ago; the claim is held under its time.
   */
  lemma ClaimMeans(w: World, id: CallId, delays: Delays)
    ensures var after := ClaimRow(w, id, delays);
            if && id in w.rows && w.rows[id].over && w.rows[id].hasPath
               && (|| (w.rows[id].status in {Pending, Recording} && w.now >= w.rows[id].endedAt + delays.grace)
                   || (w.rows[id].status == Finalizing && w.rows[id].checkedAt.Some?
                       && w.now >= w.rows[id].checkedAt.value + delays.stale)
                   || (w.rows[id].status == Finalizing && w.rows[id].checkedAt.None? && w.now >= w.rows[id].endedAt + delays.stale))
            then
              && after == w.(rows := after.rows, latest := w.latest[id := w.now])
              && RowChanged(w, after, id, w.rows[id].(status := Finalizing, checkedAt := Some(w.now)))
              && Holds(after, Claim(id, w.now))
            else after == w
  {
  }

  /** A mark is written exactly while its claim's token is on the row, with the status of its verdict and one event. */
  lemma MarkMeans(w: World, claim: Claim, verdict: Verdict)
    ensures var after := MarkRow(w, claim, verdict);
            if && claim.id in w.rows && w.rows[claim.id].status == Finalizing
               && w.rows[claim.id].checkedAt == Some(claim.token)
            then
              && after == w.(rows := after.rows, events := w.events + [Event(claim.id, verdict, Some(claim.token))])
              && RowChanged(w, after, claim.id,
                            w.rows[claim.id].(status := match verdict case Finalized => Available case IntegrityFailed => Unusable,
                                              checkedAt := Some(w.now)))
            else after == w
  {
  }

  // ---------------------------------------------------------------- invariant

  predicate Done(row: Row) {
    row.over && (row.status == Available || row.status == Unusable)
  }

  /** An event exists only for a recording that is done; its claim is the newest; no call has two. */
  ghost predicate EventsOk(w: World) {
    && (forall i | 0 <= i < |w.events| ::
          var e := w.events[i];
          && e.id in w.rows && Done(w.rows[e.id])
          && w.rows[e.id].status == (if e.verdict == Finalized then Available else Unusable)
          && (e.claim.Some? ==> e.id in w.latest && w.latest[e.id] == e.claim.value))
    && (forall i, j | 0 <= i < j < |w.events| :: w.events[i].id != w.events[j].id)
  }

  ghost predicate RowsOk(w: World) {
    forall id | id in w.rows && w.rows[id].status == Finalizing ::
      w.rows[id].over && id in w.latest && w.rows[id].checkedAt == Some(w.latest[id])
  }

  ghost predicate TokensOk(w: World) {
    forall id | id in w.latest :: w.latest[id] < w.now
  }

  ghost predicate Valid(w: World) {
    EventsOk(w) && RowsOk(w) && TokensOk(w)
  }

  /** Before the first finalization: nothing claimed, no event. */
  ghost predicate Initial(w: World) {
    w.events == [] && w.latest == map[] && forall id | id in w.rows :: w.rows[id].status != Finalizing
  }

  lemma StepKeepsValid(w: World, step: Step)
    requires Valid(w)
    ensures Valid(Apply(w, step))
  {
    match step {
      case Mark(claim, verdict) => MarkKeepsValid(w, claim, verdict);
      case ClaimOne(id, delays) => ClaimKeepsValid(w, id, delays);
      case FailWithoutPath(id, delays) => FailKeepsValid(w, id, delays);
      case RecordingStarts(id) => StartKeepsValid(w, id);
      case CallEnds(id) => EndKeepsValid(w, id);
    }
  }

  lemma NoEventUnlessDone(w: World, id: CallId)
    requires EventsOk(w) && id in w.rows && !Done(w.rows[id])
    ensures forall i | 0 <= i < |w.events| :: w.events[i].id != id
  {
  }

  lemma MarkKeepsValid(w: World, claim: Claim, verdict: Verdict)
    requires Valid(w)
    ensures Valid(MarkRow(w, claim, verdict).(now := w.now + 1))
  {
    if Holds(w, claim) {
      NoEventUnlessDone(w, claim.id);
    }
  }

  lemma ClaimKeepsValid(w: World, id: CallId, delays: Delays)
    requires Valid(w)
    ensures Valid(ClaimRow(w, id, delays).(now := w.now + 1))
  {
    if id in w.rows && Claimable(w.rows[id], delays, w.now) {
      NoEventUnlessDone(w, id);
    }
  }

  lemma FailKeepsValid(w: World, id: CallId, delays: Delays)
    requires Valid(w)
    ensures Valid(FailMissing(w, id, delays).(now := w.now + 1))
  {
    if id in w.rows && MissingFile(w.rows[id], delays, w.now) {
      NoEventUnlessDone(w, id);
    }
  }

  lemma StartKeepsValid(w: World, id: CallId)
    requires Valid(w)
    ensures Valid(StartRecording(w, id).(now := w.now + 1))
  {
    if id in w.rows && !w.rows[id].over {
      NoEventUnlessDone(w, id);
    }
  }

  lemma EndKeepsValid(w: World, id: CallId)
    requires Valid(w)
    ensures Valid(EndCall(w, id).(now := w.now + 1))
  {
    if id in w.rows && !w.rows[id].over {
      NoEventUnlessDone(w, id);
    }
  }

  lemma {:induction false} RunKeepsValid(w: World, steps: seq<Step>)
    requires Valid(w)
    ensures Valid(Run(w, steps))
    decreases |steps|
  {
    hide Valid, Apply;
    if steps != [] {
      StepKeepsValid(w, steps[0]);
      RunKeepsValid(Apply(w, steps[0]), steps[1..]);
    }
  }

  /**
   With any number of workers and stale re-claims, every recording gets at most one
   finalized-or-failed event, one that a claim wrote comes from the newest claim, and
   the recording is available or failed as its event says.
   */
  lemma OneResultPerRecording(w: World, steps: seq<Step>, i: nat, j: nat)
    requires Initial(w)
    ensures var after := Run(w, steps);
            && (i < |after.events| && j < |after.events| && after.events[i].id == after.events[j].id ==> i == j)
            && (i < |after.events| && after.events[i].claim.Some? ==>
                  after.events[i].id in after.latest && after.latest[after.events[i].id] == after.events[i].claim.value)
            && (i < |after.events| ==>
                  && after.events[i].id in after.rows
                  && after.rows[after.events[i].id].status == if after.events[i].verdict == Finalized then Available else Unusable)
  {
    RunKeepsValid(w, steps);
    hide Run;
  }

  /** A superseded claim is fenced off: its mark changes nothing. */
  lemma StaleClaimIsFenced(w: World, claim: Claim, verdict: Verdict)
    requires Valid(w) && claim.id in w.latest && w.latest[claim.id] != claim.token
    ensures !Holds(w, claim) && MarkRow(w, claim, verdict) == w
  {
  }

  // ---------------------------------------------------------------- one run of a worker

  /**
   What inspecting and marking ran into. The first mark may report an error after or
   before its commit; other workers run before the failed mark that then follows.
   */
  datatype Inspection = GoodFile | BadFile | MarkErrored(committed: bool, between: seq<Step>)

  datatype Result = Result(claimed: nat, available: nat, failed: nat, skipped: nat)

  /** One pass of the loop: the marks it issues, and which counter it raises. */
  function Finish(w: World, claim: Claim, inspection: Inspection, r: Result): (World, Result) {
    match inspection
    case GoodFile =>
      (Apply(w, Mark(claim, Finalized)), if Holds(w, claim) then r.(available := r.available + 1) else r.(skipped := r.skipped + 1))
    case BadFile =>
      (Apply(w, Mark(claim, IntegrityFailed)), if Holds(w, claim) then r.(failed := r.failed + 1) else r.(skipped := r.skipped + 1))
    case MarkErrored(committed, between) =>
      var first := Run(if committed then Apply(w, Mark(claim, Finalized)) else w, between);
      (Apply(first, Mark(claim, IntegrityFailed)),
       if Holds(first, claim) then r.(failed := r.failed + 1) else r.(skipped := r.skipped + 1))
  }

  predicate WrittenBy(e: Event, claims: seq<Claim>, verdict: Verdict) {
    e.verdict == verdict && e.claim.Some? && exists c | 0 <= c < |claims| :: claims[c] == Claim(e.id, e.claim.value)
  }

  /** The events of one kind that these claims wrote. */
  function CountBy(events: seq<Event>, claims: seq<Claim>, verdict: Verdict): nat {
    if events == [] then 0
    else CountBy(events[..|events| - 1], claims, verdict) + if WrittenBy(events[|events| - 1], claims, verdict) then 1 else 0
  }

  /** Other workers' steps never use this run's claims. */
  predicate Foreign(steps: seq<Step>, claims: seq<Claim>) {
    forall i | 0 <= i < |steps| && steps[i].Mark? :: steps[i].claim !in claims
  }

  predicate ForeignBetween(inspection: Inspection, claims: seq<Claim>) {
    inspection.MarkErrored? ==> Foreign(inspection.between, claims)
  }

  /** A committed mark that reported an error. */
  predicate CommitErrored(inspection: Inspection) {
    inspection.MarkErrored? && inspection.committed
  }

  lemma EventAppended(events: seq<Event>, e: Event, claims: seq<Claim>, verdict: Verdict)
    ensures CountBy(events + [e], claims, verdict) == CountBy(events, claims, verdict) + if WrittenBy(e, claims, verdict) then 1 else 0
  {
    assert (events + [e])[..|events|] == events;
  }

  lemma {:induction false} ForeignStepsAddNone(w: World, steps: seq<Step>, claims: seq<Claim>, verdict: Verdict)
    requires Foreign(steps, claims)
    ensures CountBy(Run(w, steps).events, claims, verdict) == CountBy(w.events, claims, verdict)
    decreases |steps|
  {
    if steps != [] {
      ForeignStepAddsNone(w, steps[0], claims, verdict);
      ForeignStepsAddNone(Apply(w, steps[0]), steps[1..], claims, verdict);
    }
  }

  lemma ForeignStepAddsNone(w: World, step: Step, claims: seq<Claim>, verdict: Verdict)
    requires step.Mark? ==> step.claim !in claims
    ensures CountBy(Apply(w, step).events, claims, verdict) == CountBy(w.events, claims, verdict)
  {
    var after := Apply(w, step);
    if |after.events| > |w.events| {
      EventAppended(w.events, after.events[|w.events|], claims, verdict);
      assert after.events == w.events + [after.events[|w.events|]];
    }
  }

  /** A claim that is not held is never held again: its token is in the past. */
  lemma {:induction false} NotHeldAgain(w: World, steps: seq<Step>, claim: Claim)
    requires !Holds(w, claim) && claim.token < w.now
    ensures !Holds(Run(w, steps), claim)
    decreases |steps|
  {
    if steps != [] {
      NotHeldAgainStep(w, steps[0], claim);
      NotHeldAgain(Apply(w, steps[0]), steps[1..], claim);
    }
  }

  lemma NotHeldAgainStep(w: World, step: Step, claim: Claim)
    requires !Holds(w, claim) && claim.token < w.now
    ensures !Holds(Apply(w, step), claim)
  {
  }

  lemma {:induction false} TimeGoesOn(w: World, steps: seq<Step>)
    ensures w.now <= Run(w, steps).now
    decreases |steps|
  {
    if steps != [] {
      TimeGoesOn(Apply(w, steps[0]), steps[1..]);
    }
  }

  /** A mark of this run adds its event exactly while its claim is held, and gives the claim up. */
  lemma MarkCounts(w: World, claim: Claim, verdict: Verdict, claims: seq<Claim>, counted: Verdict)
    requires claim in claims
    ensures CountBy(Apply(w, Mark(claim, verdict)).events, claims, counted)
         == CountBy(w.events, claims, counted) + (if Holds(w, claim) && verdict == counted then 1 else 0)
    ensures !Holds(Apply(w, Mark(claim, verdict)), claim)
  {
    var e := Event(claim.id, verdict, Some(claim.token));
    assert verdict == counted ==> WrittenBy(e, claims, counted);
    EventAppended(w.events, e, claims, counted);
  }

  /**
   A pass adds one event of this run, of its kind, for the result it counts, and a finalized one
   it does not count exactly when a held claim's committed mark was reported as an error.
   */
  lemma PassCounts(w: World, claim: Claim, inspection: Inspection, r: Result, claims: seq<Claim>)
    requires claim in claims && claim.token < w.now && ForeignBetween(inspection, claims)
    ensures var (after, result) := Finish(w, claim, inspection, r);
            && result.available + result.failed + result.skipped == r.available + r.failed + r.skipped + 1
            && CountBy(after.events, claims, Finalized) - CountBy(w.events, claims, Finalized)
            == result.available - r.available + (if CommitErrored(inspection) && Holds(w, claim) then 1 else 0)
            && CountBy(after.events, claims, IntegrityFailed) - CountBy(w.events, claims, IntegrityFailed)
            == result.failed - r.failed
            && result.available + result.failed - r.available - r.failed
               + (if CommitErrored(inspection) && Holds(w, claim) then 1 else 0) <= 1
            && after.now > w.now
  {
    PassAdds(w, claim, inspection, claims, Finalized);
    PassAdds(w, claim, inspection, claims, IntegrityFailed);
    if CommitErrored(inspection) {
      var marked := Apply(w, Mark(claim, Finalized));
      MarkCounts(w, claim, Finalized, claims, Finalized);
      NotHeldAgain(marked, inspection.between, claim);
    }
    hide Holds, CountBy, Run, MarkRow;
  }

  /** The events of one kind that a pass adds. */
  lemma PassAdds(w: World, claim: Claim, inspection: Inspection, claims: seq<Claim>, counted: Verdict)
    requires claim in claims && claim.token < w.now && ForeignBetween(inspection, claims)
    ensures var after := Finish(w, claim, inspection, Result(0, 0, 0, 0)).0;
            && after.now > w.now
            && CountBy(after.events, claims, counted) - CountBy(w.events, claims, counted)
            == match inspection
               case GoodFile => if Holds(w, claim) && counted == Finalized then 1 else 0
               case BadFile => if Holds(w, claim) && counted == IntegrityFailed then 1 else 0
               case MarkErrored(committed, between) =>
                 (if committed && Holds(w, claim) && counted == Finalized then 1 else 0)
                 + (if Holds(Run(if committed then Apply(w, Mark(claim, Finalized)) else w, between), claim)
                       && counted == IntegrityFailed then 1 else 0)
  {
    match inspection
    case GoodFile => MarkCounts(w, claim, Finalized, claims, counted);
    case BadFile => MarkCounts(w, claim, IntegrityFailed, claims, counted);
    case MarkErrored(committed, between) =>
      var marked := if committed then Apply(w, Mark(claim, Finalized)) else w;
      MarkCounts(w, claim, Finalized, claims, counted);
      ForeignStepsAddNone(marked, between, claims, counted);
      TimeGoesOn(marked, between);
      MarkCounts(Run(marked, between), claim, IntegrityFailed, claims, counted);
  }

  /** A recording in the hands of one claim is available, or failed, and so says the log; a claim that is not held leaves no trace. */
  ghost predicate Marked(w: World, after: World, claim: Claim, held: bool, verdict: Verdict) {
    if held then
      && claim.id in w.rows && after.events == w.events + [Event(claim.id, verdict, Some(claim.token))]
      && after.rows == w.rows[claim.id := w.rows[claim.id].(checkedAt := Some(w.now),
                                                            status := if verdict == Finalized then Available else Unusable)]
    else after.events == w.events && after.rows == w.rows
  }

  /**
   What one pass makes of its recording: available and counted so for a good file, failed and counted so for a bad
   one, skipped when the claim is not held any more; a mark that seems to fail is followed by one as failed.
   */
  lemma PassMeans(w: World, claim: Claim, inspection: Inspection, r: Result)
    ensures var (after, result) := Finish(w, claim, inspection, r);
            var held := claim.id in w.rows && w.rows[claim.id].status == Finalizing && w.rows[claim.id].checkedAt == Some(claim.token);
            && (inspection.GoodFile? ==>
                  && Marked(w, after, claim, held, Finalized)
                  && result == if held then r.(available := r.available + 1) else r.(skipped := r.skipped + 1))
            && (inspection.BadFile? ==>
                  && Marked(w, after, claim, held, IntegrityFailed)
                  && result == if held then r.(failed := r.failed + 1) else r.(skipped := r.skipped + 1))
            && (inspection.MarkErrored? ==>
                  exists first, next :: && Marked(w, first, claim, held && inspection.committed, Finalized)
                                        && next == Run(first, inspection.between)
                                        && Marked(next, after, claim, Holds(next, claim), IntegrityFailed)
                                        && result == if Holds(next, claim) then r.(failed := r.failed + 1)
                                                     else r.(skipped := r.skipped + 1))
  {
    if inspection.MarkErrored? {
      var first := if inspection.committed then Apply(w, Mark(claim, Finalized)) else w;
      assert Marked(w, first, claim, Holds(w, claim) && inspection.committed, Finalized);
      var next := Run(first, inspection.between);
      assert Marked(next, Apply(next, Mark(claim, IntegrityFailed)), claim, Holds(next, claim), IntegrityFailed);
    }
  }

  /** The world and the counters after the first `passes` passes of the loop. */
  ghost function After(w: World, claims: seq<Claim>, withoutPath: nat, inspections: seq<Inspection>,
                       others: seq<seq<Step>>, passes: nat): (World, Result)
    requires |inspections| == |others| == |claims| && passes <= |claims|
  {
    if passes == 0 then (w, Result(withoutPath + |claims|, 0, withoutPath, 0))
    else
      var (before, r) := After(w, claims, withoutPath, inspections, others, passes - 1);
      Finish(Run(before, others[passes - 1]), claims[passes - 1], inspections[passes - 1], r)
  }

  /** The passes whose claim was still held, whose mark committed, and which were told it failed. */
  ghost function HiddenCommits(w: World, claims: seq<Claim>, withoutPath: nat, inspections: seq<Inspection>,
                               others: seq<seq<Step>>, passes: nat): nat
    requires |inspections| == |others| == |claims| && passes <= |claims|
  {
    if passes == 0 then 0
    else
      var (before, _) := After(w, claims, withoutPath, inspections, others, passes - 1);
      HiddenCommits(w, claims, withoutPath, inspections, others, passes - 1)
      + if CommitErrored(inspections[passes - 1]) && Holds(Run(before, others[passes - 1]), claims[passes - 1])
        then 1 else 0
  }

  /**
   runCallRecordingFinalization after its two statements, which drew the claims'
   tokens; before each mark other workers may do anything with claims of their own. A
   completed run accounts for
   every claim once. Its claims wrote as many failed events as it counts, and as many
   finalized ones, and one more of these for every held claim whose mark committed but reported an error.
   */
  method FinalizeClaims(w: World, claims: seq<Claim>, withoutPath: nat, inspections: seq<Inspection>,
                        others: seq<seq<Step>>)
    returns (after: World, r: Result)
    requires |inspections| == |others| == |claims| && forall i | 0 <= i < |others| :: Foreign(others[i], claims)
    requires forall i | 0 <= i < |claims| :: claims[i].token < w.now && ForeignBetween(inspections[i], claims)
    ensures (after, r) == After(w, claims, withoutPath, inspections, others, |claims|)
    ensures r.claimed == withoutPath + |claims| == r.available + r.failed + r.skipped
    ensures CountBy(after.events, claims, Finalized) - CountBy(w.events, claims, Finalized)
         == r.available + HiddenCommits(w, claims, withoutPath, inspections, others, |claims|)
    ensures CountBy(after.events, claims, IntegrityFailed) - CountBy(w.events, claims, IntegrityFailed) == r.failed - withoutPath
    ensures r.available + HiddenCommits(w, claims, withoutPath, inspections, others, |claims|) + r.failed <= withoutPath + |claims|
    ensures (forall i | 0 <= i < |inspections| :: !CommitErrored(inspections[i])) ==>
              CountBy(after.events, claims, Finalized) - CountBy(w.events, claims, Finalized) == r.available
    ensures Valid(w) ==> Valid(after)
  {
    after, r := w, Result(withoutPath + |claims|, 0, withoutPath, 0);
    for i := 0 to |claims|
      invariant (after, r) == After(w, claims, withoutPath, inspections, others, i)
      invariant r.claimed == withoutPath + |claims| && r.available + r.failed + r.skipped == withoutPath + i
      invariant CountBy(after.events, claims, Finalized) - CountBy(w.events, claims, Finalized)
             == r.available + HiddenCommits(w, claims, withoutPath, inspections, others, i)
      invariant CountBy(after.events, claims, IntegrityFailed) - CountBy(w.events, claims, IntegrityFailed) == r.failed - withoutPath
      invariant r.available + HiddenCommits(w, claims, withoutPath, inspections, others, i) + r.failed <= withoutPath + i
      invariant Valid(w) ==> Valid(after)
      invariant w.now <= after.now
    {
      ForeignStepsAddNone(after, others[i], claims, Finalized);
      ForeignStepsAddNone(after, others[i], claims, IntegrityFailed);
      TimeGoesOn(after, others[i]);
      if Valid(w) {
        RunKeepsValid(after, others[i]);
      }
      after := Run(after, others[i]);
      PassCounts(after, claims[i], inspections[i], r, claims);
      FinishKeepsValid(after, claims[i], inspections[i], r);
      hide Valid, Finish, CountBy, Run, Holds;
      var (next, result) := Finish(after, claims[i], inspections[i], r);
      after, r := next, result;
    }
    if forall i | 0 <= i < |inspections| :: !CommitErrored(inspections[i]) {
      NothingHidden(w, claims, withoutPath, inspections, others, |claims|);
    }
  }

  lemma {:induction false} NothingHidden(w: World, claims: seq<Claim>, withoutPath: nat, inspections: seq<Inspection>,
                                         others: seq<seq<Step>>, passes: nat)
    requires |inspections| == |others| == |claims| && passes <= |claims|
    requires forall i | 0 <= i < |inspections| :: !CommitErrored(inspections[i])
    ensures HiddenCommits(w, claims, withoutPath, inspections, others, passes) == 0
  {
    if passes > 0 {
      NothingHidden(w, claims, withoutPath, inspections, others, passes - 1);
    }
  }

  lemma FinishKeepsValid(w: World, claim: Claim, inspection: Inspection, r: Result)
    ensures Valid(w) ==> Valid(Finish(w, claim, inspection, r).0)
    ensures Finish(w, claim, inspection, r).1.claimed == r.claimed
  {
    hide Valid, Apply, Run;
    if Valid(w) {
      StepKeepsValid(w, Mark(claim, Finalized));
      StepKeepsValid(w, Mark(claim, IntegrityFailed));
      if inspection.MarkErrored? {
        var marked := if inspection.committed then Apply(w, Mark(claim, Finalized)) else w;
        RunKeepsValid(marked, inspection.between);
        StepKeepsValid(Run(marked, inspection.between), Mark(claim, IntegrityFailed));
      }
    }
  }

  // the run in which a written result is counted as skipped

  const CLAIMED_AT: Time := 5
  const UNFINISHED := World(map[0 := Row(true, Recording, true, true, 0, None)], [], map[], CLAIMED_AT)
  const CLAIMS: seq<Claim> := [Claim(0, CLAIMED_AT)]
  const ERRORED: seq<Inspection> := [MarkErrored(true, [])]

  /** One recording is claimed, its mark commits but reports an error: the run writes an event and counts nothing. */
  lemma CommitIsHidden()
    ensures Initial(UNFINISHED)
    ensures var w := Run(UNFINISHED, [ClaimOne(0, Delays(0, 0))]);
            && HiddenCommits(w, CLAIMS, 0, ERRORED, [[]], 1) == 1
            && After(w, CLAIMS, 0, ERRORED, [[]], 1).1 == Result(1, 0, 0, 1)
            && After(w, CLAIMS, 0, ERRORED, [[]], 1).0.events == [Event(0, Finalized, Some(CLAIMED_AT))]
  {
    var step := ClaimOne(0, Delays(0, 0));
    var w := Apply(UNFINISHED, step);
    assert [step][1..] == [];
    assert Run(UNFINISHED, [step]) == Run(w, []) == w;
    assert Holds(w, CLAIMS[0]);
    assert After(w, CLAIMS, 0, ERRORED, [[]], 0) == (w, Result(1, 0, 0, 0));
    assert Run(w, []) == w;
    var marked := Apply(w, Mark(CLAIMS[0], Finalized));
    assert Run(marked, []) == marked && !Holds(marked, CLAIMS[0]);
  }

  /** The claiming statement over a page of rows: every claim it returns is held when it is returned. */
  method ClaimPage(w: World, page: seq<CallId>, delays: Delays) returns (after: World, claims: seq<Claim>)
    requires Valid(w)
    requires forall i, j | 0 <= i < j < |page| :: page[i] != page[j]
    requires forall i | 0 <= i < |page| :: page[i] in w.rows && Claimable(w.rows[page[i]], delays, w.now)
    ensures Valid(after) && |claims| == |page| && after.events == w.events
    ensures forall i | 0 <= i < |claims| :: claims[i].id == page[i] && Holds(after, claims[i]) && w.now <= claims[i].token < after.now
  {
    after, claims := w, [];
    for i := 0 to |page|
      invariant Valid(after) && |claims| == i && after.events == w.events && w.now <= after.now
      invariant forall k | 0 <= k < i :: claims[k].id == page[k] && Holds(after, claims[k]) && w.now <= claims[k].token < after.now
      invariant forall k | i <= k < |page| :: page[k] in after.rows && after.rows[page[k]] == w.rows[page[k]]
    {
      ClaimKeepsValid(after, page[i], delays);
      claims := claims + [Claim(page[i], after.now)];
      after := Apply(after, ClaimOne(page[i], delays));
    }
  }
}
