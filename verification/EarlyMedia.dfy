/**
 early-media-fallback.ts: the controller of the local ringback tone, one state
 record of it. A step is a handled event, a timer, the start of a queued operation,
 or the resumption of an operation after the command it awaited.
 */
module EarlyMedia {
  import opened Wrappers

  type Leg = nat

  datatype LegType = AgentLeg | CustomerLeg | NoLeg

  datatype EventName = Create | ProgressMedia | Answer | Hangup | HangupComplete | Destroy | Bridge | OtherEvent

  /** Where a running operation is suspended; the leg is what it read before. */
  datatype Await = Stats | PacketCount | AnswerHook(leg: Leg) | Tone(leg: Leg) | BreakTone

  datatype Kind = Inspect | StopTone

  /** One promise of the chain; it starts once its predecessor settled, however that ended. */
  datatype Operation = Waiting(kind: Kind) | Running(kind: Kind, at: Await) | Settled

  datatype Note =
    | ToneRequested(leg: Leg, terminated: bool, detected: bool)
    | ToneStarted(leg: Leg)
    | BreakRequested(leg: Leg)

  datatype State = State(
    agentLeg: Option<Leg>,
    customerLeg: Option<Leg>,
    hookInstalled: bool,
    detected: bool,
    active: bool,
    terminated: bool,
    timer: bool,
    liveTimers: nat,          // timers set and neither fired nor cleared
    operations: seq<Operation>,
    log: seq<Note>
  )

  /** How an awaited command ended; a packet count may not be a number. */
  datatype Reply = Failed | Succeeded(packets: Option<int>)

  datatype Step =
    | Handle(name: EventName, legType: LegType, leg: Option<Leg>)
    | TimerFires
    | StartOperation(i: nat)
    | Resume(i: nat, reply: Reply)
    | StopListener

  const FRESH := State(None, None, false, false, false, false, false, 0, [], [])

  function Log(s: State, note: Note): State {
    s.(log := s.log + [note])
  }

  function Schedule(s: State): State {
    if s.timer || s.detected || s.terminated then s else s.(timer := true, liveTimers := s.liveTimers + 1)
  }

  function Enqueue(s: State, kind: Kind): State {
    s.(operations := s.operations + [Waiting(kind)])
  }

  function Terminate(s: State): State {
    var cleared := s.(terminated := true, timer := false,
                      liveTimers := if s.timer && s.liveTimers > 0 then s.liveTimers - 1 else s.liveTimers);
    Enqueue(cleared, StopTone)
  }

  function SetLegs(s: State, legType: LegType, leg: Option<Leg>): State {
    if leg.None? then s
    else if legType == AgentLeg then s.(agentLeg := leg)
    else if legType == CustomerLeg then s.(customerLeg := leg)
    else s
  }

  predicate StartsInspection(name: EventName, legType: LegType) {
    legType == CustomerLeg && (name == Create || name == ProgressMedia)
  }

  predicate IsHangup(name: EventName) {
    name == Hangup || name == HangupComplete || name == Destroy
  }

  predicate Finishes(name: EventName, legType: LegType) {
    (legType == CustomerLeg && (name == Answer || IsHangup(name))) || (legType == AgentLeg && IsHangup(name)) || name == Bridge
  }

  function HandleEvent(s: State, name: EventName, legType: LegType, leg: Option<Leg>): State {
    var known := SetLegs(s, legType, leg);
    var scheduled := if StartsInspection(name, legType) then Schedule(known) else known;
    if Finishes(name, legType) then Terminate(scheduled) else scheduled
  }

  function Fire(s: State): State {
    if s.liveTimers == 0 then s else Enqueue(s.(timer := false, liveTimers := s.liveTimers - 1), Inspect)
  }

  function Put(s: State, i: nat, operation: Operation): State
    requires i < |s.operations|
  {
    s.(operations := s.operations[i := operation])
  }

  /** stopFallbackNow up to its await: the operation goes on waiting for the break, or is over. */
  function StopToneNow(s: State, i: nat, kind: Kind): State
    requires i < |s.operations|
  {
    if !s.active || s.agentLeg.None? then Put(s, i, Settled)
    else Put(Log(s.(active := false), BreakRequested(s.agentLeg.value)), i, Running(kind, BreakTone))
  }

  function RequestTone(s: State, i: nat, leg: Leg): State
    requires i < |s.operations|
  {
    Put(Log(s, ToneRequested(leg, s.terminated, s.detected)), i, Running(Inspect, Tone(leg)))
  }

  predicate CanStart(s: State, i: nat) {
    i < |s.operations| && s.operations[i].Waiting? && (i > 0 ==> s.operations[i - 1].Settled?)
  }

  function Begin(s: State, i: nat): State {
    if !CanStart(s, i) then s
    else if s.operations[i].kind == StopTone then StopToneNow(s, i, StopTone)
    else if s.terminated || s.detected then Put(s, i, Settled)
    else if s.agentLeg.None? || s.customerLeg.None? then Put(Schedule(s), i, Settled)
    else Put(s, i, Running(Inspect, Stats))
  }

  /** The end of the try block: a failed command was caught, a fresh inspection is scheduled either way. */
  function EndInspection(s: State, i: nat): State
    requires i < |s.operations|
  {
    Put(Schedule(s), i, Settled)
  }

  function AfterPacketCount(s: State, i: nat, packets: Option<int>): State
    requires i < |s.operations|
  {
    if packets.Some? && packets.value > 0 then StopToneNow(s.(detected := true), i, Inspect)
    else if s.terminated then Put(s, i, Settled)
    else if s.active then EndInspection(s, i)
    else if s.agentLeg.None? then EndInspection(s, i)
    else if !s.hookInstalled then Put(s, i, Running(Inspect, AnswerHook(s.agentLeg.value)))
    else RequestTone(s, i, s.agentLeg.value)
  }

  function Continue(s: State, i: nat, reply: Reply): State {
    if i >= |s.operations| || !s.operations[i].Running? then s
    else match s.operations[i].at
      case BreakTone => Put(s, i, Settled)
      case Stats => if reply.Failed? then EndInspection(s, i) else Put(s, i, Running(Inspect, PacketCount))
      case PacketCount => if reply.Failed? then EndInspection(s, i) else AfterPacketCount(s, i, reply.packets)
      case AnswerHook(leg) =>
        if reply.Failed? then EndInspection(s, i)
        else if s.terminated then Put(s.(hookInstalled := true), i, Settled)
        else RequestTone(s.(hookInstalled := true), i, leg)
      case Tone(leg) =>
        if reply.Failed? then EndInspection(s, i)
        else EndInspection(Log(s.(active := true), ToneStarted(leg)), i)
  }

  function Apply(s: State, step: Step): State {
    match step
    case Handle(name, legType, leg) => HandleEvent(s, name, legType, leg)
    case TimerFires => Fire(s)
    case StartOperation(i) => Begin(s, i)
    case Resume(i, reply) => Continue(s, i, reply)
    case StopListener => Terminate(s)
  }

  function Run(s: State, steps: seq<Step>): State
    decreases |steps|
  {
    if steps == [] then s else Run(Apply(s, steps[0]), steps[1..])
  }

  // ---------------------------------------------------------------- invariant

  /** Operations settle in order: only the first that has not settled may be running. */
  ghost predicate InOrder(operations: seq<Operation>) {
    forall i, j | 0 <= i < j < |operations| :: !operations[j].Waiting? ==> operations[i].Settled?
  }

  predicate TonesAllowed(log: seq<Note>) {
    forall i | 0 <= i < |log| :: log[i].ToneRequested? ==> !log[i].terminated && !log[i].detected
  }

  function ToneCount(log: seq<Note>): nat {
    if log == [] then 0 else ToneCount(log[..|log| - 1]) + if log[|log| - 1].ToneStarted? then 1 else 0
  }

  /** The last tone that started, if any, was followed by a break. */
  function Broken(log: seq<Note>): bool {
    if log == [] then true
    else match log[|log| - 1]
      case ToneStarted(_) => false
      case BreakRequested(_) => true
      case ToneRequested(_, _, _) => Broken(log[..|log| - 1])
  }

  /** An inspection past the point where it checked that the tone may start. */
  predicate ToneUnderWay(operation: Operation) {
    operation.Running? && (operation.at.AnswerHook? || operation.at.Tone?)
  }

  predicate StopPending(operations: seq<Operation>) {
    exists i | 0 <= i < |operations| :: operations[i] == Waiting(StopTone)
  }

  predicate TimersOk(s: State) {
    s.liveTimers == (if s.timer then 1 else 0) && (s.terminated ==> !s.timer)
  }

  predicate TonesOk(s: State) {
    && TonesAllowed(s.log)
    && ToneCount(s.log) <= 1
    && (ToneCount(s.log) == 0 || s.active || s.terminated || s.detected)
    && (s.active <==> !Broken(s.log))
    && (s.active ==> s.agentLeg.Some? && !s.detected)
  }

  /** What an operation relies on: only termination queues a stop, and an inspection goes on only for its purpose. */
  predicate OperationOk(s: State, operation: Operation) {
    match operation
    case Settled => true
    case Waiting(kind) => kind == StopTone ==> s.terminated
    case Running(StopTone, at) => at.BreakTone?
    case Running(Inspect, at) =>
      && s.agentLeg.Some?
      && (at.BreakTone? || !s.detected)
      && (ToneUnderWay(operation) ==> !s.active && ToneCount(s.log) == 0)
  }

  /** After termination somebody will still stop whatever tone there is or may be. */
  ghost predicate StopOk(s: State) {
    s.terminated && (s.active || exists i | 0 <= i < |s.operations| :: ToneUnderWay(s.operations[i])) ==> StopPending(s.operations)
  }

  ghost predicate Valid(s: State) {
    && InOrder(s.operations)
    && TimersOk(s)
    && TonesOk(s)
    && (forall i | 0 <= i < |s.operations| :: OperationOk(s, s.operations[i]))
    && StopOk(s)
  }

  lemma FreshIsValid()
    ensures Valid(FRESH)
  {
  }

  lemma ScheduleKeepsValid(s: State)
    requires Valid(s)
    ensures Valid(Schedule(s))
  {
    hide InOrder, TonesAllowed, ToneCount, Broken, ToneUnderWay;
  }

  lemma TerminateKeepsValid(s: State)
    requires Valid(s)
    ensures Valid(Terminate(s))
  {
    hide TonesAllowed, ToneCount, Broken, ToneUnderWay;
    var after := Terminate(s);
    assert after.operations[|s.operations|] == Waiting(StopTone);
    assert StopPending(after.operations);
    forall i | 0 <= i < |after.operations|
      ensures OperationOk(after, after.operations[i])
    {
      assert i < |s.operations| ==> OperationOk(s, s.operations[i]);
    }
  }

  lemma LegsKeepValid(s: State, legType: LegType, leg: Option<Leg>)
    requires Valid(s)
    ensures Valid(SetLegs(s, legType, leg))
  {
    hide InOrder, TonesAllowed, ToneCount, Broken, ToneUnderWay;
    var after := SetLegs(s, legType, leg);
    forall i | 0 <= i < |after.operations|
      ensures OperationOk(after, after.operations[i])
    {
      assert OperationOk(s, s.operations[i]);
    }
  }

  lemma HandleKeepsValid(s: State, name: EventName, legType: LegType, leg: Option<Leg>)
    requires Valid(s)
    ensures Valid(HandleEvent(s, name, legType, leg))
  {
    hide Valid, Schedule, Terminate, SetLegs;
    var known := SetLegs(s, legType, leg);
    LegsKeepValid(s, legType, leg);
    ScheduleKeepsValid(known);
    TerminateKeepsValid(if StartsInspection(name, legType) then Schedule(known) else known);
  }

  lemma FireKeepsValid(s: State)
    requires Valid(s)
    ensures Valid(Fire(s))
  {
    hide TonesAllowed, ToneCount, Broken, ToneUnderWay;
    var after := Fire(s);
    if s.liveTimers > 0 {
      forall i | 0 <= i < |after.operations|
        ensures OperationOk(after, after.operations[i])
      {
        assert i < |s.operations| ==> OperationOk(s, s.operations[i]);
      }
    }
  }

  /** The operation that starts or resumes is the only one that is neither settled nor waiting. */
  predicate IsCurrent(s: State, i: nat) {
    i < |s.operations| && (CanStart(s, i) || s.operations[i].Running?)
  }

  lemma CurrentIsAlone(s: State, i: nat)
    requires InOrder(s.operations) && IsCurrent(s, i)
    ensures forall j | 0 <= j < |s.operations| :: if j < i then s.operations[j].Settled? else j > i ==> s.operations[j].Waiting?
  {
    forall j | 0 <= j < i
      ensures s.operations[j].Settled?
    {
      if s.operations[i].Waiting? && j < i - 1 {
        assert !s.operations[i - 1].Waiting?;
      }
    }
  }

  /**
   One step of the current operation keeps the invariant when the new state does:
   its own obligations, the tones, and the pending stop.
   */
  lemma CurrentStepKeepsValid(s: State, after: State, i: nat)
    requires Valid(s) && IsCurrent(s, i)
    requires |after.operations| == |s.operations| && after.operations == s.operations[i := after.operations[i]]
    requires !after.operations[i].Waiting?
    requires TimersOk(after) && TonesOk(after) && OperationOk(after, after.operations[i])
    requires after.terminated == s.terminated
    requires after.terminated && (after.active || ToneUnderWay(after.operations[i])) ==>
               s.operations[i] != Waiting(StopTone) && (s.active || ToneUnderWay(s.operations[i]))
    ensures Valid(after)
  {
    hide TonesOk, TimersOk, TonesAllowed, ToneCount, Broken, ToneUnderWay;
    CurrentIsAlone(s, i);
    forall j | 0 <= j < |after.operations|
      ensures OperationOk(after, after.operations[j])
    {
    }
    if StopPending(s.operations) && s.operations[i] != Waiting(StopTone) {
      var j :| 0 <= j < |s.operations| && s.operations[j] == Waiting(StopTone);
      assert after.operations[j] == Waiting(StopTone);
    }
    assert forall j | 0 <= j < |after.operations| && j != i :: !ToneUnderWay(after.operations[j]) by {
      NotUnderWay();
    }
  }

  lemma NotUnderWay()
    ensures forall o: Operation :: !o.Running? ==> !ToneUnderWay(o)
  {
  }

  lemma LogGrows(log: seq<Note>, note: Note)
    ensures ToneCount(log + [note]) == ToneCount(log) + if note.ToneStarted? then 1 else 0
    ensures Broken(log + [note]) == if note.ToneStarted? then false else if note.BreakRequested? then true else Broken(log)
    ensures TonesAllowed(log) && (note.ToneRequested? ==> !note.terminated && !note.detected) ==> TonesAllowed(log + [note])
  {
    assert (log + [note])[..|log|] == log;
  }

  lemma SettleKeepsValid(s: State, i: nat)
    requires Valid(s) && IsCurrent(s, i) && s.operations[i] != Waiting(StopTone)
    ensures Valid(Put(s, i, Settled))
  {
    hide TonesAllowed, ToneCount, Broken;
    CurrentStepKeepsValid(s, Put(s, i, Settled), i);
  }

  /** Ending a break also ends an operation that owes nothing any more. */
  lemma EndInspectionKeepsValid(s: State, i: nat)
    requires Valid(s) && IsCurrent(s, i) && s.operations[i] != Waiting(StopTone)
    ensures Valid(EndInspection(s, i))
  {
    ScheduleKeepsValid(s);
    SettleKeepsValid(Schedule(s), i);
  }

  lemma StopKeepsValid(s: State, i: nat)
    requires Valid(s) && CanStart(s, i) && s.operations[i] == Waiting(StopTone)
    ensures Valid(StopToneNow(s, i, StopTone))
  {
    hide TonesAllowed, ToneCount, Broken;
    assert OperationOk(s, s.operations[i]);
    if s.active {
      LogGrows(s.log, BreakRequested(s.agentLeg.value));
    }
    CurrentStepKeepsValid(s, StopToneNow(s, i, StopTone), i);
  }

  lemma RequestKeepsValid(s: State, i: nat, leg: Leg)
    requires Valid(s) && IsCurrent(s, i) && s.operations[i].Running? && s.operations[i].kind == Inspect
    requires !s.terminated && !s.detected && !s.active
    ensures Valid(RequestTone(s, i, leg))
  {
    hide TonesAllowed, ToneCount, Broken;
    LogGrows(s.log, ToneRequested(leg, s.terminated, s.detected));
    assert OperationOk(s, s.operations[i]);
    CurrentStepKeepsValid(s, RequestTone(s, i, leg), i);
  }

  lemma MoveKeepsValid(s: State, i: nat, at: Await)
    requires Valid(s) && IsCurrent(s, i) && s.operations[i] != Waiting(StopTone)
    requires s.agentLeg.Some? && !s.detected && !at.BreakTone? && !at.Tone?
    requires at.AnswerHook? ==> !s.terminated && !s.active
    ensures Valid(Put(s, i, Running(Inspect, at)))
  {
    hide TonesAllowed, ToneCount, Broken;
    assert OperationOk(s, s.operations[i]);
    CurrentStepKeepsValid(s, Put(s, i, Running(Inspect, at)), i);
  }

  lemma BeginKeepsValid(s: State, i: nat)
    requires Valid(s)
    ensures Valid(Begin(s, i))
  {
    if CanStart(s, i) {
      if s.operations[i].kind == StopTone {
        StopKeepsValid(s, i);
      } else if s.terminated || s.detected {
        SettleKeepsValid(s, i);
      } else if s.agentLeg.None? || s.customerLeg.None? {
        EndInspectionKeepsValid(s, i);
      } else {
        MoveKeepsValid(s, i, Stats);
      }
    }
  }

  /** Callee media found: the flag is set and any tone is stopped in the same stretch of code. */
  lemma DetectKeepsValid(s: State, i: nat)
    requires Valid(s) && i < |s.operations| && s.operations[i] == Running(Inspect, PacketCount)
    ensures Valid(StopToneNow(s.(detected := true), i, Inspect))
  {
    hide TonesAllowed, ToneCount, Broken;
    var found := s.(detected := true);
    var after := StopToneNow(found, i, Inspect);
    assert OperationOk(s, s.operations[i]);
    if s.active {
      LogGrows(s.log, BreakRequested(s.agentLeg.value));
    }
    CurrentStepKeepsValid(s, after, i);
  }

  lemma ToneStartsKeepsValid(s: State, i: nat, leg: Leg)
    requires Valid(s) && i < |s.operations| && s.operations[i] == Running(Inspect, Tone(leg))
    ensures Valid(EndInspection(Log(s.(active := true), ToneStarted(leg)), i))
  {
    hide TonesAllowed, ToneCount, Broken;
    assert OperationOk(s, s.operations[i]);
    assert ToneUnderWay(s.operations[i]);
    LogGrows(s.log, ToneStarted(leg));
    var started := Log(s.(active := true), ToneStarted(leg));
    var after := EndInspection(started, i);
    CurrentStepKeepsValid(s, after, i);
  }

  lemma ContinueKeepsValid(s: State, i: nat, reply: Reply)
    requires Valid(s)
    ensures Valid(Continue(s, i, reply))
  {
    if i < |s.operations| && s.operations[i].Running? {
      assert OperationOk(s, s.operations[i]);
      var at := s.operations[i].at;
      if at.BreakTone? {
        SettleKeepsValid(s, i);
      } else if reply.Failed? {
        EndInspectionKeepsValid(s, i);
      } else if at.Stats? {
        MoveKeepsValid(s, i, PacketCount);
      } else if at.PacketCount? {
        PacketCountKeepsValid(s, i, reply.packets);
      } else if at.AnswerHook? {
        HookKeepsValid(s, i, at.leg);
      } else {
        ToneStartsKeepsValid(s, i, at.leg);
      }
    }
  }

  lemma HookKeepsValid(s: State, i: nat, leg: Leg)
    requires Valid(s) && i < |s.operations| && s.operations[i] == Running(Inspect, AnswerHook(leg))
    ensures Valid(Continue(s, i, Succeeded(None)))
    ensures forall packets :: Continue(s, i, Succeeded(packets)) == Continue(s, i, Succeeded(None))
  {
    var hooked := s.(hookInstalled := true);
    assert OperationOk(s, s.operations[i]);
    assert ToneUnderWay(s.operations[i]);
    assert Valid(hooked) by { HookIsInvisible(s); }
    if s.terminated {
      SettleKeepsValid(hooked, i);
    } else {
      RequestKeepsValid(hooked, i, leg);
    }
  }

  lemma HookIsInvisible(s: State)
    requires Valid(s)
    ensures Valid(s.(hookInstalled := true))
  {
    hide TonesAllowed, ToneCount, Broken, ToneUnderWay, InOrder;
    forall i | 0 <= i < |s.operations|
      ensures OperationOk(s.(hookInstalled := true), s.operations[i])
    {
      assert OperationOk(s, s.operations[i]);
    }
  }

  lemma PacketCountKeepsValid(s: State, i: nat, packets: Option<int>)
    requires Valid(s) && i < |s.operations| && s.operations[i] == Running(Inspect, PacketCount)
    ensures Valid(AfterPacketCount(s, i, packets))
  {
    assert OperationOk(s, s.operations[i]);
    if packets.Some? && packets.value > 0 {
      DetectKeepsValid(s, i);
    } else if s.terminated {
      SettleKeepsValid(s, i);
    } else if s.active || s.agentLeg.None? {
      EndInspectionKeepsValid(s, i);
    } else if !s.hookInstalled {
      MoveKeepsValid(s, i, AnswerHook(s.agentLeg.value));
    } else {
      RequestKeepsValid(s, i, s.agentLeg.value);
    }
  }

  lemma StepKeepsValid(s: State, step: Step)
    requires Valid(s)
    ensures Valid(Apply(s, step))
  {
    hide Valid, HandleEvent, Fire, Begin, Continue, Terminate;
    match step
    case Handle(name, legType, leg) => HandleKeepsValid(s, name, legType, leg);
    case TimerFires => FireKeepsValid(s);
    case StartOperation(i) => BeginKeepsValid(s, i);
    case Resume(i, reply) => ContinueKeepsValid(s, i, reply);
    case StopListener => TerminateKeepsValid(s);
  }

  lemma {:induction false} RunKeepsValid(s: State, steps: seq<Step>)
    requires Valid(s)
    ensures Valid(Run(s, steps))
    decreases |steps|
  {
    hide Valid, Apply;
    if steps != [] {
      StepKeepsValid(s, steps[0]);
      RunKeepsValid(Apply(s, steps[0]), steps[1..]);
    }
  }

  // ---------------------------------------------------------------- what every interleaving keeps

  /** Operations of one record never overlap, and at most one of its timers is live. */
  lemma OperationsNeverOverlap(steps: seq<Step>, i: nat, j: nat)
    ensures var s := Run(FRESH, steps);
            && s.liveTimers <= 1
            && (i < |s.operations| && j < |s.operations| && s.operations[i].Running? && s.operations[j].Running? ==> i == j)
  {
    FreshIsValid();
    RunKeepsValid(FRESH, steps);
    hide Run;
  }

  /** No tone is requested after termination or after callee media was detected, and one starts at most once. */
  lemma ToneIsAllowedOnce(steps: seq<Step>)
    ensures var s := Run(FRESH, steps);
            && ToneCount(s.log) <= 1
            && forall i | 0 <= i < |s.log| && s.log[i].ToneRequested? :: !s.log[i].terminated && !s.log[i].detected
  {
    FreshIsValid();
    RunKeepsValid(FRESH, steps);
    hide Run;
  }

  /** Once termination's chain is idle no tone is marked active, and a tone that started was followed by a break. */
  lemma IdleAfterTerminationIsSilent(steps: seq<Step>)
    ensures var s := Run(FRESH, steps);
            s.terminated && (forall i | 0 <= i < |s.operations| :: s.operations[i].Settled?) ==> !s.active && Broken(s.log)
  {
    FreshIsValid();
    RunKeepsValid(FRESH, steps);
    hide Run, Broken;
  }

  /** Callee media silences the tone at once: while it is detected none is active. */
  lemma DetectedIsSilent(steps: seq<Step>)
    ensures var s := Run(FRESH, steps); s.detected ==> !s.active && Broken(s.log)
  {
    FreshIsValid();
    RunKeepsValid(FRESH, steps);
    hide Run, Broken;
  }

  // ---------------------------------------------------------------- which leg the break names

  function LegOf(note: Note): Leg {
    note.leg
  }

  predicate OperationNames(operation: Operation, leg: Leg) {
    ToneUnderWay(operation) ==> operation.at.leg == leg
  }

  ghost predicate LogNames(log: seq<Note>, leg: Leg) {
    forall i | 0 <= i < |log| :: LegOf(log[i]) == leg
  }

  ghost predicate AllName(operations: seq<Operation>, leg: Leg) {
    forall i | 0 <= i < |operations| :: OperationNames(operations[i], leg)
  }

  /** Everything recorded about the agent's leg so far names this one. */
  ghost predicate OnlyLeg(s: State, leg: Leg) {
    (s.agentLeg.Some? ==> s.agentLeg.value == leg) && LogNames(s.log, leg) && AllName(s.operations, leg)
  }

  predicate NamesOnly(step: Step, leg: Leg) {
    step.Handle? && step.legType == AgentLeg && step.leg.Some? ==> step.leg.value == leg
  }

  lemma EventKeepsOnlyLeg(s: State, name: EventName, legType: LegType, given: Option<Leg>, leg: Leg)
    requires OnlyLeg(s, leg) && (legType == AgentLeg && given.Some? ==> given.value == leg)
    ensures OnlyLeg(HandleEvent(s, name, legType, given), leg) && OnlyLeg(Fire(s), leg) && OnlyLeg(Terminate(s), leg)
    ensures OnlyLeg(Schedule(s), leg)
  {
    hide LogNames, StartsInspection, Finishes;
    assert OperationNames(Waiting(StopTone), leg) && OperationNames(Waiting(Inspect), leg);
    hide OperationNames;
  }

  lemma PutKeepsOnlyLeg(s: State, i: nat, operation: Operation, leg: Leg)
    requires OnlyLeg(s, leg) && i < |s.operations| && OperationNames(operation, leg)
    ensures OnlyLeg(Put(s, i, operation), leg)
  {
    hide LogNames, OperationNames;
  }

  lemma NoteKeepsOnlyLeg(s: State, note: Note, leg: Leg)
    requires OnlyLeg(s, leg) && LegOf(note) == leg
    ensures OnlyLeg(Log(s, note), leg)
  {
    hide AllName;
  }

  lemma StopKeepsOnlyLeg(s: State, i: nat, kind: Kind, leg: Leg)
    requires OnlyLeg(s, leg) && i < |s.operations|
    ensures OnlyLeg(StopToneNow(s, i, kind), leg)
  {
    hide LogNames, AllName;
    PutKeepsOnlyLeg(s, i, Settled, leg);
    if s.active && s.agentLeg.Some? {
      NoteKeepsOnlyLeg(s.(active := false), BreakRequested(leg), leg);
      PutKeepsOnlyLeg(Log(s.(active := false), BreakRequested(leg)), i, Running(kind, BreakTone), leg);
    }
  }

  lemma RequestKeepsOnlyLeg(s: State, i: nat, leg: Leg)
    requires OnlyLeg(s, leg) && i < |s.operations|
    ensures OnlyLeg(RequestTone(s, i, leg), leg)
  {
    hide LogNames, AllName;
    NoteKeepsOnlyLeg(s, ToneRequested(leg, s.terminated, s.detected), leg);
    PutKeepsOnlyLeg(Log(s, ToneRequested(leg, s.terminated, s.detected)), i, Running(Inspect, Tone(leg)), leg);
  }

  lemma EndKeepsOnlyLeg(s: State, i: nat, leg: Leg)
    requires OnlyLeg(s, leg) && i < |s.operations|
    ensures OnlyLeg(EndInspection(s, i), leg)
  {
    hide LogNames, AllName;
    EventKeepsOnlyLeg(s, OtherEvent, NoLeg, None, leg);
    PutKeepsOnlyLeg(Schedule(s), i, Settled, leg);
  }

  lemma BeginKeepsOnlyLeg(s: State, i: nat, leg: Leg)
    requires OnlyLeg(s, leg)
    ensures OnlyLeg(Begin(s, i), leg)
  {
    hide OnlyLeg, Put, EndInspection;
    if CanStart(s, i) {
      StopKeepsOnlyLeg(s, i, StopTone, leg);
      PutKeepsOnlyLeg(s, i, Settled, leg);
      PutKeepsOnlyLeg(s, i, Running(Inspect, Stats), leg);
      EventKeepsOnlyLeg(s, OtherEvent, NoLeg, None, leg);
      PutKeepsOnlyLeg(Schedule(s), i, Settled, leg);
    }
  }

  lemma CountKeepsOnlyLeg(s: State, i: nat, packets: Option<int>, leg: Leg)
    requires OnlyLeg(s, leg) && i < |s.operations|
    ensures OnlyLeg(AfterPacketCount(s, i, packets), leg)
  {
    hide LogNames, AllName;
    StopKeepsOnlyLeg(s.(detected := true), i, Inspect, leg);
    PutKeepsOnlyLeg(s, i, Settled, leg);
    EndKeepsOnlyLeg(s, i, leg);
    PutKeepsOnlyLeg(s, i, Running(Inspect, AnswerHook(leg)), leg);
    RequestKeepsOnlyLeg(s, i, leg);
    hide EndInspection, RequestTone, StopToneNow, Put;
  }

  lemma ContinueKeepsOnlyLeg(s: State, i: nat, reply: Reply, leg: Leg)
    requires OnlyLeg(s, leg)
    ensures OnlyLeg(Continue(s, i, reply), leg)
  {
    if i < |s.operations| && s.operations[i].Running? {
      assert OperationNames(s.operations[i], leg);
      hide LogNames, AllName, EndInspection, RequestTone, Put, AfterPacketCount;
      PutKeepsOnlyLeg(s, i, Settled, leg);
      PutKeepsOnlyLeg(s, i, Running(Inspect, PacketCount), leg);
      EndKeepsOnlyLeg(s, i, leg);
      if reply.Succeeded? {
        CountKeepsOnlyLeg(s, i, reply.packets, leg);
        PutKeepsOnlyLeg(s.(hookInstalled := true), i, Settled, leg);
        RequestKeepsOnlyLeg(s.(hookInstalled := true), i, leg);
        NoteKeepsOnlyLeg(s.(active := true), ToneStarted(leg), leg);
        EndKeepsOnlyLeg(Log(s.(active := true), ToneStarted(leg)), i, leg);
      }
    }
  }

  lemma StepKeepsOnlyLeg(s: State, step: Step, leg: Leg)
    requires OnlyLeg(s, leg) && NamesOnly(step, leg)
    ensures OnlyLeg(Apply(s, step), leg)
  {
    hide OnlyLeg, HandleEvent, Fire, Terminate, Begin, Continue;
    match step
    case Handle(name, legType, given) => EventKeepsOnlyLeg(s, name, legType, given, leg);
    case StartOperation(i) => BeginKeepsOnlyLeg(s, i, leg);
    case Resume(i, reply) => ContinueKeepsOnlyLeg(s, i, reply, leg);
    case _ => EventKeepsOnlyLeg(s, OtherEvent, NoLeg, None, leg);
  }

  lemma {:induction false} RunKeepsOnlyLeg(s: State, steps: seq<Step>, leg: Leg)
    requires OnlyLeg(s, leg) && forall i | 0 <= i < |steps| :: NamesOnly(steps[i], leg)
    ensures OnlyLeg(Run(s, steps), leg)
    decreases |steps|
  {
    hide OnlyLeg, Apply;
    if steps != [] {
      StepKeepsOnlyLeg(s, steps[0], leg);
      RunKeepsOnlyLeg(Apply(s, steps[0]), steps[1..], leg);
    }
  }

  /** As long as the agent's events all name one leg, tone and break go to that leg. */
  lemma BreakNamesTonedLeg(steps: seq<Step>, leg: Leg)
    requires forall i | 0 <= i < |steps| :: NamesOnly(steps[i], leg)
    ensures var s := Run(FRESH, steps); forall i | 0 <= i < |s.log| :: LegOf(s.log[i]) == leg
  {
    assert OnlyLeg(FRESH, leg);
    RunKeepsOnlyLeg(FRESH, steps, leg);
    hide Run;
  }

  /** An agent event with another leg between tone and break moves the break to that leg. */
  lemma BreakCanMissTheTone(s: State, toned: Leg, other: Leg)
    requires Valid(s) && s.active && !s.terminated && s.agentLeg == Some(toned) && toned != other
    requires forall i | 0 <= i < |s.operations| :: s.operations[i].Settled?
    ensures var after := Begin(HandleEvent(HandleEvent(s, OtherEvent, AgentLeg, Some(other)), Bridge, NoLeg, None), |s.operations|);
            after.log == s.log + [BreakRequested(other)] && !after.active
  {
  }

  /** The leg of the last agent event that carries one. */
  function LastLeg(steps: seq<Step>): Option<Leg> {
    if steps == [] then None
    else
      var last := steps[|steps| - 1];
      if last.Handle? && last.legType == AgentLeg && last.leg.Some? then last.leg else LastLeg(steps[..|steps| - 1])
  }

  lemma {:induction false} RunEndsWithStep(s: State, steps: seq<Step>)
    requires steps != []
    ensures Run(s, steps) == Apply(Run(s, steps[..|steps| - 1]), steps[|steps| - 1])
    decreases |steps|
  {
    hide Apply;
    if |steps| == 1 {
      assert steps[1..] == [] && steps[..0] == [];
      assert Run(Apply(s, steps[0]), []) == Apply(s, steps[0]);
    } else {
      RunEndsWithStep(Apply(s, steps[0]), steps[1..]);
      assert steps[1..][..|steps[1..]| - 1] == steps[..|steps| - 1][1..];
    }
  }

  /** Only agent events with a leg change the agent's leg. */
  lemma StepSetsLeg(s: State, step: Step)
    ensures Apply(s, step).agentLeg
         == if step.Handle? && step.legType == AgentLeg && step.leg.Some? then step.leg else s.agentLeg
  {
    if step.StartOperation? {
      hide CanStart;
      BeginKnowsOperation(s, step.i);
    } else if step.Resume? {
      ContinueKeepsLeg(s, step.i, step.reply);
      hide Continue;
    } else {
      hide StartsInspection, Finishes, Begin, Continue;
    }
  }

  lemma ContinueKeepsLeg(s: State, i: nat, reply: Reply)
    ensures Continue(s, i, reply).agentLeg == s.agentLeg
  {
    if i < |s.operations| && s.operations[i].Running? && reply.Succeeded? {
      CountKeepsLeg(s, i, reply.packets);
    }
    hide AfterPacketCount;
  }

  lemma CountKeepsLeg(s: State, i: nat, packets: Option<int>)
    requires i < |s.operations|
    ensures AfterPacketCount(s, i, packets).agentLeg == s.agentLeg
  {
  }

  lemma {:induction false} AgentLegIsLast(steps: seq<Step>)
    ensures Run(FRESH, steps).agentLeg == LastLeg(steps)
    decreases |steps|
  {
    hide Apply;
    if steps != [] {
      var init := steps[..|steps| - 1];
      AgentLegIsLast(init);
      RunEndsWithStep(FRESH, steps);
      StepSetsLeg(Run(FRESH, init), steps[|steps| - 1]);
    }
  }

  /** What one stretch of code may add to the log: a break it asks for names the leg the record holds. */
  ghost predicate BreaksHeldLeg(s: State, after: State) {
    && s.log <= after.log
    && (|after.log| > |s.log| && after.log[|s.log|].BreakRequested? ==> s.agentLeg == Some(LegOf(after.log[|s.log|])))
  }

  lemma BeginBreaksHeldLeg(s: State, i: nat)
    ensures BreaksHeldLeg(s, Begin(s, i))
  {
    hide CanStart;
    BeginKnowsOperation(s, i);
  }

  lemma BeginKnowsOperation(s: State, i: nat)
    ensures CanStart(s, i) ==> i < |s.operations| && s.operations[i].Waiting?
  {
  }

  lemma CountBreaksHeldLeg(s: State, i: nat, packets: Option<int>)
    requires i < |s.operations|
    ensures BreaksHeldLeg(s, AfterPacketCount(s, i, packets))
  {
  }

  lemma ContinueBreaksHeldLeg(s: State, i: nat, reply: Reply)
    ensures BreaksHeldLeg(s, Continue(s, i, reply))
  {
    if i < |s.operations| && s.operations[i].Running? && reply.Succeeded? {
      CountBreaksHeldLeg(s, i, reply.packets);
    }
    hide AfterPacketCount;
  }

  lemma BreakNamesHeldLeg(s: State, step: Step)
    ensures BreaksHeldLeg(s, Apply(s, step))
  {
    hide Begin, Continue, StartsInspection, Finishes;
    match step
    case StartOperation(i) => BeginBreaksHeldLeg(s, i);
    case Resume(i, reply) => ContinueBreaksHeldLeg(s, i, reply);
    case _ =>
  }

  /**
   Exactly when the break goes to the leg that hears the tone: if and only if that
   leg is the one the last agent event before the break named.
   */
  lemma BreakNamesTonedLegIff(steps: seq<Step>, step: Step, toned: Leg)
    requires ToneStarted(toned) in Run(FRESH, steps).log
    requires var s := Run(FRESH, steps);
             |Apply(s, step).log| > |s.log| && Apply(s, step).log[|s.log|].BreakRequested?
    ensures LegOf(Apply(Run(FRESH, steps), step).log[|Run(FRESH, steps).log|]) == toned <==> LastLeg(steps) == Some(toned)
  {
    hide Run, Apply;
    AgentLegIsLast(steps);
    BreakNamesHeldLeg(Run(FRESH, steps), step);
  }

  // the run in which the break misses the tone: the agent's leg is renamed from 1 to 3 in between

  const RINGING: seq<Step> := [
    Handle(Create, AgentLeg, Some(1)), Handle(Create, CustomerLeg, Some(2)), TimerFires, StartOperation(0)
  ]

  const TONE: seq<Step> := [
    Resume(0, Succeeded(None)), Resume(0, Succeeded(Some(0))), Resume(0, Succeeded(None)), Resume(0, Succeeded(None))
  ]

  const RENAMED: seq<Step> := [Handle(ProgressMedia, AgentLeg, Some(3)), Handle(Bridge, NoLeg, None), StartOperation(1)]

  lemma FourSteps(s: State, steps: seq<Step>)
    requires |steps| == 4
    ensures Run(s, steps) == Apply(Apply(Apply(Apply(s, steps[0]), steps[1]), steps[2]), steps[3])
  {
    hide Apply;
    RunEndsWithStep(s, steps);
    assert steps[..3][..2] == steps[..2] && steps[..2][..1] == steps[..1] && steps[..1][..0] == [];
    RunEndsWithStep(s, steps[..3]);
    RunEndsWithStep(s, steps[..2]);
    RunEndsWithStep(s, steps[..1]);
    assert Run(s, []) == s;
  }

  lemma ThreeSteps(s: State, steps: seq<Step>)
    requires |steps| == 3
    ensures Run(s, steps) == Apply(Apply(Apply(s, steps[0]), steps[1]), steps[2])
  {
    hide Apply;
    RunEndsWithStep(s, steps);
    assert steps[..2][..1] == steps[..1] && steps[..1][..0] == [];
    RunEndsWithStep(s, steps[..2]);
    RunEndsWithStep(s, steps[..1]);
    assert Run(s, []) == s;
  }

  const INSPECTING := State(Some(1), Some(2), false, false, false, false, false, 0, [Running(Inspect, Stats)], [])

  const TONED := State(Some(1), Some(2), true, false, true, false, true, 1, [Settled],
                       [ToneRequested(1, false, false), ToneStarted(1)])

  lemma RingingInspects()
    ensures Run(FRESH, RINGING) == INSPECTING
  {
    FourSteps(FRESH, RINGING);
  }

  lemma InspectionStartsTone()
    ensures Run(INSPECTING, TONE) == TONED
  {
    FourSteps(INSPECTING, TONE);
  }

  lemma RenamedLegIsBroken()
    ensures Run(TONED, RENAMED).log == [ToneRequested(1, false, false), ToneStarted(1), BreakRequested(3)]
    ensures !Run(TONED, RENAMED).active && Run(TONED, RENAMED).terminated
  {
    ThreeSteps(TONED, RENAMED);
  }

  lemma {:induction false} RunJoins(s: State, a: seq<Step>, b: seq<Step>)
    ensures Run(s, a + b) == Run(Run(s, a), b)
    decreases |a|
  {
    hide Apply;
    if a == [] {
      assert a + b == b;
    } else {
      RunJoins(Apply(s, a[0]), a[1..], b);
      assert (a + b)[1..] == a[1..] + b;
    }
  }

  /** From a fresh record, these eleven steps tone leg 1 and break leg 3; leg 1 is never told to stop. */
  lemma BreakMissesTheTone()
    ensures Run(FRESH, RINGING + TONE + RENAMED).log
         == [ToneRequested(1, false, false), ToneStarted(1), BreakRequested(3)]
    ensures !Run(FRESH, RINGING + TONE + RENAMED).active
  {
    RunJoins(FRESH, RINGING + TONE, RENAMED);
    RunJoins(FRESH, RINGING, TONE);
    RingingInspects();
    InspectionStartsTone();
    RenamedLegIsBroken();
  }

  // ---------------------------------------------------------------- what events, starts and replies do, listed out

  const HANGUPS: set<EventName> := {Hangup, HangupComplete, Destroy}

  /** The events after which no local tone may sound: the customer answered, a leg hung up, or the legs were bridged. */
  predicate EndsRinging(name: EventName, legType: LegType) {
    || (name == Answer && legType == CustomerLeg)
    || (name in HANGUPS && legType in {AgentLeg, CustomerLeg})
    || name == Bridge
  }

  /** The customer's leg exists or has early media. */
  predicate BringsMedia(name: EventName, legType: LegType) {
    name in {Create, ProgressMedia} && legType == CustomerLeg
  }

  /** A handled event: the leg it names, an inspection in due time, or the end of the record with a stop behind what runs. */
  ghost predicate FrameHandled(s: State, after: State, name: EventName, legType: LegType, leg: Option<Leg>) {
    && after.agentLeg == (if legType == AgentLeg && leg.Some? then leg else s.agentLeg)
    && after.customerLeg == (if legType == CustomerLeg && leg.Some? then leg else s.customerLeg)
    && (after.terminated <==> s.terminated || EndsRinging(name, legType))
    && (EndsRinging(name, legType) ==>
          !after.timer && after.liveTimers == 0 && after.operations == s.operations + [Waiting(StopTone)])
    && (!EndsRinging(name, legType) ==>
          && after.operations == s.operations
          && (after.timer <==> s.timer || (BringsMedia(name, legType) && !s.detected && !s.terminated))
          && after.liveTimers == if after.timer then 1 else 0)
    && after.hookInstalled == s.hookInstalled && after.detected == s.detected && after.active == s.active && after.log == s.log
  }

  lemma HandleMeans(s: State, name: EventName, legType: LegType, leg: Option<Leg>)
    requires Valid(s)
    ensures FrameHandled(s, HandleEvent(s, name, legType, leg), name, legType, leg)
  {
    assert TimersOk(s);
    hide Valid;
  }

  /** The record was terminated from outside: as after an event that ends the ringing. */
  lemma TerminateMeans(s: State)
    requires Valid(s)
    ensures var after := Terminate(s);
            after == s.(terminated := true, timer := false, liveTimers := 0, operations := s.operations + [Waiting(StopTone)])
  {
    assert TimersOk(s);
    hide Valid;
  }

  /** An operation goes on to wait for a command, or is over; nothing else in the chain moves. */
  predicate Advanced(s: State, after: State, i: nat, next: Operation) {
    i < |s.operations| && after.operations == s.operations[i := next]
  }

  /** The record but for its operations, timer and log. */
  predicate SameRecord(s: State, after: State) {
    && after.agentLeg == s.agentLeg && after.customerLeg == s.customerLeg && after.hookInstalled == s.hookInstalled
    && after.detected == s.detected && after.active == s.active && after.terminated == s.terminated
  }

  /** An inspection that could not decide: over, and another one follows unless the record is past that. */
  predicate TriedAgain(s: State, after: State, i: nat) {
    && Advanced(s, after, i, Settled) && SameRecord(s, after) && after.log == s.log
    && (after.timer <==> s.timer || (!s.detected && !s.terminated))
    && after.liveTimers == if after.timer then 1 else 0
  }

  /** Over, with nothing done. */
  predicate Dropped(s: State, after: State, i: nat) {
    after == s.(operations := after.operations) && Advanced(s, after, i, Settled)
  }

  /** An active tone is broken on the agent's leg and counts as stopped at once; otherwise there is nothing to stop. */
  predicate ToneStopped(s: State, after: State, i: nat, kind: Kind) {
    if s.active && s.agentLeg.Some? then
      && Advanced(s, after, i, Running(kind, BreakTone))
      && after == s.(active := false, log := s.log + [BreakRequested(s.agentLeg.value)], operations := after.operations)
    else Dropped(s, after, i)
  }

  /** The tone is asked for on this leg. */
  predicate ToneAsked(s: State, after: State, i: nat, leg: Leg) {
    && Advanced(s, after, i, Running(Inspect, Tone(leg)))
    && after == s.(log := s.log + [ToneRequested(leg, s.terminated, s.detected)], operations := after.operations)
  }

  /** The first stretch of a queued operation. */
  predicate OperationStarted(s: State, after: State, i: nat) {
    && i < |s.operations| && s.operations[i].Waiting?
    && (if s.operations[i].kind == StopTone then ToneStopped(s, after, i, StopTone)
        else if s.terminated || s.detected then Dropped(s, after, i)
        else if s.agentLeg.None? || s.customerLeg.None? then TriedAgain(s, after, i)
        else Advanced(s, after, i, Running(Inspect, Stats)) && after == s.(operations := after.operations))
  }

  /** What a packet count decides: media from the callee, or whether the tone is wanted and the hook is there. */
  predicate PacketsJudged(s: State, after: State, i: nat, packets: Option<int>) {
    if packets.Some? && packets.value > 0 then ToneStopped(s.(detected := true), after, i, Inspect)
    else if s.terminated then Dropped(s, after, i)
    else if s.active || s.agentLeg.None? then TriedAgain(s, after, i)
    else if s.hookInstalled then ToneAsked(s, after, i, s.agentLeg.value)
    else Advanced(s, after, i, Running(Inspect, AnswerHook(s.agentLeg.value))) && after == s.(operations := after.operations)
  }

  /** The stretch after an awaited command ended. */
  predicate OperationResumed(s: State, after: State, i: nat, reply: Reply) {
    && i < |s.operations| && s.operations[i].Running?
    && match s.operations[i].at
       case BreakTone => Dropped(s, after, i)
       case Stats =>
         if reply.Failed? then TriedAgain(s, after, i)
         else Advanced(s, after, i, Running(Inspect, PacketCount)) && after == s.(operations := after.operations)
       case PacketCount => if reply.Failed? then TriedAgain(s, after, i) else PacketsJudged(s, after, i, reply.packets)
       case AnswerHook(leg) =>
         if reply.Failed? then TriedAgain(s, after, i)
         else if s.terminated then Dropped(s.(hookInstalled := true), after, i)
         else ToneAsked(s.(hookInstalled := true), after, i, leg)
       case Tone(leg) =>
         if reply.Failed? then TriedAgain(s, after, i)
         else TriedAgain(s.(active := true, log := s.log + [ToneStarted(leg)]), after, i)
  }

  lemma BeginMeans(s: State, i: nat)
    requires Valid(s) && CanStart(s, i)
    ensures OperationStarted(s, Begin(s, i), i)
  {
    assert TimersOk(s);
    hide Valid;
  }

  lemma ContinueMeans(s: State, i: nat, reply: Reply)
    requires Valid(s) && i < |s.operations| && s.operations[i].Running?
    ensures OperationResumed(s, Continue(s, i, reply), i, reply)
  {
    assert TimersOk(s);
    hide Valid;
    if s.operations[i].at.PacketCount? && reply.Succeeded? {
      JudgedMeans(s, i, reply.packets);
      hide AfterPacketCount, PacketsJudged;
    }
  }

  lemma JudgedMeans(s: State, i: nat, packets: Option<int>)
    requires TimersOk(s) && i < |s.operations|
    ensures PacketsJudged(s, AfterPacketCount(s, i, packets), i, packets)
  {
  }

  // ---------------------------------------------------------------- after the ringing ended

  function Requests(log: seq<Note>): nat {
    if log == [] then 0 else Requests(log[..|log| - 1]) + if log[|log| - 1].ToneRequested? then 1 else 0
  }

  lemma OneMoreNote(log: seq<Note>, note: Note)
    ensures Requests(log + [note]) == Requests(log) + if note.ToneRequested? then 1 else 0
  {
    assert (log + [note])[..|log|] == log;
  }

  lemma StartAfterEnd(s: State, i: nat)
    requires Valid(s) && s.terminated
    ensures Begin(s, i).terminated && Requests(Begin(s, i).log) == Requests(s.log)
  {
    hide Valid, Begin, CanStart, Requests;
    BeginOnlyIfItCan(s, i);
    if CanStart(s, i) {
      BeginMeans(s, i);
      if s.agentLeg.Some? {
        OneMoreNote(s.log, BreakRequested(s.agentLeg.value));
      }
    }
  }

  lemma BeginOnlyIfItCan(s: State, i: nat)
    ensures !CanStart(s, i) ==> Begin(s, i) == s
    ensures !(i < |s.operations| && s.operations[i].Running?) ==> forall reply :: Continue(s, i, reply) == s
  {
  }

  lemma ResumeAfterEnd(s: State, i: nat, reply: Reply)
    requires Valid(s) && s.terminated
    ensures Continue(s, i, reply).terminated && Requests(Continue(s, i, reply).log) == Requests(s.log)
  {
    BeginOnlyIfItCan(s, i);
    hide Valid, Continue, Requests;
    if i < |s.operations| && s.operations[i].Running? {
      ContinueMeans(s, i, reply);
      if s.agentLeg.Some? {
        OneMoreNote(s.log, BreakRequested(s.agentLeg.value));
      }
      if s.operations[i].at.Tone? {
        OneMoreNote(s.log, ToneStarted(s.operations[i].at.leg));
      } else if s.operations[i].at.AnswerHook? {
        OneMoreNote(s.log, ToneRequested(s.operations[i].at.leg, s.terminated, s.detected));
      }
    }
  }

  lemma StepAfterEnd(s: State, step: Step)
    requires Valid(s) && s.terminated
    ensures Apply(s, step).terminated && Requests(Apply(s, step).log) == Requests(s.log)
  {
    hide Valid, Begin, Continue, HandleEvent, Requests, EndsRinging;
    match step
    case Handle(name, legType, leg) => HandleMeans(s, name, legType, leg);
    case StartOperation(i) => StartAfterEnd(s, i);
    case Resume(i, reply) => ResumeAfterEnd(s, i, reply);
    case _ =>
  }

  lemma {:induction false} NothingAskedAfterEnd(s: State, steps: seq<Step>)
    requires Valid(s) && s.terminated
    ensures Run(s, steps).terminated && Requests(Run(s, steps).log) == Requests(s.log)
    decreases |steps|
  {
    hide Valid, Apply, Requests;
    if steps != [] {
      StepAfterEnd(s, steps[0]);
      StepKeepsValid(s, steps[0]);
      NothingAskedAfterEnd(Apply(s, steps[0]), steps[1..]);
    }
  }

  /** In every run: once an event has ended the ringing, the record is terminated and no tone is ever asked for again. */
  lemma RingingEndsForGood(before: seq<Step>, name: EventName, legType: LegType, leg: Option<Leg>, later: seq<Step>)
    requires EndsRinging(name, legType)
    ensures var s := Run(FRESH, before);
            var after := Run(HandleEvent(s, name, legType, leg), later);
            after.terminated && Requests(after.log) == Requests(s.log)
  {
    var s := Run(FRESH, before);
    FreshIsValid();
    RunKeepsValid(FRESH, before);
    HandleMeans(s, name, legType, leg);
    HandleKeepsValid(s, name, legType, leg);
    NothingAskedAfterEnd(HandleEvent(s, name, legType, leg), later);
    hide Run, Valid, HandleEvent, EndsRinging, Requests;
  }

  /** Callee media is detected by a positive packet count of an inspection under way, and by nothing else. */
  lemma DetectedIff(s: State, step: Step)
    requires Valid(s)
    ensures Apply(s, step).detected <==>
            || s.detected
            || (&& step.Resume? && step.i < |s.operations| && s.operations[step.i].Running?
                && s.operations[step.i].at == PacketCount
                && step.reply.Succeeded? && step.reply.packets.Some? && step.reply.packets.value > 0)
  {
    hide Valid, Begin, Continue, HandleEvent, EndsRinging, CanStart;
    match step
    case Handle(name, legType, leg) => HandleMeans(s, name, legType, leg);
    case StartOperation(i) =>
      BeginOnlyIfItCan(s, i);
      if CanStart(s, i) {
        BeginMeans(s, i);
      }
    case Resume(i, reply) =>
      BeginOnlyIfItCan(s, i);
      if i < |s.operations| && s.operations[i].Running? {
        ContinueMeans(s, i, reply);
      }
    case _ =>
  }

  // ---------------------------------------------------------------- the record and its mutations

  class FallbackState {
    var agentLegUuid: Option<Leg>
    var customerLegUuid: Option<Leg>
    var answerHookInstalled: bool
    var calleeMediaDetected: bool
    var fallbackActive: bool
    var terminated: bool
    var timer: bool
    ghost var liveTimers: nat
    var operations: seq<Operation>
    ghost var log: seq<Note>

    ghost function View(): State
      reads this
    {
      State(agentLegUuid, customerLegUuid, answerHookInstalled, calleeMediaDetected, fallbackActive, terminated,
            timer, liveTimers, operations, log)
    }

    constructor ()
      ensures View() == FRESH && Valid(View())
    {
      agentLegUuid, customerLegUuid, answerHookInstalled, calleeMediaDetected := None, None, false, false;
      fallbackActive, terminated, timer, liveTimers, operations, log := false, false, false, 0, [], [];
      new;
      FreshIsValid();
    }

    method ScheduleInspection()
      modifies this
      ensures View() == Schedule(old(View()))
    {
      if timer || calleeMediaDetected || terminated {
        return;
      }
      timer := true;
      liveTimers := liveTimers + 1;
    }

    method TerminateRecord()
      requires Valid(View())
      modifies this
      ensures terminated && !timer && liveTimers == 0 && operations == old(operations) + [Waiting(StopTone)]
      ensures View() == Terminate(old(View())) && Valid(View())
    {
      TerminateKeepsValid(View());
      assert liveTimers <= 1;
      hide Valid;
      terminated := true;
      if timer {
        liveTimers := 0;
        timer := false;
      }
      operations := operations + [Waiting(StopTone)];
    }

    method HandleFrame(name: EventName, legType: LegType, leg: Option<Leg>)
      requires Valid(View())
      modifies this
      ensures FrameHandled(old(View()), View(), name, legType, leg)
      ensures View() == HandleEvent(old(View()), name, legType, leg) && Valid(View())
    {
      HandleMeans(View(), name, legType, leg);
      hide FrameHandled;
      HandleKeepsValid(View(), name, legType, leg);
      ghost var before := View();
      if legType == AgentLeg && leg.Some? {
        agentLegUuid := leg;
      }
      if legType == CustomerLeg && leg.Some? {
        customerLegUuid := leg;
      }
      assert View() == SetLegs(before, legType, leg);
      LegsKeepValid(before, legType, leg);
      ScheduleKeepsValid(View());
      hide Valid;
      if StartsInspection(name, legType) {
        ScheduleInspection();
      }
      if Finishes(name, legType) {
        TerminateRecord();
      }
    }

    method TimerFired()
      requires Valid(View()) && timer
      modifies this
      ensures View() == Fire(old(View())) && Valid(View())
    {
      FireKeepsValid(View());
      assert liveTimers == 1;
      hide Valid;
      timer := false;
      liveTimers := liveTimers - 1;
      operations := operations + [Waiting(Inspect)];
    }

    method StopFallbackNow(i: nat, kind: Kind)
      requires i < |operations|
      modifies this
      ensures View() == StopToneNow(old(View()), i, kind)
    {
      if !fallbackActive || agentLegUuid.None? {
        operations := operations[i := Settled];
        return;
      }
      fallbackActive := false;
      log := log + [BreakRequested(agentLegUuid.value)];
      operations := operations[i := Running(kind, BreakTone)];
    }

    /** The first stretch of a queued operation. */
    method StartQueued(i: nat)
      requires Valid(View()) && CanStart(View(), i)
      modifies this
      ensures OperationStarted(old(View()), View(), i)
      ensures View() == Begin(old(View()), i) && Valid(View())
    {
      BeginMeans(View(), i);
      hide OperationStarted;
      BeginKeepsValid(View(), i);
      hide Valid;
      if operations[i].kind == StopTone {
        StopFallbackNow(i, StopTone);
      } else if terminated || calleeMediaDetected {
        operations := operations[i := Settled];
      } else if agentLegUuid.None? || customerLegUuid.None? {
        ScheduleInspection();
        operations := operations[i := Settled];
      } else {
        operations := operations[i := Running(Inspect, Stats)];
      }
    }

    method StartTone(i: nat, leg: Leg)
      requires i < |operations|
      modifies this
      ensures View() == RequestTone(old(View()), i, leg)
    {
      log := log + [ToneRequested(leg, terminated, calleeMediaDetected)];
      operations := operations[i := Running(Inspect, Tone(leg))];
    }

    /** The stretch after the packet count was read. */
    method JudgePacketCount(i: nat, packets: Option<int>)
      requires i < |operations|
      modifies this
      ensures View() == AfterPacketCount(old(View()), i, packets)
    {
      if packets.Some? && packets.value > 0 {
        calleeMediaDetected := true;
        StopFallbackNow(i, Inspect);
        return;
      }
      if terminated {
        operations := operations[i := Settled];
        return;
      }
      if !fallbackActive && agentLegUuid.Some? {
        if !answerHookInstalled {
          operations := operations[i := Running(Inspect, AnswerHook(agentLegUuid.value))];
        } else {
          StartTone(i, agentLegUuid.value);
        }
        return;
      }
      ScheduleInspection();
      operations := operations[i := Settled];
    }

    /** The stretch after an awaited command ended. */
    method ResumeOperation(i: nat, reply: Reply)
      requires Valid(View()) && i < |operations| && operations[i].Running?
      modifies this
      ensures OperationResumed(old(View()), View(), i, reply)
      ensures View() == Continue(old(View()), i, reply) && Valid(View())
    {
      ContinueMeans(View(), i, reply);
      hide OperationResumed;
      ContinueKeepsValid(View(), i, reply);
      hide Valid;
      var at := operations[i].at;
      if at.BreakTone? {
        operations := operations[i := Settled];
        return;
      }
      if reply.Failed? {
        ScheduleInspection();
        operations := operations[i := Settled];
        return;
      }
      match at {
        case Stats => operations := operations[i := Running(Inspect, PacketCount)];
        case PacketCount => JudgePacketCount(i, reply.packets);
        case AnswerHook(leg) =>
          answerHookInstalled := true;
          if terminated {
            operations := operations[i := Settled];
          } else {
            StartTone(i, leg);
          }
        case Tone(leg) =>
          fallbackActive := true;
          log := log + [ToneStarted(leg)];
          ScheduleInspection();
          operations := operations[i := Settled];
        case BreakTone =>
      }
    }
  }
}
