/**
 How esl-events.ts wires the two: the reconciliation task waits for the
 persistence queue to become idle before it compares calls with FreeSWITCH, and
 stopping the listener stops the task before the queue.
 */
module ReconcileWiring {
  import opened Wrappers
  import Queues = RetryQueue
  import Tasks = CoalescedTask

  /** Where the task's body is: waiting for the queue, woken but not yet resumed, or reconciling. */
  datatype Phase =
    | NoRun
    | AwaitingQueue(mark: nat, waiter: nat)
    | Resuming(mark: nat)
    | Reconciling(mark: nat)

  /** One reconciliation: how many events had been accepted when its run began, and settled when it compared. */
  datatype Reconciliation = Reconciliation(mark: nat, settledAtStart: nat)

  datatype System<T> = System(
    queue: Queues.Queue<T>,
    task: Tasks.Task,
    phase: Phase,
    stopped: bool,
    nextWaiter: nat,
    history: seq<Reconciliation>
  )

  datatype Step<T> =
    | QueueStep(step: Queues.Step<T>)
    | RequestReconciliation
    | ResumeRun
    | ReconciliationEnds
    | StopListener

  function Fresh<T>(): System<T> {
    System(Queues.Empty(), Tasks.IDLE, NoRun, false, 0, [])
  }

  /** The task's body up to its first await. */
  function BeginBody<T>(s: System<T>): System<T> {
    var mark := |s.queue.accepted|;
    if Queues.IsIdle(s.queue) then s.(phase := Resuming(mark))
    else s.(queue := Queues.Register(s.queue, s.nextWaiter), nextWaiter := s.nextWaiter + 1,
            phase := AwaitingQueue(mark, s.nextWaiter))
  }

  function EndBody<T>(s: System<T>): System<T> {
    var ended := s.(task := Tasks.EndRun(s.task), phase := NoRun);
    if ended.task.running then BeginBody(ended) else ended
  }

  predicate CanResume<T>(s: System<T>) {
    s.phase.Resuming? || (s.phase.AwaitingQueue? && s.phase.waiter !in s.queue.waiters)
  }

  function Resume<T>(s: System<T>): System<T> {
    if !CanResume(s) then s
    else if s.stopped then EndBody(s)
    else s.(phase := Reconciling(s.phase.mark),
            history := s.history + [Reconciliation(s.phase.mark, |s.queue.settled|)])
  }

  function RequestRun<T>(s: System<T>): System<T> {
    var requested := s.(task := Tasks.MakeRequest(s.task));
    if !s.task.running && requested.task.running then BeginBody(requested) else requested
  }

  /** The queue's own steps; only the listener's stop handler stops it, and only the task's body waits on it. */
  predicate IsQueueWork<T>(step: Queues.Step<T>) {
    !step.Stop? && !step.WaitForIdle?
  }

  function Apply<T>(s: System<T>, limits: Queues.Limits, step: Step<T>): System<T> {
    match step
    case QueueStep(q) => if IsQueueWork(q) then s.(queue := Queues.Apply(s.queue, limits, q)) else s
    case RequestReconciliation => RequestRun(s)
    case ResumeRun => Resume(s)
    case ReconciliationEnds => if s.phase.Reconciling? then EndBody(s) else s
    case StopListener => s.(stopped := true, task := Tasks.StopTask(s.task), queue := Queues.StopQueue(s.queue))
  }

  function Run<T>(s: System<T>, limits: Queues.Limits, steps: seq<Step<T>>): System<T>
    decreases |steps|
  {
    if steps == [] then s else Run(Apply(s, limits, steps[0]), limits, steps[1..])
  }

  // ---------------------------------------------------------------- invariant

  predicate Marked(phase: Phase, accepted: nat, settled: nat, waiters: set<nat>) {
    match phase
    case NoRun => true
    case AwaitingQueue(mark, waiter) => mark <= accepted && (waiter in waiters || mark <= settled)
    case Resuming(mark) => mark <= settled
    case Reconciling(mark) => mark <= settled
  }

  ghost predicate Behind(history: seq<Reconciliation>, settled: nat) {
    forall i | 0 <= i < |history| :: history[i].mark <= history[i].settledAtStart <= settled
  }

  ghost predicate Valid<T>(s: System<T>, limits: Queues.Limits) {
    && Queues.Valid(s.queue, limits) && Tasks.Valid(s.task)
    && s.stopped == s.task.stopped == s.queue.stopped && s.queue.late == {}
    && (s.phase.NoRun? <==> !s.task.running)
    && (!s.stopped ==> Marked(s.phase, |s.queue.accepted|, |s.queue.settled|, s.queue.waiters))
    && Behind(s.history, |s.queue.settled|)
  }

  /** A waiter leaves the set only when the queue has settled everything it accepted. */
  lemma WokenMeansSettled<T>(q: Queues.Queue<T>, limits: Queues.Limits, step: Queues.Step<T>, waiter: nat)
    requires Queues.Valid(q, limits) && !q.stopped && IsQueueWork(step)
    requires waiter in q.waiters
    ensures var after := Queues.Apply(q, limits, step);
            !after.stopped && (waiter in after.waiters || |after.settled| == |after.accepted|)
  {
    Queues.StepKeepsValid(q, limits, step);
    hide Queues.Valid, Queues.RetryDelay, Queues.HoldsAttempt;
    var after := Queues.Apply(q, limits, step);
    assert waiter in after.waiters || Queues.IsIdle(after);
    IdleMeansSettled(after, limits);
  }

  lemma IdleMeansSettled<T>(q: Queues.Queue<T>, limits: Queues.Limits)
    requires Queues.Valid(q, limits)
    ensures Queues.IsIdle(q) && !q.stopped ==> |q.settled| == |q.accepted|
    ensures |q.settled| <= |q.accepted|
  {
  }

  lemma QueueStepKeepsValid<T>(s: System<T>, limits: Queues.Limits, step: Queues.Step<T>)
    requires Valid(s, limits) && IsQueueWork(step)
    ensures Valid(s.(queue := Queues.Apply(s.queue, limits, step)), limits)
  {
    var after := Queues.Apply(s.queue, limits, step);
    Queues.StepKeepsValid(s.queue, limits, step);
    StopIsOurs(s.queue, limits, step);
    if !s.stopped && s.phase.AwaitingQueue? && s.phase.waiter in s.queue.waiters {
      WokenMeansSettled(s.queue, limits, step, s.phase.waiter);
    }
    if !s.stopped && s.phase.AwaitingQueue? && s.phase.waiter !in s.queue.waiters {
      assert s.phase.mark <= |s.queue.settled|;
    }
    hide Queues.Valid, Tasks.Valid, Queues.Apply;
  }

  lemma StopIsOurs<T>(q: Queues.Queue<T>, limits: Queues.Limits, step: Queues.Step<T>)
    requires IsQueueWork(step)
    ensures Queues.Apply(q, limits, step).stopped == q.stopped && Queues.Apply(q, limits, step).late == q.late
  {
    hide Queues.RetryDelay, Queues.HoldsAttempt;
  }

  lemma BeginKeepsValid<T>(s: System<T>, limits: Queues.Limits)
    requires Valid(s.(phase := Resuming(0)), limits) && s.task.running && !s.stopped
    ensures Valid(BeginBody(s), limits)
  {
    IdleMeansSettled(s.queue, limits);
    Queues.StepKeepsValid(s.queue, limits, Queues.WaitForIdle(s.nextWaiter));
    hide Queues.Valid, Tasks.Valid;
  }

  lemma EndKeepsValid<T>(s: System<T>, limits: Queues.Limits)
    requires Valid(s, limits) && s.task.running
    ensures Valid(EndBody(s), limits)
  {
    Tasks.StepKeepsValid(s.task, Tasks.RunEnds);
    var ended := s.(task := Tasks.EndRun(s.task), phase := NoRun);
    if ended.task.running {
      assert !s.stopped;
      hide Queues.Valid, Tasks.Valid;
      BeginKeepsValid(ended, limits);
    }
  }

  lemma RequestKeepsValid<T>(s: System<T>, limits: Queues.Limits)
    requires Valid(s, limits)
    ensures Valid(RequestRun(s), limits)
  {
    Tasks.StepKeepsValid(s.task, Tasks.Request);
    var requested := s.(task := Tasks.MakeRequest(s.task));
    assert s.task.running ==> requested.task.running;
    if !s.task.running && requested.task.running {
      hide Queues.Valid, Tasks.Valid;
      BeginKeepsValid(requested, limits);
    }
  }

  lemma StopKeepsValid<T>(s: System<T>, limits: Queues.Limits)
    requires Valid(s, limits)
    ensures Valid(Apply(s, limits, StopListener), limits)
  {
    Queues.StepKeepsValid(s.queue, limits, Queues.Stop);
    Tasks.StepKeepsValid(s.task, Tasks.Stop);
    hide Queues.Valid, Tasks.Valid;
  }

  lemma StepKeepsValid<T>(s: System<T>, limits: Queues.Limits, step: Step<T>)
    requires Valid(s, limits)
    ensures Valid(Apply(s, limits, step), limits)
  {
    hide Queues.Valid, Tasks.Valid, Queues.Apply;
    match step {
      case QueueStep(q) => if IsQueueWork(q) { QueueStepKeepsValid(s, limits, q); }
      case RequestReconciliation => RequestKeepsValid(s, limits);
      case ResumeRun => if CanResume(s) { ResumeKeepsValid(s, limits); }
      case ReconciliationEnds => if s.phase.Reconciling? { EndKeepsValid(s, limits); }
      case StopListener => StopKeepsValid(s, limits);
    }
  }

  lemma ResumeKeepsValid<T>(s: System<T>, limits: Queues.Limits)
    requires Valid(s, limits) && CanResume(s)
    ensures Valid(Resume(s), limits)
  {
    hide Queues.Valid, Tasks.Valid;
    if s.stopped {
      EndKeepsValid(s, limits);
    } else {
      assert s.phase.mark <= |s.queue.settled|;
    }
  }

  lemma {:induction false} RunKeepsValid<T>(s: System<T>, limits: Queues.Limits, steps: seq<Step<T>>)
    requires Valid(s, limits)
    ensures Valid(Run(s, limits, steps), limits)
    decreases |steps|
  {
    hide Valid, Apply;
    if steps != [] {
      StepKeepsValid(s, limits, steps[0]);
      RunKeepsValid(Apply(s, limits, steps[0]), limits, steps[1..]);
    }
  }

  lemma FreshRunIsValid<T>(limits: Queues.Limits, steps: seq<Step<T>>)
    ensures Valid(Run(Fresh(), limits, steps), limits)
  {
    hide Run;
    Queues.EmptyIsValid<T>(limits);
    Tasks.IdleIsValid();
    assert Valid(Fresh<T>(), limits);
    RunKeepsValid(Fresh(), limits, steps);
  }

  /**
   In every run of the listener, each reconciliation started only after every event
   accepted before its run began had been persisted or permanently rejected: the
   settled items begin with exactly those events.
   */
  lemma ReconcilesBehindTheQueue<T>(limits: Queues.Limits, steps: seq<Step<T>>, i: nat)
    requires i < |Run(Fresh<T>(), limits, steps).history|
    ensures var s := Run(Fresh<T>(), limits, steps); var r := s.history[i];
            && r.mark <= r.settledAtStart <= |s.queue.settled|
            && r.mark <= |s.queue.accepted|
            && Queues.SettledItems(s.queue.settled)[..r.mark] == s.queue.accepted[..r.mark]
  {
    FreshRunIsValid(limits, steps);
    hide Run;
  }

  /** Runs of the reconciliation never overlap, and while the listener runs no request is forgotten. */
  lemma RequestsAreFollowed<T>(limits: Queues.Limits, steps: seq<Step<T>>)
    ensures var s := Run(Fresh<T>(), limits, steps);
            && Tasks.NeverOverlaps(s.task.log)
            && (!s.stopped && s.phase.NoRun? ==> Tasks.AllAnswered(s.task.log))
            && (!s.stopped && Tasks.Requested in s.task.log && !Tasks.AllAnswered(s.task.log) ==>
                  s.task.requested && !s.phase.NoRun?)
  {
    FreshRunIsValid(limits, steps);
    hide Run, Tasks.AllAnswered, Tasks.NeverOverlaps, Queues.Valid;
  }

  /** The run never hangs on a queue that has nothing left to do. */
  lemma IdleQueueWakesTheRun<T>(limits: Queues.Limits, steps: seq<Step<T>>)
    ensures var s := Run(Fresh<T>(), limits, steps);
            s.phase.AwaitingQueue? && (s.stopped || Queues.IsIdle(s.queue)) ==> CanResume(s)
  {
    FreshRunIsValid(limits, steps);
    hide Run, Tasks.Valid;
  }
}
