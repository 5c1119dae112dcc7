/**
 coalesced-task.ts: requests made while a run is under way are answered by one
 further run. The log of requests, starts and ends says what that promises.
 */
module CoalescedTask {

  type WaiterId = nat

  datatype TaskEvent = Requested | RunStarted | RunEnded

  datatype Task = Task(requested: bool, running: bool, stopped: bool, waiters: set<WaiterId>, log: seq<TaskEvent>)

  datatype Step = Request | RunEnds | WaitForIdle(waiter: WaiterId) | Stop

  const IDLE := Task(false, false, false, {}, [])

  function Note(t: Task, event: TaskEvent): Task {
    t.(log := t.log + [event])
  }

  /** run(), up to the await of the task it starts. */
  function StartRun(t: Task): Task {
    if t.running || t.stopped || !t.requested then t
    else Note(t.(running := true, requested := false), RunStarted)
  }

  function MakeRequest(t: Task): Task {
    if t.stopped then t else StartRun(Note(t.(requested := true), Requested))
  }

  /** The awaited task settled, whether it failed or not: loop again or finish. */
  function EndRun(t: Task): Task {
    if !t.running then t
    else
      var ended := Note(t, RunEnded);
      if ended.requested && !ended.stopped then Note(ended.(requested := false), RunStarted)
      else ended.(running := false, waiters := {})
  }

  function Register(t: Task, waiter: WaiterId): Task {
    if !t.requested && !t.running then t else t.(waiters := t.waiters + {waiter})
  }

  function StopTask(t: Task): Task {
    t.(stopped := true, requested := false, waiters := if t.running then t.waiters else {})
  }

  function Apply(t: Task, step: Step): Task {
    match step
    case Request => MakeRequest(t)
    case RunEnds => EndRun(t)
    case WaitForIdle(waiter) => Register(t, waiter)
    case Stop => StopTask(t)
  }

  function Run(t: Task, steps: seq<Step>): Task
    decreases |steps|
  {
    if steps == [] then t else Run(Apply(t, steps[0]), steps[1..])
  }

  // ---------------------------------------------------------------- what the log says

  /** Runs started minus runs ended. */
  function Balance(log: seq<TaskEvent>): int {
    if log == [] then 0
    else Balance(log[..|log| - 1]) + match log[|log| - 1]
                                     case RunStarted => 1
                                     case RunEnded => -1
                                     case Requested => 0
  }

  function Count(log: seq<TaskEvent>, event: TaskEvent): nat {
    if log == [] then 0 else Count(log[..|log| - 1], event) + if log[|log| - 1] == event then 1 else 0
  }

  /** At every moment of the log at most one run was under way. */
  ghost predicate NeverOverlaps(log: seq<TaskEvent>) {
    forall i | 0 <= i <= |log| :: 0 <= Balance(log[..i]) <= 1
  }

  /** The request at this place of the log was followed by the start of a run. */
  ghost predicate Answered(log: seq<TaskEvent>, i: nat) {
    exists j :: i < j < |log| && log[j] == RunStarted
  }

  ghost predicate AllAnswered(log: seq<TaskEvent>) {
    forall i | 0 <= i < |log| && log[i] == Requested :: Answered(log, i)
  }

  ghost predicate Valid(t: Task) {
    && (t.requested ==> t.running && !t.stopped)
    && (t.waiters != {} ==> t.running)
    && NeverOverlaps(t.log) && Balance(t.log) == (if t.running then 1 else 0)
    && (!t.requested && !t.stopped ==> AllAnswered(t.log))
    && Count(t.log, RunStarted) + (if t.requested then 1 else 0) <= Count(t.log, Requested)
  }

  lemma NoteExtends(log: seq<TaskEvent>, event: TaskEvent)
    ensures Balance(log + [event]) == Balance(log) + Balance([event])
    ensures forall e :: Count(log + [event], e) == Count(log, e) + if e == event then 1 else 0
    ensures Balance([Requested]) == 0 && Balance([RunStarted]) == 1 && Balance([RunEnded]) == -1
    ensures NeverOverlaps(log) && 0 <= Balance(log + [event]) <= 1 ==> NeverOverlaps(log + [event])
  {
    var longer := log + [event];
    assert longer[..|log|] == log;
    assert [event][..0] == [];
    forall e: TaskEvent
      ensures Balance([e]) == match e case RunStarted => 1 case RunEnded => -1 case Requested => 0
    {
      assert [e][..0] == [];
    }
    if NeverOverlaps(log) && 0 <= Balance(longer) <= 1 {
      forall i | 0 <= i <= |longer|
        ensures 0 <= Balance(longer[..i]) <= 1
      {
        assert i <= |log| ==> longer[..i] == log[..i];
        assert longer[..|longer|] == longer;
      }
    }
  }

  /** A start answers every request before it; other entries take no answer away. */
  lemma NoteAnswers(log: seq<TaskEvent>, event: TaskEvent)
    ensures event == RunStarted ==> AllAnswered(log + [event])
    ensures event == RunEnded && AllAnswered(log) ==> AllAnswered(log + [event])
  {
    var longer := log + [event];
    forall i | 0 <= i < |longer| && longer[i] == Requested && event != Requested
      ensures event == RunStarted ==> Answered(longer, i)
      ensures AllAnswered(log) ==> Answered(longer, i)
    {
      if event == RunStarted {
        assert longer[|log|] == RunStarted;
      }
      if AllAnswered(log) {
        assert Answered(log, i);
        var j :| i < j < |log| && log[j] == RunStarted;
        assert longer[j] == RunStarted;
      }
    }
  }

  lemma StepKeepsValid(t: Task, step: Step)
    requires Valid(t)
    ensures Valid(Apply(t, step))
  {
    hide NeverOverlaps, AllAnswered, Balance, Count;
    match step {
      case Request =>
        NoteExtends(t.log, Requested);
        NoteExtends(t.log + [Requested], RunStarted);
        NoteAnswers(t.log + [Requested], RunStarted);
      case RunEnds =>
        NoteExtends(t.log, RunEnded);
        NoteAnswers(t.log, RunEnded);
        NoteExtends(t.log + [RunEnded], RunStarted);
        NoteAnswers(t.log + [RunEnded], RunStarted);
      case _ =>
    }
  }

  lemma {:induction false} RunKeepsValid(t: Task, steps: seq<Step>)
    requires Valid(t)
    ensures Valid(Run(t, steps))
    decreases |steps|
  {
    hide Valid, Apply;
    if steps != [] {
      StepKeepsValid(t, steps[0]);
      RunKeepsValid(Apply(t, steps[0]), steps[1..]);
    }
  }

  lemma IdleIsValid()
    ensures Valid(IDLE)
  {
  }

  /**
   For every history: runs never overlap, there are no more of them than requests,
   an idle task has answered every request with a later run unless it was stopped,
   and nobody waits for a task that is not running.
   */
  lemma RequestsAreAnswered(steps: seq<Step>)
    ensures var t := Run(IDLE, steps);
            && NeverOverlaps(t.log)
            && Count(t.log, RunStarted) <= Count(t.log, Requested)
            && (!t.running && !t.stopped ==> AllAnswered(t.log))
            && (!t.running ==> t.waiters == {})
  {
    IdleIsValid();
    RunKeepsValid(IDLE, steps);
  }

  /** A running task that is not stopped answers whatever was requested meanwhile as soon as its run ends. */
  lemma NextEndAnswers(steps: seq<Step>)
    ensures var t := Run(IDLE, steps); !t.stopped ==> AllAnswered(EndRun(t).log)
  {
    IdleIsValid();
    RunKeepsValid(IDLE, steps);
    var t := Run(IDLE, steps);
    hide AllAnswered, NeverOverlaps, Run;
    NoteAnswers(t.log, RunEnded);
    NoteAnswers(t.log + [RunEnded], RunStarted);
  }

  class CoalescingTask {
    var requested: bool
    var running: bool
    var stopped: bool
    var idleWaiters: set<WaiterId>
    ghost var log: seq<TaskEvent>

    ghost function View(): Task
      reads this
    {
      Task(requested, running, stopped, idleWaiters, log)
    }

    constructor ()
      ensures View() == IDLE && Valid(View())
    {
      requested, running, stopped, idleWaiters, log := false, false, false, {}, [];
      new;
      IdleIsValid();
    }

    /** Whether the caller's request starts a run of the task here and now. */
    method RequestRun() returns (started: bool)
      requires Valid(View())
      modifies this
      ensures View() == MakeRequest(old(View())) && Valid(View())
      ensures started <==> !old(running) && running
    {
      StepKeepsValid(View(), Request);
      if stopped {
        return false;
      }
      requested := true;
      log := log + [Requested];
      if running || stopped {
        return false;
      }
      running := true;
      requested := false;
      log := log + [RunStarted];
      return true;
    }

    /** The loop head after the awaited task settled, and the code after the loop. */
    method TaskSettled() returns (started: bool)
      requires Valid(View()) && running
      modifies this
      ensures View() == EndRun(old(View())) && Valid(View())
      ensures started <==> running
    {
      StepKeepsValid(View(), RunEnds);
      log := log + [RunEnded];
      if requested && !stopped {
        requested := false;
        log := log + [RunStarted];
        return true;
      }
      running := false;
      idleWaiters := {};
      return false;
    }

    method WaitUntilIdle(waiter: WaiterId) returns (immediate: bool)
      requires Valid(View())
      modifies this
      ensures View() == Register(old(View()), waiter) && Valid(View())
      ensures immediate <==> !running
    {
      if !requested && !running {
        return true;
      }
      idleWaiters := idleWaiters + {waiter};
      return false;
    }

    method StopRuns()
      requires Valid(View())
      modifies this
      ensures View() == StopTask(old(View())) && Valid(View())
    {
      stopped := true;
      requested := false;
      if !running {
        idleWaiters := {};
      }
    }
  }
}
