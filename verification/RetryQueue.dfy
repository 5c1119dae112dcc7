/**
 ordered-retry-queue.ts: the persistence queue. A step is one stretch of code
 between two awaits: an enqueue with the attempt it starts, the end of an attempt,
 a timer. Histories that the code does not keep (what was accepted, settled,
 discarded) are kept here to say what the queue promises.
 */
module RetryQueue {
  import opened Wrappers

  type WaiterId = nat

  /** A ticket stands for the identity of the entry object: entries are compared by reference. */
  datatype Entry<T> = Entry(attempts: nat, item: T, ticket: nat)

  datatype Settlement<T> = Settlement(item: T, persisted: bool)

  datatype Limits = Limits(maxSize: nat, initialRetry: nat, maxRetry: nat)

  datatype Queue<T> = Queue(
    entries: seq<Entry<T>>,
    processing: Option<nat>,      // the ticket whose attempt is awaited
    retryTimer: Option<nat>,      // the delay it was set for
    stopped: bool,
    waiters: set<WaiterId>,
    depth: nat,                   // the last depth reported
    accepted: seq<T>,
    settled: seq<Settlement<T>>,
    discarded: seq<T>,
    late: set<WaiterId>           // unresolved waiters that registered after stop
  )

  datatype Step<T> =
    | Enqueue(item: T)
    | WaitForIdle(waiter: WaiterId)
    | AttemptSucceeds
    | AttemptFails(transient: bool)
    | TimerFires
    | Stop

  function Empty<T>(): Queue<T> {
    Queue([], None, None, false, {}, 0, [], [], [], {})
  }

  function Pow2(n: nat): nat {
    if n == 0 then 1 else 2 * Pow2(n - 1)
  }

  function Min(a: nat, b: nat): nat {
    if a <= b then a else b
  }

  function RetryDelay(limits: Limits, attempt: nat): nat {
    Min(limits.maxRetry, limits.initialRetry * Pow2(Min(if attempt == 0 then 0 else attempt - 1, 30)))
  }

  predicate IsIdle<T>(q: Queue<T>) {
    q.entries == [] && q.processing.None? && q.retryTimer.None?
  }

  function ResolveIdleWaiters<T>(q: Queue<T>): Queue<T> {
    if IsIdle(q) then q.(waiters := {}) else q
  }

  /** Starts the attempt of the first entry; the rest of drain runs when that attempt ends. */
  function Drain<T>(q: Queue<T>): Queue<T> {
    if q.stopped || q.processing.Some? || q.retryTimer.Some? then q
    else if q.entries == [] then ResolveIdleWaiters(q)
    else q.(processing := Some(q.entries[0].ticket))
  }

  predicate Accepts<T>(q: Queue<T>, limits: Limits) {
    !q.stopped && |q.entries| < limits.maxSize
  }

  function EnqueueItem<T>(q: Queue<T>, limits: Limits, item: T): Queue<T> {
    if !Accepts(q, limits) then q
    else Drain(q.(entries := q.entries + [Entry(0, item, |q.accepted|)],
                  depth := |q.entries| + 1, accepted := q.accepted + [item]))
  }

  function Register<T>(q: Queue<T>, waiter: WaiterId): Queue<T> {
    if IsIdle(q) then q
    else q.(waiters := q.waiters + {waiter}, late := if q.stopped then q.late + {waiter} else q.late)
  }

  predicate HoldsAttempt<T>(q: Queue<T>) {
    q.processing.Some? && !q.stopped && q.entries != [] && q.entries[0].ticket == q.processing.value
  }

  /** Takes the first entry off. */
  function Settle<T>(q: Queue<T>, persisted: bool): Queue<T>
    requires q.entries != []
  {
    q.(entries := q.entries[1..], depth := |q.entries| - 1,
       settled := q.settled + [Settlement(q.entries[0].item, persisted)])
  }

  function Succeed<T>(q: Queue<T>): Queue<T> {
    if q.processing.None? then q
    else Drain((if HoldsAttempt(q) then Settle(q, true) else q).(processing := None))
  }

  function Retry<T>(q: Queue<T>, limits: Limits): Queue<T>
    requires q.entries != []
  {
    var entry := q.entries[0].(attempts := q.entries[0].attempts + 1);
    q.(entries := [entry] + q.entries[1..], retryTimer := Some(RetryDelay(limits, entry.attempts)), processing := None)
  }

  function Fail<T>(q: Queue<T>, limits: Limits, transient: bool): Queue<T> {
    if q.processing.None? then q
    else if !HoldsAttempt(q) then q.(processing := None)
    else if transient then Retry(q, limits)
    else Drain(Settle(q, false).(processing := None))
  }

  function Fire<T>(q: Queue<T>): Queue<T> {
    if q.retryTimer.None? then q else Drain(q.(retryTimer := None))
  }

  function Items<T>(entries: seq<Entry<T>>): (items: seq<T>)
    ensures |items| == |entries|
  {
    if entries == [] then [] else [entries[0].item] + Items(entries[1..])
  }

  function SettledItems<T>(settled: seq<Settlement<T>>): (items: seq<T>)
    ensures |items| == |settled|
  {
    if settled == [] then [] else [settled[0].item] + SettledItems(settled[1..])
  }

  function StopQueue<T>(q: Queue<T>): Queue<T> {
    q.(entries := [], retryTimer := None, stopped := true, waiters := {}, late := {}, depth := 0,
       discarded := q.discarded + Items(q.entries))
  }

  function Apply<T>(q: Queue<T>, limits: Limits, step: Step<T>): Queue<T> {
    match step
    case Enqueue(item) => EnqueueItem(q, limits, item)
    case WaitForIdle(waiter) => Register(q, waiter)
    case AttemptSucceeds => Succeed(q)
    case AttemptFails(transient) => Fail(q, limits, transient)
    case TimerFires => Fire(q)
    case Stop => StopQueue(q)
  }

  function Run<T>(q: Queue<T>, limits: Limits, steps: seq<Step<T>>): Queue<T>
    decreases |steps|
  {
    if steps == [] then q else Run(Apply(q, limits, steps[0]), limits, steps[1..])
  }

  // ---------------------------------------------------------------- invariant

  /** Tickets number the accepted items; what is pending follows what is settled. */
  ghost predicate InOrder<T>(q: Queue<T>) {
    && q.accepted == SettledItems(q.settled) + q.discarded + Items(q.entries)
    && (forall i | 0 <= i < |q.entries| :: q.entries[i].ticket == |q.settled| + i)
  }

  /** While running: work is pending exactly when one attempt is awaited or one timer is set, never both. */
  predicate Driven<T>(q: Queue<T>, limits: Limits) {
    && (q.entries == [] ==> q.processing.None? && q.retryTimer.None?)
    && (q.entries != [] ==> (q.processing.Some? <==> q.retryTimer.None?))
    && (q.processing.Some? ==> q.processing == Some(q.entries[0].ticket))
    && (q.retryTimer.Some? ==> q.entries[0].attempts >= 1 && q.retryTimer == Some(RetryDelay(limits, q.entries[0].attempts)))
  }

  ghost predicate Valid<T>(q: Queue<T>, limits: Limits) {
    && InOrder(q)
    && q.depth == |q.entries| <= limits.maxSize
    && q.late <= q.waiters
    && (if q.stopped then q.entries == [] && q.retryTimer.None? && q.waiters == q.late
        else && Driven(q, limits) && q.discarded == [] && q.late == {} && (q.waiters != {} ==> q.entries != []))
  }

  lemma {:induction false} ItemsOfAppended<T>(entries: seq<Entry<T>>, entry: Entry<T>)
    ensures Items(entries + [entry]) == Items(entries) + [entry.item]
  {
    if entries != [] {
      ItemsOfAppended(entries[1..], entry);
      assert (entries + [entry])[1..] == entries[1..] + [entry];
    }
  }

  lemma {:induction false} SettledOfAppended<T>(settled: seq<Settlement<T>>, last: Settlement<T>)
    ensures SettledItems(settled + [last]) == SettledItems(settled) + [last.item]
  {
    if settled != [] {
      SettledOfAppended(settled[1..], last);
      assert (settled + [last])[1..] == settled[1..] + [last];
    }
  }

  lemma EnqueueKeepsValid<T>(q: Queue<T>, limits: Limits, item: T)
    requires Valid(q, limits)
    ensures Valid(EnqueueItem(q, limits, item), limits)
    ensures EnqueueItem(q, limits, item).accepted == if Accepts(q, limits) then q.accepted + [item] else q.accepted
  {
    if Accepts(q, limits) {
      ItemsOfAppended(q.entries, Entry(0, item, |q.accepted|));
    }
  }

  lemma SettleKeepsOrder<T>(q: Queue<T>, persisted: bool)
    requires InOrder(q) && q.entries != [] && q.discarded == []
    ensures InOrder(Settle(q, persisted).(processing := None))
    ensures InOrder(Drain(Settle(q, persisted).(processing := None)))
  {
    SettledOfAppended(q.settled, Settlement(q.entries[0].item, persisted));
  }

  lemma AttemptEndKeepsValid<T>(q: Queue<T>, limits: Limits, transient: bool)
    requires Valid(q, limits)
    ensures Valid(Succeed(q), limits) && Valid(Fail(q, limits, transient), limits)
  {
    if HoldsAttempt(q) {
      SettleKeepsOrder(q, true);
      SettleKeepsOrder(q, false);
      RetryKeepsValid(q, limits);
    }
  }

  lemma RetryKeepsValid<T>(q: Queue<T>, limits: Limits)
    requires Valid(q, limits) && HoldsAttempt(q)
    ensures Valid(Retry(q, limits), limits)
  {
    var after := Retry(q, limits);
    assert Items(after.entries) == Items(q.entries);
  }

  lemma StepKeepsValid<T>(q: Queue<T>, limits: Limits, step: Step<T>)
    requires Valid(q, limits)
    ensures Valid(Apply(q, limits, step), limits)
    ensures q.accepted <= Apply(q, limits, step).accepted && q.settled <= Apply(q, limits, step).settled
  {
    match step {
      case Enqueue(item) => EnqueueKeepsValid(q, limits, item);
      case AttemptSucceeds => AttemptEndKeepsValid(q, limits, false);
      case AttemptFails(transient) => AttemptEndKeepsValid(q, limits, transient);
      case Stop => StopKeepsValid(q, limits);
      case _ => hide SettledItems, Items, RetryDelay;
    }
  }

  lemma StopKeepsValid<T>(q: Queue<T>, limits: Limits)
    requires Valid(q, limits)
    ensures Valid(StopQueue(q), limits)
  {
    hide SettledItems;
  }

  /**
   Over every run: what was settled, then what was discarded, then what is pending
   is what was accepted, in order; the capacity holds; histories only grow.
   */
  lemma {:induction false} RunKeepsValid<T>(q: Queue<T>, limits: Limits, steps: seq<Step<T>>)
    requires Valid(q, limits)
    ensures Valid(Run(q, limits, steps), limits)
    ensures q.accepted <= Run(q, limits, steps).accepted && q.settled <= Run(q, limits, steps).settled
    decreases |steps|
  {
    hide Valid, Apply;
    if steps != [] {
      StepKeepsValid(q, limits, steps[0]);
      RunKeepsValid(Apply(q, limits, steps[0]), limits, steps[1..]);
    }
  }

  ghost predicate Reachable<T(!new)>(q: Queue<T>, limits: Limits) {
    limits.maxSize >= 1 && exists steps :: Run(Empty(), limits, steps) == q
  }

  lemma ReachableIsValid<T(!new)>(q: Queue<T>, limits: Limits)
    requires Reachable(q, limits)
    ensures Valid(q, limits)
  {
    hide Run, Valid;
    var steps :| Run(Empty(), limits, steps) == q;
    assert Valid(Empty<T>(), limits) by { EmptyIsValid<T>(limits); }
    RunKeepsValid(Empty(), limits, steps);
  }

  lemma EmptyIsValid<T>(limits: Limits)
    ensures Valid(Empty<T>(), limits)
  {
  }

  /** FIFO without loss, and every accepted item is accounted for once. */
  lemma NothingIsLost<T(!new)>(q: Queue<T>, limits: Limits)
    requires Reachable(q, limits)
    ensures q.accepted == SettledItems(q.settled) + q.discarded + Items(q.entries)
    ensures |q.accepted| == |q.settled| + |q.discarded| + |q.entries|
    ensures |q.entries| <= limits.maxSize && q.depth == |q.entries|
    ensures !q.stopped ==> q.discarded == []
  {
    ReachableIsValid(q, limits);
  }

  /** The attempt under way is always for the oldest accepted item that is not settled. */
  lemma AttemptsFollowOrder<T(!new)>(q: Queue<T>, limits: Limits)
    requires Reachable(q, limits) && !q.stopped && q.processing.Some?
    ensures q.processing.value == |q.settled| < |q.accepted| && q.entries != []
    ensures q.entries[0].item == q.accepted[|q.settled|]
  {
    ReachableIsValid(q, limits);
  }

  /** A running queue with work is driven by exactly one thing: the awaited attempt or the retry timer. */
  lemma WorkIsDriven<T(!new)>(q: Queue<T>, limits: Limits)
    requires Reachable(q, limits) && !q.stopped
    ensures q.entries != [] <==> q.processing.Some? || q.retryTimer.Some?
    ensures !(q.processing.Some? && q.retryTimer.Some?)
    ensures q.retryTimer.Some? ==> q.entries[0].attempts >= 1 && q.retryTimer.value == RetryDelay(limits, q.entries[0].attempts)
  {
    ReachableIsValid(q, limits);
  }

  /** No lost wake-up: an idle queue that still owes a wake-up was stopped before that waiter came. */
  lemma NoLostWakeUp<T(!new)>(q: Queue<T>, limits: Limits)
    requires Reachable(q, limits) && IsIdle(q)
    ensures !q.stopped ==> q.waiters == {}
    ensures q.waiters == q.late
  {
    ReachableIsValid(q, limits);
  }

  // ---------------------------------------------------------------- progress, and the waiter that is never woken

  function AttemptsSucceeding<T>(n: nat): (steps: seq<Step<T>>)
    ensures |steps| == n
    ensures forall i | 0 <= i < n :: steps[i] == AttemptSucceeds
  {
    if n == 0 then [] else [AttemptSucceeds] + AttemptsSucceeding(n - 1)
  }

  lemma SucceedSettlesHead<T>(q: Queue<T>, limits: Limits)
    requires Valid(q, limits) && !q.stopped && q.entries != [] && q.retryTimer.None?
    ensures var after := Succeed(q);
            && Valid(after, limits) && !after.stopped && after.entries == q.entries[1..] && after.retryTimer.None?
            && after.accepted == q.accepted && (after.entries == [] ==> after.waiters == {})
  {
    AttemptEndKeepsValid(q, limits, false);
  }

  /** As soon as attempts succeed, as many of them as there are entries empty the queue and wake everybody. */
  lemma {:induction false} SuccessDrains<T>(q: Queue<T>, limits: Limits)
    requires Valid(q, limits) && !q.stopped && q.retryTimer.None?
    ensures var after := Run(q, limits, AttemptsSucceeding(|q.entries|));
            IsIdle(after) && after.waiters == {} && SettledItems(after.settled) == q.accepted
    decreases |q.entries|
  {
    if q.entries != [] {
      SucceedSettlesHead(q, limits);
      SuccessDrains(Succeed(q), limits);
      var steps := AttemptsSucceeding<T>(|q.entries|);
      assert steps[1..] == AttemptsSucceeding(|q.entries| - 1);
      assert Apply(q, limits, steps[0]) == Succeed(q);
    }
  }

  /** After stop, an unresolved waiter stays unresolved until someone calls stop again. */
  lemma {:induction false} LateWaiterStays<T>(q: Queue<T>, limits: Limits, waiter: WaiterId, steps: seq<Step<T>>)
    requires Valid(q, limits) && q.stopped && waiter in q.waiters
    requires forall i | 0 <= i < |steps| :: !steps[i].Stop?
    ensures Run(q, limits, steps).stopped && waiter in Run(q, limits, steps).waiters
    decreases |steps|
  {
    if steps != [] {
      StepKeepsValid(q, limits, steps[0]);
      StoppedStepKeepsWaiters(q, limits, steps[0]);
      LateWaiterStays(Apply(q, limits, steps[0]), limits, waiter, steps[1..]);
    }
  }

  lemma StoppedStepKeepsWaiters<T>(q: Queue<T>, limits: Limits, step: Step<T>)
    requires Valid(q, limits) && q.stopped && !step.Stop?
    ensures Apply(q, limits, step).stopped && q.waiters <= Apply(q, limits, step).waiters
  {
  }

  /**
   waitForIdle's promise can still be resolved by the queue's own progress exactly
   when the queue was not stopped. A waiter that registers after stop, while an
   attempt is still awaited, is never woken although the queue becomes idle.
   */
  lemma WaiterIsWokenIffRunning<T(!new)>(q: Queue<T>, limits: Limits, waiter: WaiterId)
    requires Reachable(q, limits) && waiter in q.waiters
    ensures (exists steps: seq<Step<T>> ::
               (forall i | 0 <= i < |steps| :: !steps[i].Stop?) && waiter !in Run(q, limits, steps).waiters)
            <==> !q.stopped
  {
    ReachableIsValid(q, limits);
    hide Valid, Reachable;
    if q.stopped {
      forall steps: seq<Step<T>> | forall i | 0 <= i < |steps| :: !steps[i].Stop?
        ensures waiter in Run(q, limits, steps).waiters
      {
        LateWaiterStays(q, limits, waiter, steps);
      }
    } else {
      RunningWaiterIsWoken(q, limits, waiter);
    }
  }

  lemma RunningWaiterIsWoken<T>(q: Queue<T>, limits: Limits, waiter: WaiterId)
    requires Valid(q, limits) && !q.stopped
    ensures exists steps: seq<Step<T>> ::
              (forall i | 0 <= i < |steps| :: !steps[i].Stop?) && waiter !in Run(q, limits, steps).waiters
  {
    var fired := Fire(q);
    StepKeepsValid(q, limits, TimerFires);
    assert Apply(q, limits, TimerFires) == fired;
    SuccessDrains(fired, limits);
    var steps := [TimerFires] + AttemptsSucceeding<T>(|fired.entries|);
    assert steps[1..] == AttemptsSucceeding<T>(|fired.entries|);
    assert Run(q, limits, steps) == Run(fired, limits, steps[1..]);
  }

  /** The history in which it happens: one item, stop while it is being processed, then a late waitForIdle. */
  lemma LateWaiterExample<T(!new)>(item: T, limits: Limits, waiter: WaiterId)
    requires limits.maxSize >= 1
    ensures var q := Run(Empty(), limits, [Enqueue(item), Stop, WaitForIdle(waiter), AttemptSucceeds]);
            Reachable(q, limits) && IsIdle(q) && q.waiters == {waiter}
  {
    var q0 := Empty<T>();
    var steps := [Enqueue(item), Stop, WaitForIdle(waiter), AttemptSucceeds];
    var q1 := Apply(q0, limits, Enqueue(item));
    var q2 := Apply(q1, limits, Stop);
    var q3 := Apply(q2, limits, WaitForIdle(waiter));
    var q4 := Apply(q3, limits, AttemptSucceeds);
    assert steps[1..] == [Stop, WaitForIdle(waiter), AttemptSucceeds];
    assert steps[1..][1..] == [WaitForIdle(waiter), AttemptSucceeds];
    assert steps[1..][1..][1..] == [AttemptSucceeds];
    assert Run(q3, limits, [AttemptSucceeds]) == q4;
    assert Run(q2, limits, [WaitForIdle(waiter), AttemptSucceeds]) == q4;
    assert Run(q1, limits, [Stop, WaitForIdle(waiter), AttemptSucceeds]) == q4;
    assert Run(q0, limits, steps) == q4;
  }

  // ---------------------------------------------------------------- backoff

  lemma {:induction false} Pow2Grows(a: nat, b: nat)
    requires a <= b
    ensures 1 <= Pow2(a) <= Pow2(b)
    decreases b
  {
    if a < b {
      Pow2Grows(a, b - 1);
    } else if a > 0 {
      Pow2Grows(a - 1, b - 1);
    }
  }

  /** Delays never shrink from one attempt to the next, start at the initial delay and respect the maximum. */
  lemma DelaysGrow(limits: Limits, attempt: nat, later: nat)
    requires attempt <= later
    ensures RetryDelay(limits, attempt) <= RetryDelay(limits, later) <= limits.maxRetry
    ensures RetryDelay(limits, 1) == Min(limits.maxRetry, limits.initialRetry)
  {
    var a := Min(if attempt == 0 then 0 else attempt - 1, 30);
    var b := Min(if later == 0 then 0 else later - 1, 30);
    Pow2Grows(a, b);
    ScaledGrows(limits.initialRetry, Pow2(a), Pow2(b));
  }

  /**
   The delays exactly: the first attempt waits the initial delay, each further one twice
   as long as the one before up to the thirty-first, and none longer than the maximum.
   */
  lemma DelaysDouble(limits: Limits, attempt: nat)
    ensures RetryDelay(limits, 0) == RetryDelay(limits, 1)
         == if limits.initialRetry < limits.maxRetry then limits.initialRetry else limits.maxRetry
    ensures 1 <= attempt < 31 ==>
              RetryDelay(limits, attempt + 1)
              == if 2 * RetryDelay(limits, attempt) < limits.maxRetry then 2 * RetryDelay(limits, attempt) else limits.maxRetry
    ensures attempt >= 31 ==> RetryDelay(limits, attempt) == RetryDelay(limits, 31)
  {
    if 1 <= attempt < 31 {
      var p := Pow2(attempt - 1);
      assert Pow2(attempt) == 2 * p;
      assert limits.initialRetry * (2 * p) == 2 * (limits.initialRetry * p);
    }
  }

  lemma ScaledGrows(k: nat, a: nat, b: nat)
    requires a <= b
    ensures k * a <= k * b
  {
  }

  // ---------------------------------------------------------------- the class

  class OrderedRetryQueue<T> {
    const limits: Limits
    var entries: seq<Entry<T>>
    var processing: Option<nat>
    var retryTimer: Option<nat>
    var stopped: bool
    var idleWaiters: set<WaiterId>
    var depth: nat
    ghost var accepted: seq<T>
    ghost var settled: seq<Settlement<T>>
    ghost var discarded: seq<T>
    ghost var late: set<WaiterId>
    var tickets: nat

    ghost function View(): Queue<T>
      reads this
    {
      Queue(entries, processing, retryTimer, stopped, idleWaiters, depth, accepted, settled, discarded, late)
    }

    ghost predicate Consistent()
      reads this
    {
      Valid(View(), limits) && tickets == |accepted|
    }

    constructor (limits: Limits)
      requires limits.maxSize >= 1
      ensures Consistent() && View() == Empty() && this.limits == limits
    {
      this.limits := limits;
      entries, processing, retryTimer, stopped, idleWaiters, depth := [], None, None, false, {}, 0;
      accepted, settled, discarded, late, tickets := [], [], [], {}, 0;
      new;
      EmptyIsValid<T>(limits);
    }

    method EnqueueOne(item: T) returns (ok: bool)
      requires Consistent()
      modifies this
      ensures Consistent() && View() == EnqueueItem(old(View()), limits, item)
      ensures ok == Accepts(old(View()), limits)
    {
      EnqueueKeepsValid(View(), limits, item);
      if stopped || |entries| >= limits.maxSize {
        return false;
      }
      entries := entries + [Entry(0, item, tickets)];
      tickets := tickets + 1;
      accepted := accepted + [item];
      depth := |entries|;
      DrainOnce();
      return true;
    }

    /** The returned promise: resolved at once, or when its waiter is. */
    method WaitUntilIdle(waiter: WaiterId) returns (immediate: bool)
      requires Consistent()
      modifies this
      ensures Consistent() && View() == Register(old(View()), waiter)
      ensures immediate == IsIdle(old(View()))
    {
      if entries == [] && processing.None? && retryTimer.None? {
        return true;
      }
      idleWaiters := idleWaiters + {waiter};
      late := if stopped then late + {waiter} else late;
      return false;
    }

    method StopAll() returns (dropped: nat)
      requires Consistent()
      modifies this
      ensures Consistent() && View() == StopQueue(old(View()))
      ensures dropped == |old(entries)|
    {
      StepKeepsValid(View(), limits, Stop);
      hide Valid, Items;
      stopped := true;
      retryTimer := None;
      dropped := |entries|;
      discarded := discarded + Items(entries);
      entries := [];
      depth := 0;
      idleWaiters := {};
      late := {};
    }

    method DrainOnce()
      modifies this
      ensures View() == Drain(old(View())) && tickets == old(tickets)
    {
      if stopped || processing.Some? || retryTimer.Some? {
        return;
      }
      if entries == [] {
        idleWaiters := {};
        return;
      }
      processing := Some(entries[0].ticket);
    }

    method ShiftHead(ghost persisted: bool)
      requires entries != []
      modifies this
      ensures View() == Settle(old(View()), persisted) && tickets == old(tickets)
    {
      settled := settled + [Settlement(entries[0].item, persisted)];
      entries := entries[1..];
      depth := |entries|;
    }

    method ScheduleRetry()
      requires entries != []
      modifies this
      ensures View().(processing := None) == Retry(old(View()), limits) && retryTimer.Some? && tickets == old(tickets)
    {
      var attempts := entries[0].attempts + 1;
      entries := [entries[0].(attempts := attempts)] + entries[1..];
      retryTimer := Some(RetryDelay(limits, attempts));
    }

    /** The continuation of drain after its attempt resolved. */
    method AttemptSucceeded()
      requires Consistent()
      modifies this
      ensures Consistent() && View() == Succeed(old(View()))
    {
      AttemptEndKeepsValid(View(), limits, false);
      hide Valid, RetryDelay;
      if processing.None? {
        return;
      }
      if !stopped && entries != [] && entries[0].ticket == processing.value {
        ShiftHead(true);
      }
      processing := None;
      if retryTimer.None? {
        DrainOnce();
      }
    }

    /** The continuation of drain after its attempt was rejected. */
    method AttemptFailed(transient: bool)
      requires Consistent()
      modifies this
      ensures Consistent() && View() == Fail(old(View()), limits, transient)
    {
      AttemptEndKeepsValid(View(), limits, transient);
      hide Valid, RetryDelay;
      if processing.None? {
        return;
      }
      if stopped || entries == [] || entries[0].ticket != processing.value {
        processing := None;
        return;
      }
      if transient {
        ScheduleRetry();
      } else {
        ShiftHead(false);
      }
      processing := None;
      if retryTimer.None? {
        DrainOnce();
      }
    }

    method TimerFired()
      requires Consistent()
      modifies this
      ensures Consistent() && View() == Fire(old(View()))
    {
      StepKeepsValid(View(), limits, TimerFires);
      hide Valid;
      if retryTimer.Some? {
        retryTimer := None;
        DrainOnce();
      }
    }
  }
}
