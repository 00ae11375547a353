/** Many strategy event loops share one semaphore and one waiter gauge.

    Each coroutine is cut at its awaits into segments; a run interleaves the segments of all loops in
    any order.  The code's own variables (the flag for a registered waiter, the local semaphore
    reference) are kept apart from what is true (who waits, who holds a permit). */
module EventLoop {
  import opened Wrappers

  datatype Event = Event(isKline: bool, timeframe: Option<nat>)

  datatype Phase = Idle | Acquiring | Handling | Ended

  /** One coroutine.  `registered` and `semaphore` are its local variables; `holds` is whether it owns a permit. */
  datatype Loop = Loop(timeframe: Option<nat>, phase: Phase, event: Event, registered: bool, semaphore: bool,
                       holds: bool, queue: seq<Event>, taken: seq<Event>, reached: seq<Event>, done: nat, lost: bool)

  /** The semaphore's free permits, and the gauge with its highest value. */
  datatype Shared = Shared(free: int, waiters: int, peak: int)

  /** Whether a semaphore and a metrics object were passed in. */
  datatype Env = Env(limited: bool, metered: bool)

  /** A kline of the strategy's own timeframe. */
  predicate Critical(e: Event, timeframe: Option<nat>) { e.isKline && e.timeframe.Some? && e.timeframe == timeframe }

  // ------------------------------------------------------------------------------- the gauge

  function WaitStarted(g: Shared): Shared {
    g.(waiters := g.waiters + 1, peak := if g.peak < g.waiters + 1 then g.waiters + 1 else g.peak)
  }

  function WaitFinished(g: Shared): Shared { g.(waiters := if g.waiters - 1 < 0 then 0 else g.waiters - 1) }

  // ----------------------------------------------------- the segments between two awaits

  datatype Waking = Succeeded | TimedOut | Cancelled

  datatype Handled = Returned | Raised | Overran | Aborted

  /** From the queue to the semaphore, or straight to the handler when there is none. */
  function Begin(env: Env, l: Loop, g: Shared): (Loop, Shared)
    requires l.queue != []
  {
    var e, registered := l.queue[0], env.metered && env.limited;
    var taken := l.(event := e, registered := registered, semaphore := env.limited, queue := l.queue[1..],
                    taken := l.taken + [e]);
    var g' := if registered then WaitStarted(g) else g;
    (if env.limited then taken.(phase := Acquiring) else Handle(taken), g')
  }

  /** The inner `finally`, on the paths that leave while still registered. */
  function Unregister(l: Loop, g: Shared): (Loop, Shared) {
    (l.(registered := false), if l.registered then WaitFinished(g) else g)
  }

  /** Out through both `finally` clauses. */
  function Leave(l: Loop, g: Shared, next: Phase): (Loop, Shared) {
    var (l', g') := Unregister(l, g);
    (l'.(phase := next, done := l.done + 1), g')
  }

  function Handle(l: Loop): Loop { l.(phase := Handling, reached := l.reached + [l.event]) }

  /** When the wait for a permit is over. */
  function Admitted(l: Loop, g: Shared, w: Waking): (Loop, Shared) {
    match w
    case Succeeded =>
      var (l', g') := Unregister(l.(holds := true), g.(free := g.free - 1));
      (Handle(l'), g')
    case TimedOut =>
      if Critical(l.event, l.timeframe) then
        var (l', g') := Unregister(l.(semaphore := false), g);
        (Handle(l'), g')
      else Leave(l, g, Idle)
    case Cancelled => Leave(l.(lost := true), g, Ended)
  }

  /** When the handler is over, however it ended: release what the local variable names, then `task_done`. */
  function Finished(l: Loop, g: Shared, h: Handled): (Loop, Shared) {
    var next := if h.Aborted? then Ended else Idle;
    Leave(l.(holds := l.holds && !l.semaphore), g.(free := if l.semaphore then g.free + 1 else g.free), next)
  }

  // ------------------------------------------------------------------- the coroutine in place

  class Semaphore {
    var value: int

    method Acquire()
      requires value > 0
      modifies this
      ensures value == old(value) - 1
    {
      value := value - 1;
    }

    method Release()
      modifies this
      ensures value == old(value) + 1
    {
      value := value + 1;
    }
  }

  class RunnerMetrics {
    var scanWaitersCurrent: int
    var scanWaitersMax: int

    method ScanWaitStarted()
      modifies this
      ensures scanWaitersCurrent == old(scanWaitersCurrent) + 1
      ensures scanWaitersMax >= old(scanWaitersMax) && scanWaitersMax >= scanWaitersCurrent
      ensures scanWaitersMax == old(scanWaitersMax) || scanWaitersMax == scanWaitersCurrent
    {
      scanWaitersCurrent := scanWaitersCurrent + 1;
      if scanWaitersMax < scanWaitersCurrent {
        scanWaitersMax := scanWaitersCurrent;
      }
    }

    method ScanWaitFinished()
      modifies this
      ensures scanWaitersCurrent == if old(scanWaitersCurrent) < 1 then 0 else old(scanWaitersCurrent) - 1
      ensures scanWaitersMax == old(scanWaitersMax)
    {
      scanWaitersCurrent := if scanWaitersCurrent - 1 < 0 then 0 else scanWaitersCurrent - 1;
    }
  }

  class Coroutine {
    const env: Env
    const timeframe: Option<nat>
    const scanSemaphore: Semaphore
    const metrics: RunnerMetrics
    var phase: Phase
    var event: Event
    var waiterRegistered: bool
    var semaphore: bool
    ghost var holds: bool
    var queue: seq<Event>
    ghost var taken: seq<Event>
    ghost var reached: seq<Event>
    var done: nat
    ghost var lost: bool

    constructor (env: Env, timeframe: Option<nat>, scanSemaphore: Semaphore, metrics: RunnerMetrics, any: Event)
      ensures Local() == Loop(timeframe, Idle, any, false, false, false, [], [], [], 0, false)
      ensures this.env == env && this.scanSemaphore == scanSemaphore && this.metrics == metrics
    {
      this.env, this.timeframe, this.scanSemaphore, this.metrics := env, timeframe, scanSemaphore, metrics;
      phase, event, waiterRegistered, semaphore, holds := Idle, any, false, false, false;
      queue, taken, reached, done, lost := [], [], [], 0, false;
    }

    ghost function Local(): Loop
      reads this
    {
      Loop(timeframe, phase, event, waiterRegistered, semaphore, holds, queue, taken, reached, done, lost)
    }

    ghost function Pool(): Shared
      reads this, scanSemaphore, metrics
    {
      Shared(scanSemaphore.value, metrics.scanWaitersCurrent, metrics.scanWaitersMax)
    }

    /** An event arrived: register as a waiter, then wait for a permit, or handle it at once. */
    method TakeEvent()
      requires phase == Idle && queue != []
      modifies this, metrics
      ensures (Local(), Pool()) == old(Begin(env, Local(), Pool()))
    {
      event, queue := queue[0], queue[1..];
      taken := taken + [event];
      waiterRegistered := env.metered && env.limited;
      if waiterRegistered {
        metrics.ScanWaitStarted();
      }
      semaphore := env.limited;
      if env.limited {
        phase := Acquiring;
      } else {
        CallHandler();
      }
    }

    method CallHandler()
      modifies this
      ensures Local() == Handle(old(Local()))
    {
      phase := Handling;
      reached := reached + [event];
    }

    method LeaveTo(next: Phase)
      modifies this, metrics
      ensures (Local(), Pool()) == Leave(old(Local()), old(Pool()), next)
    {
      if waiterRegistered {
        metrics.ScanWaitFinished();
        waiterRegistered := false;
      }
      done := done + 1;
      phase := next;
    }

    /** The bounded wait for a permit ended: with one, by its deadline, or by cancellation. */
    method AdmissionOver(w: Waking)
      requires phase == Acquiring && (w.Succeeded? ==> scanSemaphore.value > 0)
      modifies this, metrics, scanSemaphore
      ensures (Local(), Pool()) == Admitted(old(Local()), old(Pool()), w)
    {
      if w.Succeeded? {
        scanSemaphore.Acquire();
        holds := true;
      } else if w.TimedOut? {
        if Critical(event, timeframe) {
          semaphore := false;
        } else {
          LeaveTo(Idle);
          return;
        }
      } else {
        lost := true;
        LeaveTo(Ended);
        return;
      }
      if waiterRegistered {
        metrics.ScanWaitFinished();
        waiterRegistered := false;
      }
      CallHandler();
    }

    /** The handler returned, raised, overran its deadline or was cancelled. */
    method HandlerOver(h: Handled)
      requires phase == Handling
      modifies this, metrics, scanSemaphore
      ensures (Local(), Pool()) == Finished(old(Local()), old(Pool()), h)
    {
      if semaphore {
        scanSemaphore.Release();
        holds := false;
      }
      LeaveTo(if h.Aborted? then Ended else Idle);
    }
  }

  // ------------------------------------------------------------------------------ the system

  datatype System = System(loops: seq<Loop>, g: Shared)

  /** One segment of one loop, or the dispatcher putting an event on its queue. */
  datatype Step =
    | Put(i: nat, e: Event)
    | Take(i: nat)
    | Admit(i: nat, w: Waking)
    | Finish(i: nat, h: Handled)
    | Stop(i: nat)

  predicate Enabled(s: System, step: Step) {
    && step.i < |s.loops|
    && var l := s.loops[step.i];
      match step
      case Put(_, _) => true
      case Take(_) => l.phase == Idle && l.queue != []
      case Admit(_, w) => l.phase == Acquiring && (w.Succeeded? ==> s.g.free > 0)
      case Finish(_, _) => l.phase == Handling
      case Stop(_) => l.phase == Idle
  }

  /** What the step does to its own loop and to the shared counters. */
  function Local(env: Env, l: Loop, g: Shared, step: Step): (Loop, Shared)
    requires step.Take? ==> l.queue != []
  {
    match step
    case Put(_, e) => (l.(queue := l.queue + [e]), g)
    case Take(_) => Begin(env, l, g)
    case Admit(_, w) => Admitted(l, g, w)
    case Finish(_, h) => Finished(l, g, h)
    case Stop(_) => (l.(phase := Ended), g)
  }

  function Next(env: Env, s: System, step: Step): System {
    if Enabled(s, step) then
      var (l, g) := Local(env, s.loops[step.i], s.g, step);
      System(s.loops[step.i := l], g)
    else s
  }

  function Run(env: Env, s: System, steps: seq<Step>): System {
    if steps == [] then s else Next(env, Run(env, s, steps[..|steps| - 1]), steps[|steps| - 1])
  }

  function Fresh(timeframe: Option<nat>): Loop {
    Loop(timeframe, Idle, Event(false, None), false, false, false, [], [], [], 0, false)
  }

  /** All loops idle, every permit free, the gauge at zero. */
  predicate Starting(s: System) {
    (forall i :: 0 <= i < |s.loops| ==> s.loops[i] == Fresh(s.loops[i].timeframe)) &&
    s.g.free >= 0 && s.g.waiters == 0 &&
    s.g.peak == 0
  }

  function Held(loops: seq<Loop>): nat {
    if loops == [] then 0 else Held(loops[..|loops| - 1]) + if loops[|loops| - 1].holds then 1 else 0
  }

  function Waiting(loops: seq<Loop>): nat {
    if loops == [] then 0 else Waiting(loops[..|loops| - 1]) + if loops[|loops| - 1].phase == Acquiring then 1 else 0
  }

  lemma {:induction false} HeldAfter(loops: seq<Loop>, i: nat, l: Loop)
    requires i < |loops|
    ensures Held(loops[i := l]) == Held(loops) - (if loops[i].holds then 1 else 0) + if l.holds then 1 else 0
    decreases |loops|
  {
    var init, last := loops[..|loops| - 1], loops[|loops| - 1];
    if i < |loops| - 1 {
      HeldAfter(init, i, l);
      assert loops[i := l][..|loops| - 1] == init[i := l];
    } else {
      assert loops[i := l][..|loops| - 1] == init;
    }
  }

  lemma {:induction false} WaitingAfter(loops: seq<Loop>, i: nat, l: Loop)
    requires i < |loops|
    ensures Waiting(loops[i := l]) ==
      Waiting(loops) - (if loops[i].phase == Acquiring then 1 else 0) + if l.phase == Acquiring then 1 else 0
    decreases |loops|
  {
    var init, last := loops[..|loops| - 1], loops[|loops| - 1];
    if i < |loops| - 1 {
      WaitingAfter(init, i, l);
      assert loops[i := l][..|loops| - 1] == init[i := l];
    } else {
      assert loops[i := l][..|loops| - 1] == init;
    }
  }

  lemma {:induction false} SomeoneWaits(loops: seq<Loop>, i: nat)
    requires i < |loops| && loops[i].phase == Acquiring
    ensures Waiting(loops) > 0
    decreases |loops|
  {
    if i < |loops| - 1 {
      SomeoneWaits(loops[..|loops| - 1], i);
    }
  }

  // ------------------------------------------------------------------------- what never changes

  /** The critical events among some, in order. */
  function Criticals(es: seq<Event>, timeframe: Option<nat>): seq<Event> {
    if es == [] then []
    else
      var init, last := Criticals(es[..|es| - 1], timeframe), es[|es| - 1];
      if Critical(last, timeframe) then init + [last] else init
  }

  lemma CriticalsAppend(es: seq<Event>, e: Event, timeframe: Option<nat>)
    ensures Criticals(es + [e], timeframe) ==
      if Critical(e, timeframe) then Criticals(es, timeframe) + [e] else Criticals(es, timeframe)
  {
  }

  predicate Busy(l: Loop) { l.phase == Acquiring || l.phase == Handling }

  /** The events whose admission is settled: all but one still waiting, or lost to a cancellation. */
  function Settled(l: Loop): seq<Event> {
    if (l.phase == Acquiring || l.lost) && l.taken != [] then l.taken[..|l.taken| - 1] else l.taken
  }

  /** The code's variables tell the truth, and each event is accounted for. */
  predicate Truthful(env: Env, l: Loop) {
    && (l.phase == Acquiring ==> env.limited && l.semaphore && !l.holds && l.registered == env.metered)
    && (l.phase == Handling ==> l.semaphore == l.holds && !l.registered)
    && (!Busy(l) ==> !l.holds && !l.registered)
    && (l.lost ==> l.phase == Ended && l.taken != [])
    && |l.taken| == l.done + (if Busy(l) then 1 else 0)
    && (Busy(l) ==> l.taken != [] && l.taken[|l.taken| - 1] == l.event)
    && Criticals(l.reached, l.timeframe) == Criticals(Settled(l), l.timeframe)
  }

  ghost predicate AllTruthful(env: Env, loops: seq<Loop>) { forall i :: 0 <= i < |loops| ==> Truthful(env, loops[i]) }

  /** The gauge in terms of who really waits. */
  predicate GaugeIsTrue(env: Env, s: System) {
    s.g.waiters == if env.limited && env.metered then Waiting(s.loops) else 0
  }

  ghost predicate Invariant(env: Env, permits: int, s: System) {
    && AllTruthful(env, s.loops)
    && s.g.free + Held(s.loops) == permits && s.g.free >= 0
    && GaugeIsTrue(env, s)
    && (!env.limited ==> Waiting(s.loops) == 0)
  }

  lemma BeginIsTruthful(env: Env, l: Loop, g: Shared)
    requires Truthful(env, l) && l.phase == Idle && l.queue != []
    ensures Truthful(env, Begin(env, l, g).0)
  {
  }

  lemma AdmittedIsTruthful(env: Env, l: Loop, g: Shared, w: Waking)
    requires Truthful(env, l) && l.phase == Acquiring
    ensures Truthful(env, Admitted(l, g, w).0)
  {
    hide Criticals;
    var init := l.taken[..|l.taken| - 1];
    assert l.taken == init + [l.event];
    CriticalsAppend(init, l.event, l.timeframe);
    CriticalsAppend(l.reached, l.event, l.timeframe);
  }

  lemma FinishedIsTruthful(env: Env, l: Loop, g: Shared, h: Handled)
    requires Truthful(env, l) && l.phase == Handling
    ensures Truthful(env, Finished(l, g, h).0)
  {
  }

  lemma StaysTruthful(env: Env, l: Loop, g: Shared, step: Step)
    requires Truthful(env, l) && Enabled(System([l], g), step.(i := 0))
    ensures Truthful(env, Local(env, l, g, step).0)
  {
    hide Begin, Admitted, Finished, Criticals;
    match step
    case Put(_, _) =>
    case Take(_) => BeginIsTruthful(env, l, g);
    case Admit(_, w) => AdmittedIsTruthful(env, l, g, w);
    case Finish(_, h) => FinishedIsTruthful(env, l, g, h);
    case Stop(_) =>
  }

  lemma AdmittedHistory(l: Loop, g: Shared, w: Waking)
    ensures var l' := Admitted(l, g, w).0;
      l'.timeframe == l.timeframe && l'.taken == l.taken && l'.queue == l.queue &&
      (l'.lost <==> l.lost || w == Cancelled)
  {
  }

  lemma FinishedHistory(l: Loop, g: Shared, h: Handled)
    ensures var l' := Finished(l, g, h).0;
      l'.timeframe == l.timeframe && l'.taken == l.taken && l'.queue == l.queue && l'.lost == l.lost
  {
  }

  lemma BeginHistory(env: Env, l: Loop, g: Shared)
    requires l.queue != []
    ensures var l' := Begin(env, l, g).0;
      l'.timeframe == l.timeframe && l'.taken == l.taken + [l.queue[0]] && l'.queue == l.queue[1..] && l'.lost == l.lost
  {
  }

  /** What one step does to its own loop's history. */
  lemma HistoryFollows(env: Env, l: Loop, g: Shared, step: Step)
    requires step.Take? ==> l.queue != []
    ensures var l' := Local(env, l, g, step).0;
      && l'.timeframe == l.timeframe
      && (l'.lost ==> l.lost || (step.Admit? && step.w == Cancelled))
      && (step.Put? ==> l'.taken == l.taken && l'.queue == l.queue + [step.e])
      && (step.Take? ==> l'.taken == l.taken + [l.queue[0]] && l'.queue == l.queue[1..])
      && (!step.Put? && !step.Take? ==> l'.taken == l.taken && l'.queue == l.queue)
  {
    hide Begin, Admitted, Finished;
    match step
    case Put(_, _) =>
    case Take(_) => BeginHistory(env, l, g);
    case Admit(_, w) => AdmittedHistory(l, g, w);
    case Finish(_, h) => FinishedHistory(l, g, h);
    case Stop(_) =>
  }

  /** The shared counters move with the loop that moved. */
  predicate CountersAgree(env: Env, l: Loop, g: Shared, l': Loop, g': Shared) {
    && g'.free + (if l'.holds then 1 else 0) == g.free + (if l.holds then 1 else 0)
    && (g.free >= 0 ==> g'.free >= 0)
    && (!(env.limited && env.metered) ==> g'.waiters == g.waiters)
    && (env.limited && env.metered ==>
      g'.waiters - (if l'.phase == Acquiring then 1 else 0) == g.waiters - (if l.phase == Acquiring then 1 else 0))
    && (!env.limited ==> l'.phase != Acquiring)
  }

  lemma CountersFollow(env: Env, l: Loop, g: Shared, step: Step)
    requires Truthful(env, l) && Enabled(System([l], g), step.(i := 0))
    requires (env.limited && env.metered && l.phase == Acquiring) ==> g.waiters > 0
    ensures CountersAgree(env, l, g, Local(env, l, g, step).0, Local(env, l, g, step).1)
  {
    hide Criticals;
  }

  lemma AllTruthfulAfter(env: Env, loops: seq<Loop>, i: nat, l: Loop)
    requires i < |loops| && AllTruthful(env, loops) && Truthful(env, l)
    ensures AllTruthful(env, loops[i := l])
  {
  }

  lemma InvariantAfter(env: Env, permits: int, s: System, i: nat, l: Loop, g: Shared)
    requires Invariant(env, permits, s) && i < |s.loops|
    requires Truthful(env, l) && CountersAgree(env, s.loops[i], s.g, l, g)
    ensures Invariant(env, permits, System(s.loops[i := l], g))
  {
    AllTruthfulAfter(env, s.loops, i, l);
    hide Truthful, AllTruthful, Held, Waiting;
    HeldAfter(s.loops, i, l);
    WaitingAfter(s.loops, i, l);
    if !env.limited && s.loops[i].phase == Acquiring {
      SomeoneWaits(s.loops, i);
    }
  }

  lemma StepKeepsInvariant(env: Env, permits: int, s: System, step: Step)
    requires Invariant(env, permits, s)
    ensures Invariant(env, permits, Next(env, s, step))
  {
    if Enabled(s, step) {
      var l := s.loops[step.i];
      assert Truthful(env, l);
      EnabledAlone(s, step);
      if l.phase == Acquiring {
        SomeoneWaits(s.loops, step.i);
      }
      hide Truthful, AllTruthful, Held, Waiting, Local, CountersAgree, Enabled;
      StaysTruthful(env, l, s.g, step);
      CountersFollow(env, l, s.g, step);
      InvariantAfter(env, permits, s, step.i, Local(env, l, s.g, step).0, Local(env, l, s.g, step).1);
    }
  }

  lemma EnabledAlone(s: System, step: Step)
    requires Enabled(s, step)
    ensures Enabled(System([s.loops[step.i]], s.g), step.(i := 0))
  {
  }

  lemma {:induction false} StartIsInvariant(env: Env, s: System, n: nat)
    requires Starting(s) && n <= |s.loops|
    ensures Held(s.loops[..n]) == 0 && Waiting(s.loops[..n]) == 0 && AllTruthful(env, s.loops[..n])
    decreases n
  {
    if n > 0 {
      StartIsInvariant(env, s, n - 1);
      assert s.loops[..n][..n - 1] == s.loops[..n - 1];
    }
  }

  /** For any number of loops and any interleaving: free plus held permits stay what they were, the gauge
      is the number of loops really waiting, and every loop's variables are truthful. */
  lemma {:induction false} RunKeepsInvariant(env: Env, s: System, steps: seq<Step>)
    requires Starting(s)
    ensures Invariant(env, s.g.free, Run(env, s, steps))
    decreases |steps|
  {
    if steps == [] {
      StartIsInvariant(env, s, |s.loops|);
      assert s.loops[..|s.loops|] == s.loops;
    } else {
      RunKeepsInvariant(env, s, steps[..|steps| - 1]);
      StepKeepsInvariant(env, s.g.free, Run(env, s, steps[..|steps| - 1]), steps[|steps| - 1]);
    }
  }

  // -------------------------------------------------------------------- what follows from it

  /** The clamp at zero never takes effect: whenever a loop unregisters, the gauge is positive. */
  lemma ClampNeverBites(env: Env, s: System, steps: seq<Step>, i: nat)
    requires Starting(s) && i < |Run(env, s, steps).loops| && Run(env, s, steps).loops[i].registered
    ensures Run(env, s, steps).g.waiters > 0
  {
    RunKeepsInvariant(env, s, steps);
    SomeoneWaits(Run(env, s, steps).loops, i);
  }

  /** A loop that went past a saturated semaphore gives nothing back, however its handler ends. */
  lemma BypassReleasesNothing(env: Env, s: System, steps: seq<Step>, i: nat, h: Handled)
    requires Starting(s)
    requires var now := Run(env, s, steps); i < |now.loops| && now.loops[i].phase == Handling && !now.loops[i].holds
    ensures Next(env, Run(env, s, steps), Finish(i, h)).g.free == Run(env, s, steps).g.free
  {
    RunKeepsInvariant(env, s, steps);
  }

  /** Every dequeued event gets one `task_done`, except the one in flight. */
  lemma OneTaskDoneEach(env: Env, s: System, steps: seq<Step>, i: nat)
    requires Starting(s) && i < |Run(env, s, steps).loops|
    ensures var l := Run(env, s, steps).loops[i]; l.done == |l.taken| - (if Busy(l) then 1 else 0)
  {
    RunKeepsInvariant(env, s, steps);
  }

  /** No step of the run cancels this loop while it waits for a permit. */
  predicate NeverCancelledWaiting(steps: seq<Step>, i: nat) { Admit(i, Cancelled) !in steps }

  lemma {:induction false} NotLost(env: Env, s: System, steps: seq<Step>, i: nat)
    requires Starting(s) && i < |s.loops| && NeverCancelledWaiting(steps, i)
    ensures |Run(env, s, steps).loops| == |s.loops| && !Run(env, s, steps).loops[i].lost
    ensures Run(env, s, steps).loops[i].timeframe == s.loops[i].timeframe
    decreases |steps|
  {
    if steps != [] {
      var init, last := steps[..|steps| - 1], steps[|steps| - 1];
      assert last in steps;
      assert forall x :: x in init ==> x in steps;
      NotLost(env, s, init, i);
      var before := Run(env, s, init);
      if Enabled(before, last) {
        hide Local;
        HistoryFollows(env, before.loops[last.i], before.g, last);
      }
    }
  }

  /** Absent a cancellation during admission, the klines of the strategy's own timeframe that were dequeued all
      reach the handler, once each and in order; only one still waiting for its permit is yet to come. */
  lemma CriticalAlwaysReaches(env: Env, s: System, steps: seq<Step>, i: nat)
    requires Starting(s) && i < |s.loops| && NeverCancelledWaiting(steps, i)
    ensures |Run(env, s, steps).loops| == |s.loops|
    ensures var l := Run(env, s, steps).loops[i];
      l.phase != Acquiring ==> Criticals(l.reached, l.timeframe) == Criticals(l.taken, l.timeframe)
  {
    RunKeepsInvariant(env, s, steps);
    NotLost(env, s, steps, i);
  }

  /** With cancellations allowed: such a kline is missed exactly when the loop was cancelled while waiting
      for that kline's permit. */
  lemma CriticalMissedIff(env: Env, s: System, steps: seq<Step>, i: nat)
    requires Starting(s) && i < |Run(env, s, steps).loops| && Run(env, s, steps).loops[i].phase != Acquiring
    ensures var l := Run(env, s, steps).loops[i];
      Criticals(l.reached, l.timeframe) == Criticals(l.taken, l.timeframe) <==>
        !(l.lost && l.taken != [] && Critical(l.taken[|l.taken| - 1], l.timeframe))
  {
    RunKeepsInvariant(env, s, steps);
    var l := Run(env, s, steps).loops[i];
    assert Truthful(env, l);
    if l.lost {
      assert l.taken == l.taken[..|l.taken| - 1] + [l.taken[|l.taken| - 1]];
      CriticalsAppend(l.taken[..|l.taken| - 1], l.taken[|l.taken| - 1], l.timeframe);
    }
  }

  /** What the dispatcher put on one queue. */
  function PutOn(steps: seq<Step>, i: nat): seq<Event> {
    if steps == [] then []
    else
      var init, last := PutOn(steps[..|steps| - 1], i), steps[|steps| - 1];
      if last.Put? && last.i == i then init + [last.e] else init
  }

  /** Events leave the queue in the order they were put there, none twice and none skipped. */
  lemma {:induction false} QueueIsFifo(env: Env, s: System, steps: seq<Step>, i: nat)
    requires Starting(s) && i < |s.loops|
    ensures |Run(env, s, steps).loops| == |s.loops|
    ensures var l := Run(env, s, steps).loops[i]; l.taken + l.queue == PutOn(steps, i)
    decreases |steps|
  {
    if steps != [] {
      QueueIsFifo(env, s, steps[..|steps| - 1], i);
      var before := Run(env, s, steps[..|steps| - 1]);
      var step := steps[|steps| - 1];
      if Enabled(before, step) {
        hide Local;
        var l := before.loops[step.i];
        HistoryFollows(env, l, before.g, step);
        assert step.Take? ==> l.taken + l.queue == l.taken + [l.queue[0]] + l.queue[1..];
        assert step.Put? ==> l.taken + (l.queue + [step.e]) == l.taken + l.queue + [step.e];
      }
    }
  }

  /** No loop depends on the others to go on: the deadlines alone bring a waiting loop back to its queue. */
  lemma DeadlinesDrain(env: Env, s: System, steps: seq<Step>, i: nat)
    requires Starting(s) && i < |Run(env, s, steps).loops| && Run(env, s, steps).loops[i].phase == Acquiring
    ensures var l := Run(env, s, steps + [Admit(i, TimedOut)] + [Finish(i, Overran)]).loops;
      i < |l| && l[i].phase == Idle && l[i].done == |l[i].taken|
  {
    var now := Run(env, s, steps);
    var mid := steps + [Admit(i, TimedOut)];
    assert mid[..|steps|] == steps;
    assert (mid + [Finish(i, Overran)])[..|mid|] == mid;
    RunKeepsInvariant(env, s, steps);
    assert Truthful(env, now.loops[i]);
  }

  /** The highest the gauge ever was. */
  function Highest(env: Env, s: System, steps: seq<Step>): int {
    var now := Run(env, s, steps).g.waiters;
    if steps == [] then now
    else
      var before := Highest(env, s, steps[..|steps| - 1]);
      if before < now then now else before
  }

  /** The recorded maximum is the gauge's maximum over the whole run. */
  lemma {:induction false} PeakIsHighest(env: Env, s: System, steps: seq<Step>)
    requires Starting(s)
    ensures Run(env, s, steps).g.peak == Highest(env, s, steps) >= Run(env, s, steps).g.waiters
    decreases |steps|
  {
    if steps != [] {
      var init, step := steps[..|steps| - 1], steps[|steps| - 1];
      PeakIsHighest(env, s, init);
      RunKeepsInvariant(env, s, init);
      PeakFollows(env, Run(env, s, init), step);
    }
  }

  lemma PeakFollows(env: Env, s: System, step: Step)
    requires s.g.peak >= s.g.waiters >= 0
    ensures var next := Next(env, s, step).g; next.peak == if s.g.peak < next.waiters then next.waiters else s.g.peak
  {
  }
}
