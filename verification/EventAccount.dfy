/** Which events reach a strategy's handler, told from the steps of a run alone, and where each step leaves its
    loop. */
module EventAccount {
  import opened Wrappers
  import opened EventLoop

  /** How often loop i has dequeued. */
  function TimesTaken(env: Env, s: System, steps: seq<Step>, i: nat): nat {
    if steps == [] then 0
    else
      var init := steps[..|steps| - 1];
      TimesTaken(env, s, init, i) +
      if steps[|steps| - 1] == Take(i) && Enabled(Run(env, s, init), Take(i)) then 1 else 0
  }

  function EventAt(es: seq<Event>, k: int): Event { if 0 <= k < |es| then es[k] else Event(false, None) }

  /** A step that lets the handler have event e: a dequeuing without a semaphore, a permit, or a deadline that
      passed for a kline of the strategy's own timeframe. */
  predicate LetsIn(env: Env, timeframe: Option<nat>, step: Step, e: Event) {
    match step
    case Take(_) => !env.limited
    case Admit(_, Succeeded) => true
    case Admit(_, TimedOut) => e.isKline && e.timeframe.Some? && e.timeframe == timeframe
    case _ => false
  }

  /** The event a step is about: the next on the queue for a dequeuing, else the one dequeued last. */
  function About(env: Env, s: System, init: seq<Step>, i: nat, step: Step): Event {
    var n := TimesTaken(env, s, init, i);
    EventAt(PutOn(init, i), if step.Take? then n else n - 1)
  }

  /** The events that were let in, in order. */
  function LetIn(env: Env, s: System, steps: seq<Step>, i: nat): seq<Event>
    requires i < |s.loops|
  {
    if steps == [] then []
    else
      var init, step := steps[..|steps| - 1], steps[|steps| - 1];
      var before, e := LetIn(env, s, init, i), About(env, s, init, i, step);
      if step.i == i && Enabled(Run(env, s, init), step) && LetsIn(env, s.loops[i].timeframe, step, e)
      then before + [e] else before
  }

  lemma StepLetsIn(env: Env, l: Loop, g: Shared, step: Step)
    requires Truthful(env, l) && Enabled(System([l], g), step.(i := 0))
    ensures var l', e := Local(env, l, g, step).0, if step.Take? then l.queue[0] else l.event;
      l'.reached == if LetsIn(env, l.timeframe, step, e) then l.reached + [e] else l.reached
  {
    hide Criticals;
  }

  /** The exact account, over every run of any loops: what reached the handler of loop i is what the steps let in,
      no more, no less and in order. */
  lemma {:induction false} ReachedIsLetIn(env: Env, s: System, steps: seq<Step>, i: nat)
    requires Starting(s) && i < |s.loops|
    ensures |Run(env, s, steps).loops| == |s.loops|
    ensures var l := Run(env, s, steps).loops[i];
      && l.reached == LetIn(env, s, steps, i) && |l.taken| == TimesTaken(env, s, steps, i)
      && l.timeframe == s.loops[i].timeframe
    decreases |steps|
  {
    if steps != [] {
      var init, step := steps[..|steps| - 1], steps[|steps| - 1];
      ReachedIsLetIn(env, s, init, i);
      QueueIsFifo(env, s, init, i);
      RunKeepsInvariant(env, s, init);
      var now := Run(env, s, init);
      hide Local, LetsIn, Criticals;
      if Enabled(now, step) && step.i == i {
        var l := now.loops[i];
        assert Truthful(env, l);
        EnabledAlone(now, step);
        StepLetsIn(env, l, now.g, step);
        HistoryFollows(env, l, now.g, step);
        AboutIsEvent(env, s, init, i, step, l);
      }
    }
  }

  lemma AboutIsEvent(env: Env, s: System, init: seq<Step>, i: nat, step: Step, l: Loop)
    requires Truthful(env, l) && l.taken + l.queue == PutOn(init, i) && |l.taken| == TimesTaken(env, s, init, i)
    ensures step.Take? && l.queue != [] ==> About(env, s, init, i, step) == l.queue[0]
    ensures !step.Take? && Busy(l) ==> About(env, s, init, i, step) == l.event
  {
    hide Criticals;
    assert l.queue != [] ==> (l.taken + l.queue)[|l.taken|] == l.queue[0];
    assert l.taken != [] ==> (l.taken + l.queue)[|l.taken| - 1] == l.taken[|l.taken| - 1];
  }

  /** Where a step of the run leaves its loop: handling with a permit after a permit came, handling without one when
      the own kline's deadline passed, back at the queue with its `task_done` when another's did or the handler is
      over, ended when cancelled; and what it does to the free permits. */
  lemma StepsLead(env: Env, s: System, steps: seq<Step>, step: Step)
    requires Starting(s) && Enabled(Run(env, s, steps), step)
    ensures var now, next := Run(env, s, steps), Next(env, Run(env, s, steps), step);
      && step.i < |now.loops| == |next.loops|
      && (forall j :: 0 <= j < |now.loops| && j != step.i ==> next.loops[j] == now.loops[j])
      && Leads(env, now.loops[step.i], now.g, step, next.loops[step.i], next.g)
  {
    RunKeepsInvariant(env, s, steps);
    var now := Run(env, s, steps);
    var l := now.loops[step.i];
    assert Truthful(env, l);
    hide Local, Leads, Truthful, Run, Held, Waiting;
    EnabledAlone(now, step);
    StepLeads(env, l, now.g, step);
  }

  lemma StepLeads(env: Env, l: Loop, g: Shared, step: Step)
    requires Truthful(env, l) && Enabled(System([l], g), step.(i := 0))
    ensures Leads(env, l, g, step, Local(env, l, g, step).0, Local(env, l, g, step).1)
  {
    hide Criticals;
  }

  predicate Leads(env: Env, l: Loop, g: Shared, step: Step, l': Loop, g': Shared) {
    match step
    case Put(_, e) => l'.phase == l.phase && l'.queue == l.queue + [e] && l'.holds == l.holds && g' == g
    case Take(_) =>
      l'.phase == (if env.limited then Acquiring else Handling) && !l'.holds && l'.done == l.done && g'.free == g.free
    case Admit(_, Succeeded) => l'.phase == Handling && l'.holds && l'.done == l.done && g'.free == g.free - 1
    case Admit(_, TimedOut) =>
      && !l'.holds && g'.free == g.free
      && (if l.event.isKline && l.event.timeframe.Some? && l.event.timeframe == l.timeframe
          then l'.phase == Handling && l'.done == l.done
          else l'.phase == Idle && l'.done == l.done + 1)
    case Admit(_, Cancelled) => l'.phase == Ended && !l'.holds && l'.done == l.done + 1 && g'.free == g.free
    case Finish(_, h) =>
      && l'.phase == (if h == Aborted then Ended else Idle) && !l'.holds && l'.done == l.done + 1
      && g'.free == (if l.holds then g.free + 1 else g.free)
    case Stop(_) => l'.phase == Ended && !l'.holds && l'.done == l.done && g' == g
  }

  /** No loop is stuck: a waiting one can always give up or be cancelled, and gets the last free permit as well as any
      other; a handling one can end in every way; an idle one takes what is queued. */
  lemma NothingIsWithheld(env: Env, s: System, steps: seq<Step>, i: nat, h: Handled, e: Event)
    requires Starting(s) && i < |Run(env, s, steps).loops|
    ensures var now := Run(env, s, steps); var l := now.loops[i];
      && Enabled(now, Put(i, e))
      && (l.phase == Idle ==> Enabled(now, Stop(i)) && (l.queue != [] ==> Enabled(now, Take(i))))
      && (l.phase == Acquiring ==> Enabled(now, Admit(i, TimedOut)) && Enabled(now, Admit(i, Cancelled)))
      && (l.phase == Acquiring && now.g.free >= 1 ==> Enabled(now, Admit(i, Succeeded)))
      && (l.phase == Handling ==> Enabled(now, Finish(i, h)))
      && (Enabled(now, Admit(i, Succeeded)) ==> now.g.free >= 1)
  {
    hide Run;
  }

  /** Whatever the gauge reads, it falls by one and never below zero. */
  lemma GaugeStopsAtZero(g: Shared)
    ensures WaitFinished(g).waiters == (if g.waiters <= 1 then 0 else g.waiters - 1)
    ensures WaitFinished(g).free == g.free && WaitFinished(g).peak == g.peak
  {
  }
}
