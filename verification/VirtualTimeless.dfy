/** The virtual-trade ledger up to clock times.

    A publisher that repeats a rebalance sends the same events again, at a later time.  Which
    copy is applied first decides the recorded times, and nothing else: forgetting the times
    commutes with every operation, so that schedules cannot be told apart by anything else. */
module VirtualTimeless {
  import opened Wrappers
  import opened VirtualLedger
  import opened VirtualConsumer

  /** A readable time is forgotten; whether it was readable is not. */
  function Erased(t: Timestamp): Timestamp { if t.At? then At(0) else t }

  function ErasedEvent(e: Event): Event { e.(timestamp := Erased(e.timestamp)) }

  function ErasedPosition(p: VPosition): VPosition { p.(openedAt := Erased(p.openedAt)) }

  function ErasedTrade(x: VTrade): VTrade {
    x.(openedAt := Erased(x.openedAt), closedAt := Erased(x.closedAt), durationHours := 0.0)
  }

  function ErasedPositions(m: map<Id, VPosition>): map<Id, VPosition> { map p | p in m :: ErasedPosition(m[p]) }

  function ErasedTrades(m: map<Id, VTrade>): map<Id, VTrade> { map p | p in m :: ErasedTrade(m[p]) }

  function ErasedRecords(m: map<Id, Event>): map<Id, Event> { map id | id in m :: ErasedEvent(m[id]) }

  function ErasedTables(t: Tables): Tables {
    Tables(ErasedPositions(t.positions), ErasedTrades(t.trades), ErasedRecords(t.events))
  }

  function ErasedResult(r: Result<Tables, Error>): Result<Tables, Error> {
    match r
    case Ok(t) => Ok(ErasedTables(t))
    case Err(error) => Err(error)
  }

  function ErasedRaw(m: Raw): Raw {
    if m.Raw? && m.timestamp.Some? then m.(timestamp := Some(Erased(m.timestamp.value))) else m
  }

  function ErasedLog(log: seq<Raw>): (r: seq<Raw>)
    ensures |r| == |log| && forall i :: 0 <= i < |log| ==> r[i] == ErasedRaw(log[i])
  {
    seq(|log|, i requires 0 <= i < |log| => ErasedRaw(log[i]))
  }

  function ErasedEvents(log: seq<Event>): (r: seq<Event>)
    ensures |r| == |log| && forall i :: 0 <= i < |log| ==> r[i] == ErasedEvent(log[i])
  {
    seq(|log|, i requires 0 <= i < |log| => ErasedEvent(log[i]))
  }

  function ErasedState(c: State): State { c.(tables := ErasedTables(c.tables)) }

  // ---------------------------------------------------------------------- the operations

  lemma ErasedDuration(p: VPosition, e: Event)
    requires p.openedAt.At? && e.timestamp.At?
    ensures ClosedTrade(ErasedPosition(p), ErasedEvent(e)) == ErasedTrade(ClosedTrade(p, e))
  {
  }

  lemma PositionsErase(m: map<Id, VPosition>, p: Id, row: VPosition)
    ensures ErasedPositions(m[p := row]) == ErasedPositions(m)[p := ErasedPosition(row)]
    ensures ErasedPositions(m - {p}) == ErasedPositions(m) - {p}
  {
  }

  lemma TradesErase(m: map<Id, VTrade>, p: Id, row: VTrade)
    ensures ErasedTrades(m[p := row]) == ErasedTrades(m)[p := ErasedTrade(row)]
  {
  }

  lemma RecordsErase(m: map<Id, Event>, id: Id, e: Event)
    ensures ErasedRecords(m[id := e]) == ErasedRecords(m)[id := ErasedEvent(e)]
  {
  }

  lemma SameKeys(t: Tables)
    ensures ErasedTables(t).positions.Keys == t.positions.Keys && ErasedTables(t).trades.Keys == t.trades.Keys
    ensures ErasedTables(t).events.Keys == t.events.Keys
    ensures forall p :: p in t.positions ==> ErasedPositions(t.positions)[p] == ErasedPosition(t.positions[p])
  {
  }

  lemma OpenErases(t: Tables, e: Event)
    requires e.kind.VirtualOpen?
    ensures Apply(ErasedTables(t), ErasedEvent(e)) == ErasedResult(Apply(t, e))
  {
    SameKeys(t);
    PositionsErase(t.positions, e.positionId, OpenedPosition(e));
    RecordsErase(t.events, e.eventId, e);
    hide ErasedPositions, ErasedTrades, ErasedRecords;
  }

  lemma CloseErases(t: Tables, e: Event)
    requires e.kind.VirtualClose?
    ensures Apply(ErasedTables(t), ErasedEvent(e)) == ErasedResult(Apply(t, e))
  {
    SameKeys(t);
    hide ErasedPositions, ErasedTrades, ErasedRecords, ClosedTrade, ErasedTrade;
    if e.eventId !in t.events && Apply(t, e).Ok? {
      var p := t.positions[e.positionId];
      ErasedDuration(p, e);
      PositionsErase(t.positions, p.positionId, p);
      TradesErase(t.trades, p.positionId, ClosedTrade(p, e));
      RecordsErase(t.events, e.eventId, e);
    }
  }

  lemma ValidateErases(m: Raw)
    ensures Validate(ErasedRaw(m)) ==
      match Validate(m) case Ok(e) => Ok(ErasedEvent(e)) case Err(error) => Err(error)
  {
  }

  lemma ProcessErases(t: Tables, m: Raw)
    ensures Process(ErasedTables(t), ErasedRaw(m)) == ErasedResult(Process(t, m))
  {
    ValidateErases(m);
    hide Validate, Apply, ErasedTables, ErasedRaw;
    if Validate(m).Ok? {
      if Validate(m).value.kind.VirtualOpen? {
        OpenErases(t, Validate(m).value);
      } else {
        CloseErases(t, Validate(m).value);
      }
    }
  }

  lemma {:induction false} ReplayErases(t: Tables, log: seq<Event>)
    ensures Replay(ErasedTables(t), ErasedEvents(log)) == ErasedResult(Replay(t, log))
    decreases |log|
  {
    if log != [] {
      if log[0].kind.VirtualOpen? {
        OpenErases(t, log[0]);
      } else {
        CloseErases(t, log[0]);
      }
      hide Apply, ErasedTables, ErasedEvent;
      assert ErasedEvents(log)[1..] == ErasedEvents(log[1..]);
      if Apply(t, log[0]).Ok? {
        ReplayErases(Apply(t, log[0]).value, log[1..]);
      }
    }
  }

  lemma EnabledErases(c: State, log: seq<Raw>, s: Step)
    ensures Enabled(ErasedState(c), ErasedLog(log), s) <==> Enabled(c, log, s)
  {
  }

  lemma NextErases(c: State, log: seq<Raw>, s: Step)
    requires Enabled(c, log, s)
    ensures Enabled(ErasedState(c), ErasedLog(log), s)
    ensures Next(ErasedState(c), ErasedLog(log), s) == ErasedState(Next(c, log, s))
  {
    if s.Attempt? {
      ProcessErases(c.tables, log[s.i]);
      hide Process, ErasedTables, ErasedRaw;
    }
  }

  lemma {:induction false} RunErases(c: State, log: seq<Raw>, steps: seq<Step>)
    requires IsRun(c, log, steps)
    ensures IsRun(ErasedState(c), ErasedLog(log), steps)
    ensures Run(ErasedState(c), ErasedLog(log), steps) == ErasedState(Run(c, log, steps))
    decreases |steps|
  {
    if steps != [] {
      hide Next, ErasedState, ErasedLog;
      RunErases(c, log, steps[..|steps| - 1]);
      NextErases(Run(c, log, steps[..|steps| - 1]), log, steps[|steps| - 1]);
    }
  }

  /** Nor does forgetting enable anything. */
  lemma {:induction false} RunUnerases(c: State, log: seq<Raw>, steps: seq<Step>)
    requires IsRun(ErasedState(c), ErasedLog(log), steps)
    ensures IsRun(c, log, steps)
    decreases |steps|
  {
    if steps != [] {
      hide Next, ErasedState, ErasedLog, Enabled;
      var before := steps[..|steps| - 1];
      RunUnerases(c, log, before);
      RunErases(c, log, before);
      EnabledErases(Run(c, log, before), log, steps[|steps| - 1]);
    }
  }

  // --------------------------------------------------------------------------- the result

  /** Messages may be repeated with other times.  Once everything is acked, the tables are those of the log applied
      in order, up to the recorded times. */
  lemma ScheduleDoesNotMatterUpToTimes(log: seq<Raw>, steps: seq<Step>)
    requires Distinct(ValidEvents(ErasedLog(log))) && IsRun(INITIAL, log, steps)
    requires forall i :: 0 <= i < |log| ==> i in Run(INITIAL, log, steps).acked
    ensures AllValid(log)
    ensures Replay(EMPTY, Decoded(log)).Ok? ==>
      ErasedTables(Run(INITIAL, log, steps).tables) == ErasedTables(Replay(EMPTY, Decoded(log)).value)
  {
    var erased := ErasedLog(log);
    RunErases(INITIAL, log, steps);
    assert ErasedTables(EMPTY) == EMPTY;
    ScheduleDoesNotMatter(erased, steps);
    forall i | 0 <= i < |log|
      ensures Validate(log[i]).Ok? && Validate(erased[i]).value == ErasedEvent(Validate(log[i]).value)
    {
      ValidateErases(log[i]);
      assert Validate(erased[i]).Ok?;
    }
    hide Validate, Distinct, ErasedTables, ErasedEvent;
    assert Decoded(erased) == ErasedEvents(Decoded(log));
    ReplayErases(EMPTY, Decoded(log));
  }

  /** Likewise for two schedules of a log that could not be applied in order. */
  lemma AckedRunsAgreeUpToTimes(log: seq<Raw>, a: seq<Step>, b: seq<Step>)
    requires Distinct(ValidEvents(ErasedLog(log))) && IsRun(INITIAL, log, a) && IsRun(INITIAL, log, b)
    requires forall i :: 0 <= i < |log| ==> i in Run(INITIAL, log, a).acked && i in Run(INITIAL, log, b).acked
    ensures ErasedTables(Run(INITIAL, log, a).tables) == ErasedTables(Run(INITIAL, log, b).tables)
  {
    RunErases(INITIAL, log, a);
    RunErases(INITIAL, log, b);
    assert ErasedTables(EMPTY) == EMPTY;
    AckedRunsAgree(ErasedLog(log), a, b);
  }
}
