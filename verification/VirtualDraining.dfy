/** When recovery ends, for streams in which a publisher repeats its rebalances at later times. */
module VirtualDraining {
  import opened Wrappers
  import opened VirtualLedger
  import opened VirtualConsumer
  import opened VirtualRecovery
  import opened VirtualTimeless

  /** A state of recovery over a log whose ids name one event each, up to the times. */
  ghost predicate RecoveringUpToTimes(c: State, log: seq<Raw>) { Recovering(ErasedState(c), ErasedLog(log)) }

  lemma RunsAreRecoveringUpToTimes(log: seq<Raw>, steps: seq<Step>)
    requires Distinct(ValidEvents(ErasedLog(log))) && IsRun(INITIAL, log, steps) && Run(INITIAL, log, steps).recover
    ensures RecoveringUpToTimes(Run(INITIAL, log, steps), log)
  {
    RunErases(INITIAL, log, steps);
    assert ErasedTables(EMPTY) == EMPTY;
    RunsAreRecovering(ErasedLog(log), steps);
  }

  lemma DrainingErases(c: State, log: seq<Raw>)
    ensures CanDrain(ErasedState(c), ErasedLog(log)) <==> CanDrain(c, log)
  {
    hide ErasedLog, ErasedTables;
    if CanDrain(c, log) {
      var steps, d :| Leads(c, log, steps, d) && d.pending == {};
      RunErases(c, log, steps);
      assert Leads(ErasedState(c), ErasedLog(log), steps, ErasedState(d));
    }
    if CanDrain(ErasedState(c), ErasedLog(log)) {
      var steps, d :| Leads(ErasedState(c), ErasedLog(log), steps, d) && d.pending == {};
      RunUnerases(c, log, steps);
      RunErases(c, log, steps);
      assert Leads(c, log, steps, Run(c, log, steps));
    }
  }

  lemma RecordedOpenErases(t: Tables, p: Id)
    ensures RecordedOpen(ErasedTables(t), p) <==> RecordedOpen(t, p)
  {
    var u := ErasedTables(t);
    if RecordedOpen(t, p) {
      var id :| id in t.events && Opens(t.events[id], p);
      assert id in u.events && Opens(u.events[id], p);
    }
    if RecordedOpen(u, p) {
      var id :| id in u.events && Opens(u.events[id], p);
      assert id in t.events && Opens(t.events[id], p);
    }
  }

  lemma QueuedOpenErases(c: State, log: seq<Raw>, p: Id)
    ensures QueuedOpen(ErasedState(c), ErasedLog(log), p) <==> QueuedOpen(c, log, p)
  {
    hide Validate, ErasedRaw;
    if QueuedOpen(c, log, p) {
      var e :| Queued(c, log, e) && Opens(e, p);
      var j :| j in c.pending && j < |log| && Validate(log[j]) == Ok(e);
      ValidateErases(log[j]);
      assert Queued(ErasedState(c), ErasedLog(log), ErasedEvent(e));
      assert Opens(ErasedEvent(e), p);
    }
    if QueuedOpen(ErasedState(c), ErasedLog(log), p) {
      var e :| Queued(ErasedState(c), ErasedLog(log), e) && Opens(e, p);
      var j :| j in c.pending && j < |log| && Validate(ErasedLog(log)[j]) == Ok(e);
      ValidateErases(log[j]);
      assert Queued(c, log, Validate(log[j]).value);
      assert Opens(Validate(log[j]).value, p);
    }
  }

  lemma DrainableErases(c: State, log: seq<Raw>)
    ensures AllDrainable(ErasedState(c), ErasedLog(log)) <==> AllDrainable(c, log)
  {
    forall i | i in c.pending && i < |log|
      ensures Drainable(ErasedState(c), ErasedLog(log), i) <==> Drainable(c, log, i)
    {
      hide RecordedOpen, QueuedOpen, ErasedRaw;
      ValidateErases(log[i]);
      if Validate(log[i]).Ok? {
        RecordedOpenErases(c.tables, Validate(log[i]).value.positionId);
        QueuedOpenErases(c, log, Validate(log[i]).value.positionId);
      }
    }
    hide Drainable;
  }

  /** The pending list can be emptied exactly if every message in it validates and is a known id, an OPEN, or a
      readable CLOSE whose readable OPEN is recorded or itself pending; repeats at other times may be among them. */
  lemma DrainsIffUpToTimes(c: State, log: seq<Raw>)
    requires RecoveringUpToTimes(c, log)
    ensures CanDrain(c, log) <==> AllDrainable(c, log)
  {
    DrainsIff(ErasedState(c), ErasedLog(log));
    DrainingErases(c, log);
    DrainableErases(c, log);
  }

  /** And if it cannot, no schedule ever reads a new message. */
  lemma UndrainedReadsNothingNewUpToTimes(c: State, log: seq<Raw>, steps: seq<Step>)
    requires RecoveringUpToTimes(c, log) && !AllDrainable(c, log) && IsRun(c, log, steps)
    ensures Run(c, log, steps).recover && Run(c, log, steps).delivered == c.delivered
  {
    DrainableErases(c, log);
    RunErases(c, log, steps);
    UndrainedReadsNothingNew(ErasedState(c), ErasedLog(log), steps);
  }

  lemma HasItsOpenErases(log: seq<Raw>, e: Event)
    ensures HasItsOpen(ErasedLog(log), ErasedEvent(e)) <==> HasItsOpen(log, e)
  {
    hide Validate, ErasedRaw;
    if e.timestamp.At? && exists o :: o in ValidEvents(log) && Opens(o, e.positionId) {
      var o :| o in ValidEvents(log) && Opens(o, e.positionId);
      var j :| 0 <= j < |log| && Validate(log[j]) == Ok(o);
      ValidateErases(log[j]);
      assert Validate(ErasedLog(log)[j]).value == ErasedEvent(o);
      assert ErasedEvent(o) in ValidEvents(ErasedLog(log)) && Opens(ErasedEvent(o), e.positionId);
    }
    if e.timestamp.At? && exists o :: o in ValidEvents(ErasedLog(log)) && Opens(o, e.positionId) {
      var o :| o in ValidEvents(ErasedLog(log)) && Opens(o, e.positionId);
      var j :| 0 <= j < |log| && Validate(ErasedLog(log)[j]) == Ok(o);
      ValidateErases(log[j]);
      assert Validate(log[j]).value in ValidEvents(log) && Opens(Validate(log[j]).value, e.positionId);
    }
  }

  /** Read off the stream: one that was read and dropped can be recovered exactly if every message validates and
      every CLOSE, with a readable timestamp, has a readable OPEN somewhere in the stream. */
  lemma LogDrainsIffUpToTimes(log: seq<Raw>)
    requires Distinct(ValidEvents(ErasedLog(log)))
    ensures CanDrain(Dropped(log), log) <==>
      forall i :: 0 <= i < |log| ==> Validate(log[i]).Ok? && HasItsOpen(log, Validate(log[i]).value)
  {
    LogDrainsIff(ErasedLog(log));
    DrainingErases(Dropped(log), log);
    assert ErasedTables(EMPTY) == EMPTY;
    assert ErasedState(Dropped(log)) == Dropped(ErasedLog(log));
    hide Validate, ErasedRaw, CanDrain, HasItsOpen, Distinct, Dropped;
    forall i | 0 <= i < |log|
      ensures Validate(ErasedLog(log)[i]).Ok? == Validate(log[i]).Ok?
      ensures Validate(log[i]).Ok? ==>
        HasItsOpen(ErasedLog(log), Validate(ErasedLog(log)[i]).value) == HasItsOpen(log, Validate(log[i]).value)
    {
      ValidateErases(log[i]);
      if Validate(log[i]).Ok? {
        HasItsOpenErases(log, Validate(log[i]).value);
      }
    }
  }

  lemma {:induction false} TriesErase(c: State, log: seq<Raw>, rows: seq<nat>)
    ensures TryAll(ErasedState(c), ErasedLog(log), rows) == ErasedState(TryAll(c, log, rows))
    decreases |rows|
  {
    if rows != [] {
      hide Next, ErasedState, ErasedLog, Enabled;
      var d, s := TryAll(c, log, rows[..|rows| - 1]), Attempt(rows[|rows| - 1], false, true);
      TriesErase(c, log, rows[..|rows| - 1]);
      EnabledErases(d, log, s);
      if Enabled(d, log, s) {
        NextErases(d, log, s);
      }
    }
  }

  lemma {:induction false} TurnsErase(c: State, log: seq<Raw>, count: nat, n: nat)
    ensures Turns(ErasedState(c), ErasedLog(log), count, n) == ErasedState(Turns(c, log, count, n))
    decreases n
  {
    if n > 0 {
      hide ErasedLog, ErasedTables, TryAll, FirstPending;
      TriesErase(c, log, FirstPending(c.pending, c.delivered, count));
      TurnsErase(Turn(c, log, count), log, count, n - 1);
    }
  }

  /** A read count of at least the number of pending messages drains whatever can be drained. */
  lemma EnoughCountDrainsUpToTimes(c: State, log: seq<Raw>, count: nat)
    requires RecoveringUpToTimes(c, log) && |c.pending| <= count
    ensures CanDrain(c, log) <==> Turns(c, log, count, |c.pending|).pending == {}
  {
    EnoughCountDrains(ErasedState(c), ErasedLog(log), count);
    DrainingErases(c, log);
    TurnsErase(c, log, count, |c.pending|);
  }
}
