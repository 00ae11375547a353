/** When the consumer's recovery ends: the program reads no new message before everything
    pending has been acked, so a pending message that can never be applied stops it. */
module VirtualRecovery {
  import opened Wrappers
  import opened VirtualLedger
  import opened VirtualConsumer

  // ------------------------------------------------------------------ what can be drained

  ghost predicate RecordedOpen(t: Tables, p: Id) { exists id :: id in t.events && Opens(t.events[id], p) }

  predicate Queued(c: State, log: seq<Raw>, e: Event) {
    exists j :: j in c.pending && j < |log| && Validate(log[j]) == Ok(e)
  }

  ghost predicate QueuedOpen(c: State, log: seq<Raw>, p: Id) { exists e :: Queued(c, log, e) && Opens(e, p) }

  /** A known id, an OPEN, or a readable CLOSE of a position whose readable OPEN is recorded or pending too. */
  ghost predicate CanApply(c: State, log: seq<Raw>, e: Event) {
    || e.eventId in c.tables.events
    || e.kind.VirtualOpen?
    || (e.timestamp.At? && (RecordedOpen(c.tables, e.positionId) || QueuedOpen(c, log, e.positionId)))
  }

  ghost predicate Drainable(c: State, log: seq<Raw>, i: nat)
    requires i < |log|
  {
    Validate(log[i]).Ok? && CanApply(c, log, Validate(log[i]).value)
  }

  /** Some schedule empties the pending list. */
  ghost predicate CanDrain(c: State, log: seq<Raw>) {
    exists steps, d :: Leads(c, log, steps, d) && d.pending == {}
  }

  /** A state of recovery that a run over a distinct log can be in. */
  ghost predicate Recovering(c: State, log: seq<Raw>) {
    Distinct(ValidEvents(log)) && Accounted(c, log) && Explained(c, log) && c.recover
  }

  lemma RunsAreRecovering(log: seq<Raw>, steps: seq<Step>)
    requires Distinct(ValidEvents(log)) && IsRun(INITIAL, log, steps) && Run(INITIAL, log, steps).recover
    ensures Recovering(Run(INITIAL, log, steps), log)
  {
    AckedOnlyIfRecorded(log, steps);
    RunIsExplained(log, steps);
  }

  lemma RecordedOpenIsDone(t: Tables, all: set<Event>, p: Id)
    requires Distinct(all) && Faithful(t, all)
    ensures RecordedOpen(t, p) <==>
      Done(t, all, VirtualOpen, p) && EventFor(all, VirtualOpen, p).value.timestamp.At?
  {
    if id :| id in t.events && Opens(t.events[id], p) {
      EventForIs(all, t.events[id]);
    }
    if Done(t, all, VirtualOpen, p) && EventFor(all, VirtualOpen, p).value.timestamp.At? {
      var e := EventFor(all, VirtualOpen, p).value;
      assert Opens(t.events[e.eventId], p);
    }
  }

  /** A pending message can be applied now exactly if it validates and is a known id, an OPEN, or a readable
      CLOSE whose readable OPEN is recorded. */
  lemma AppliesNow(c: State, log: seq<Raw>, i: nat)
    requires Recovering(c, log) && i < |log|
    ensures Process(c.tables, log[i]).Ok? <==>
      Validate(log[i]).Ok? &&
      var e := Validate(log[i]).value;
      e.eventId in c.tables.events || e.kind.VirtualOpen? || (e.timestamp.At? && RecordedOpen(c.tables, e.positionId))
  {
    if Validate(log[i]).Ok? {
      var e, all := Validate(log[i]).value, ValidEvents(log);
      assert e in all;
      RecordedOpenIsDone(c.tables, all, e.positionId);
      AttemptSucceeds(c.tables, all, e);
    }
  }

  // ---------------------------------------------------------------- drainable is enough

  /** If everything pending is drainable, something pending can be applied now. */
  lemma SomethingApplies(c: State, log: seq<Raw>) returns (i: nat)
    requires Recovering(c, log) && c.pending != {}
    requires forall j :: j in c.pending ==> j < |log| && Drainable(c, log, j)
    ensures i in c.pending && i < |log| && Process(c.tables, log[i]).Ok?
  {
    i :| i in c.pending;
    AppliesNow(c, log, i);
    if Process(c.tables, log[i]).Err? {
      var e :| Queued(c, log, e) && Opens(e, Validate(log[i]).value.positionId);
      i :| i in c.pending && i < |log| && Validate(log[i]) == Ok(e);
      AppliesNow(c, log, i);
    }
  }

  ghost predicate AllDrainable(c: State, log: seq<Raw>) {
    forall i :: i in c.pending ==> i < |log| && Drainable(c, log, i)
  }

  lemma StaysRecovering(c: State, log: seq<Raw>, i: nat)
    requires Recovering(c, log) && i in c.pending && i < |log|
    ensures Recovering(TryOne(c, log, i), log)
  {
    StepKeepsAccounts(c, log, Attempt(i, false, true));
    StepKeepsExplained(c, log, Attempt(i, false, true));
  }

  /** The tables record what was recorded before, and the applied message. */
  lemma TryOneRecords(c: State, log: seq<Raw>, i: nat)
    requires Recovering(c, log) && i in c.pending && i < |log| && Process(c.tables, log[i]).Ok?
    ensures var d := TryOne(c, log, i); var e := Validate(log[i]).value;
      && d.pending == c.pending - {i}
      && Recorded(d.tables, e)
      && (forall id :: id in c.tables.events ==> id in d.tables.events && d.tables.events[id] == c.tables.events[id])
  {
    assert Validate(log[i]).value in ValidEvents(log);
    ApplyRecords(c.tables, ValidEvents(log), Validate(log[i]).value);
  }

  lemma StaysApplicable(c: State, log: seq<Raw>, i: nat, e: Event)
    requires Recovering(c, log) && i in c.pending && i < |log| && Process(c.tables, log[i]).Ok?
    requires CanApply(c, log, e)
    ensures CanApply(TryOne(c, log, i), log, e)
  {
    TryOneRecords(c, log, i);
    var d := TryOne(c, log, i);
    hide TryOne, Recovering;
    if RecordedOpen(c.tables, e.positionId) {
      var id :| id in c.tables.events && Opens(c.tables.events[id], e.positionId);
      assert Opens(d.tables.events[id], e.positionId);
    } else if QueuedOpen(c, log, e.positionId) {
      var o :| Queued(c, log, o) && Opens(o, e.positionId);
      var j :| j in c.pending && j < |log| && Validate(log[j]) == Ok(o);
      if j == i {
        assert Opens(d.tables.events[o.eventId], e.positionId);
      } else {
        assert j in d.pending && Queued(d, log, o);
      }
    }
  }

  lemma StaysDrainable(c: State, log: seq<Raw>, i: nat)
    requires Recovering(c, log) && AllDrainable(c, log) && i in c.pending && i < |log| && Process(c.tables, log[i]).Ok?
    ensures Recovering(TryOne(c, log, i), log) && AllDrainable(TryOne(c, log, i), log)
    ensures TryOne(c, log, i).pending == c.pending - {i}
  {
    StaysRecovering(c, log, i);
    TryOneRecords(c, log, i);
    hide Recovering, TryOne, CanApply;
    forall j | j in TryOne(c, log, i).pending ensures Drainable(TryOne(c, log, i), log, j) {
      StaysApplicable(c, log, i, Validate(log[j]).value);
    }
  }

  lemma {:induction false} DrainableDrains(c: State, log: seq<Raw>) returns (steps: seq<Step>, d: State)
    requires Recovering(c, log) && AllDrainable(c, log)
    ensures Leads(c, log, steps, d) && d.pending == {}
    decreases |c.pending|
  {
    if c.pending == {} {
      steps, d := [], c;
    } else {
      var i := SomethingApplies(c, log);
      StaysDrainable(c, log, i);
      var s, next := Attempt(i, false, true), TryOne(c, log, i);
      var rest;
      rest, d := DrainableDrains(next, log);
      RunOfOne(c, log, s);
      LeadsConcat(c, log, [s], next, rest, d);
      steps := [s] + rest;
    }
  }

  // --------------------------------------------------------------- and it is necessary

  /** From c, only applicable pending messages have been recorded, and row i is still pending. */
  ghost predicate Held(c: State, d: State, log: seq<Raw>, i: nat) {
    d.recover && i in d.pending && d.pending <= c.pending && FromPending(c, d.tables, log)
  }

  ghost predicate FromPending(c: State, t: Tables, log: seq<Raw>) {
    Faithful(t, ValidEvents(log)) && forall id :: id in t.events ==> From(c, log, id, t.events[id])
  }

  ghost predicate From(c: State, log: seq<Raw>, id: Id, e: Event) {
    (id in c.tables.events && c.tables.events[id] == e) || (Queued(c, log, e) && CanApply(c, log, e))
  }

  lemma AppliedWasApplicable(c: State, d: State, log: seq<Raw>, i: nat, j: nat)
    requires Distinct(ValidEvents(log)) && Held(c, d, log, i) && j in d.pending && j < |log|
    requires Process(d.tables, log[j]).Ok?
    ensures CanApply(c, log, Validate(log[j]).value)
  {
    var e, all := Validate(log[j]).value, ValidEvents(log);
    assert e in all && Queued(c, log, e);
    AttemptSucceeds(d.tables, all, e);
    RecordedOpenIsDone(d.tables, all, e.positionId);
    if e.eventId in d.tables.events {
      assert From(c, log, e.eventId, d.tables.events[e.eventId]);
    } else if e.kind.VirtualClose? {
      var id :| id in d.tables.events && Opens(d.tables.events[id], e.positionId);
      assert From(c, log, id, d.tables.events[id]);
    }
  }

  lemma AppliedIsFromPending(c: State, d: State, log: seq<Raw>, i: nat, j: nat)
    requires Distinct(ValidEvents(log)) && Held(c, d, log, i) && j in d.pending && j < |log|
    requires Process(d.tables, log[j]).Ok?
    ensures FromPending(c, Process(d.tables, log[j]).value, log)
    ensures CanApply(c, log, Validate(log[j]).value)
  {
    var e, all := Validate(log[j]).value, ValidEvents(log);
    assert e in all && Queued(c, log, e);
    AppliedWasApplicable(c, d, log, i, j);
    ApplyStaysFaithful(d.tables, all, e);
    ApplyRecords(d.tables, all, e);
    hide Faithful, Distinct, CanApply, Validate;
    assert From(c, log, e.eventId, e);
  }

  lemma StepHolds(c: State, d: State, log: seq<Raw>, i: nat, s: Step)
    requires Distinct(ValidEvents(log)) && Held(c, d, log, i) && Enabled(d, log, s)
    requires i < |log| && !Drainable(c, log, i)
    ensures Held(c, Next(d, log, s), log, i) && Next(d, log, s).delivered == d.delivered
  {
    hide FromPending, CanApply;
    if s.Attempt? && !s.fault && Process(d.tables, log[s.i]).Ok? {
      AppliedIsFromPending(c, d, log, i, s.i);
    }
  }

  lemma RecoveringIsDistinct(c: State, log: seq<Raw>)
    requires Recovering(c, log)
    ensures Distinct(ValidEvents(log)) && c.recover
  {
  }

  lemma {:induction false} UndrainableStays(c: State, log: seq<Raw>, i: nat, steps: seq<Step>)
    requires Recovering(c, log) && i in c.pending && i < |log| && !Drainable(c, log, i) && IsRun(c, log, steps)
    ensures Held(c, Run(c, log, steps), log, i) && Run(c, log, steps).delivered == c.delivered
    decreases |steps|
  {
    if steps != [] {
      hide Held, Recovering, Drainable, Next;
      UndrainableStays(c, log, i, steps[..|steps| - 1]);
      RecoveringIsDistinct(c, log);
      StepHolds(c, Run(c, log, steps[..|steps| - 1]), log, i, steps[|steps| - 1]);
    }
  }

  /** The pending list can be emptied exactly if every message in it validates and is a known id, an OPEN, or a
      readable CLOSE whose readable OPEN is recorded or itself pending. */
  lemma DrainsIff(c: State, log: seq<Raw>)
    requires Recovering(c, log)
    ensures CanDrain(c, log) <==> AllDrainable(c, log)
  {
    if AllDrainable(c, log) {
      var steps, d := DrainableDrains(c, log);
    } else {
      var i :| i in c.pending && (i < |log| ==> !Drainable(c, log, i));
      forall steps, d | Leads(c, log, steps, d) ensures d.pending != {} {
        UndrainableStays(c, log, i, steps);
      }
    }
  }

  /** And if it cannot, no schedule ever reads a new message. */
  lemma UndrainedReadsNothingNew(c: State, log: seq<Raw>, steps: seq<Step>)
    requires Recovering(c, log) && !AllDrainable(c, log) && IsRun(c, log, steps)
    ensures Run(c, log, steps).recover && Run(c, log, steps).delivered == c.delivered
  {
    var i :| i in c.pending && (i < |log| ==> !Drainable(c, log, i));
    UndrainableStays(c, log, i, steps);
  }

  // -------------------------------------------------- reaching recovery with a full stream

  /** Everything read, nothing applied, and the connection lost. */
  function Dropped(log: seq<Raw>): State { State(EMPTY, |log|, Rows(0, |log|), {}, true) }

  lemma DroppedIsReachable(log: seq<Raw>)
    ensures Leads(INITIAL, log, [Drained, Read(|log|), Reconnect], Dropped(log))
  {
    var a, b := State(EMPTY, 0, {}, {}, false), State(EMPTY, |log|, Rows(0, |log|), {}, false);
    RunOfOne(INITIAL, log, Drained);
    LeadsOn(INITIAL, log, [Drained], a, Read(|log|));
    assert a.pending + Rows(0, |log|) == b.pending;
    LeadsOn(INITIAL, log, [Drained] + [Read(|log|)], b, Reconnect);
    assert [Drained, Read(|log|), Reconnect] == [Drained] + [Read(|log|)] + [Reconnect];
  }

  /** The message is an OPEN, or a readable CLOSE with a readable OPEN somewhere in the log. */
  ghost predicate HasItsOpen(log: seq<Raw>, e: Event) {
    e.kind.VirtualOpen? || (e.timestamp.At? && exists o :: o in ValidEvents(log) && Opens(o, e.positionId))
  }

  /** A stream that was read and dropped can be recovered exactly if every message in it validates and every
      CLOSE, with a readable timestamp, has a readable OPEN somewhere in the stream. */
  lemma LogDrainsIff(log: seq<Raw>)
    requires Distinct(ValidEvents(log))
    ensures CanDrain(Dropped(log), log) <==>
      forall i :: 0 <= i < |log| ==> Validate(log[i]).Ok? && HasItsOpen(log, Validate(log[i]).value)
  {
    var c := Dropped(log);
    DroppedIsReachable(log);
    RunsAreRecovering(log, [Drained, Read(|log|), Reconnect]);
    DrainsIff(c, log);
    forall e ensures Queued(c, log, e) <==> e in ValidEvents(log) {
      if e in ValidEvents(log) {
        var i :| 0 <= i < |log| && Validate(log[i]) == Ok(e);
        assert i in c.pending;
      }
    }
    forall e ensures CanApply(c, log, e) <==> HasItsOpen(log, e) {
      if HasItsOpen(log, e) && e.kind.VirtualClose? {
        var o :| o in ValidEvents(log) && Opens(o, e.positionId);
        assert Queued(c, log, o);
      }
    }
    forall i: nat | i < |log| ensures i in c.pending {
    }
  }

  /** One message that is not an object is enough to stop the consumer for ever. */
  lemma BrokenMessageStops(steps: seq<Step>)
    requires IsRun(Dropped([NotObject]), [NotObject], steps)
    ensures Leads(INITIAL, [NotObject], [Drained, Read(1), Reconnect], Dropped([NotObject]))
    ensures Run(Dropped([NotObject]), [NotObject], steps).pending == {0}
  {
    var log := [NotObject];
    assert ValidEvents(log) == {};
    DroppedIsReachable(log);
    RunsAreRecovering(log, [Drained, Read(|log|), Reconnect]);
    assert Rows(0, 1) == {0};
    UndrainableStays(Dropped(log), log, 0, steps);
  }

  /** So is a CLOSE whose OPEN never comes, although it passes every check. */
  lemma OrphanCloseStops(e: Event, steps: seq<Step>)
    requires e.kind.VirtualClose? && e.price > 0.0 && e.qty > 0.0
    requires IsRun(Dropped([Message(e)]), [Message(e)], steps)
    ensures Leads(INITIAL, [Message(e)], [Drained, Read(1), Reconnect], Dropped([Message(e)]))
    ensures Run(Dropped([Message(e)]), [Message(e)], steps).pending == {0}
  {
    var log := [Message(e)];
    MessageRoundTrip(e);
    assert ValidEvents(log) == {e} by { assert Validate(log[0]).value == e; }
    DroppedIsReachable(log);
    RunsAreRecovering(log, [Drained, Read(|log|), Reconnect]);
    assert Rows(0, 1) == {0};
    UndrainableStays(Dropped(log), log, 0, steps);
  }

  // ------------------------------------------------------------- what the loop itself reaches

  predicate AllPending(c: State, log: seq<Raw>, rows: seq<nat>) {
    forall k :: 0 <= k < |rows| ==> rows[k] in c.pending && rows[k] < |log|
  }

  lemma {:induction false} TryAllShrinks(c: State, log: seq<Raw>, rows: seq<nat>)
    ensures var d := TryAll(c, log, rows);
      d.pending <= c.pending && d.recover == c.recover && d.delivered == c.delivered
    ensures AllPending(c, log, rows) && TryAll(c, log, rows).pending == c.pending ==>
      TryAll(c, log, rows) == c && AllFail(c.tables, log, rows)
    decreases |rows|
  {
    if rows != [] {
      var init, i := rows[..|rows| - 1], rows[|rows| - 1];
      TryAllShrinks(c, log, init);
      if AllPending(c, log, rows) && TryAll(c, log, rows).pending == c.pending {
        assert TryAll(c, log, init).pending == c.pending;
        assert forall k :: 0 <= k < |init| ==> init[k] == rows[k];
      }
    }
  }

  lemma {:induction false} FailingRowsChangeNothing(c: State, log: seq<Raw>, rows: seq<nat>)
    requires AllFail(c.tables, log, rows)
    ensures TryAll(c, log, rows) == c
    decreases |rows|
  {
    if rows != [] {
      assert forall k :: 0 <= k < |rows| - 1 ==> rows[..|rows| - 1][k] == rows[k];
      FailingRowsChangeNothing(c, log, rows[..|rows| - 1]);
    }
  }

  function Before(pending: set<nat>, n: nat): set<nat> { set i | i in pending && i < n }

  lemma {:induction false} FirstPendingIsPending(pending: set<nat>, n: nat, count: nat)
    ensures forall i :: i in FirstPending(pending, n, count) ==> i in pending && i < n
    ensures |Before(pending, n)| <= count ==>
      |FirstPending(pending, n, count)| == |Before(pending, n)| &&
      forall i :: i in Before(pending, n) ==> i in FirstPending(pending, n, count)
    decreases n
  {
    if n > 0 {
      FirstPendingIsPending(pending, n - 1, count);
      if n - 1 in pending {
        assert Before(pending, n) == Before(pending, n - 1) + {n - 1};
      } else {
        assert Before(pending, n) == Before(pending, n - 1);
      }
    }
  }

  /** One turn of recovery in fair weather. */
  function Turn(c: State, log: seq<Raw>, count: nat): State {
    TryAll(c, log, FirstPending(c.pending, c.delivered, count))
  }

  function Turns(c: State, log: seq<Raw>, count: nat, n: nat): State
    decreases n
  {
    if n == 0 then c else Turns(Turn(c, log, count), log, count, n - 1)
  }

  lemma TurnStarves(c: State, log: seq<Raw>, count: nat)
    requires c.delivered <= |log|
    ensures var d := Turn(c, log, count);
      && d.pending <= c.pending && d.delivered == c.delivered
      && (d.pending == c.pending ==> d == c)
      && (d == c <==> AllFail(c.tables, log, FirstPending(c.pending, c.delivered, count)))
  {
    var rows := FirstPending(c.pending, c.delivered, count);
    FirstPendingIsPending(c.pending, c.delivered, count);
    hide FirstPending, AllFail, TryAll;
    assert AllPending(c, log, rows) by {
      assert forall k :: 0 <= k < |rows| ==> rows[k] in rows;
    }
    TryAllShrinks(c, log, rows);
    if AllFail(c.tables, log, rows) {
      FailingRowsChangeNothing(c, log, rows);
    }
  }

  /** A turn of recovery gets nowhere, and so does every later one, exactly if each of the first `count` pending
      messages fails. */
  lemma {:induction false} StarvedIff(c: State, log: seq<Raw>, count: nat, n: nat)
    requires c.delivered <= |log| && n > 0
    ensures Turns(c, log, count, n) == c <==> AllFail(c.tables, log, FirstPending(c.pending, c.delivered, count))
    ensures Turns(c, log, count, n).pending <= c.pending
    decreases n
  {
    hide Turn, AllFail, FirstPending;
    TurnStarves(c, log, count);
    var d := Turn(c, log, count);
    assert Turns(c, log, count, n) == Turns(d, log, count, n - 1);
    if n > 1 {
      StarvedIff(d, log, count, n - 1);
    }
  }

  lemma {:induction false} TurnStaysRecovering(c: State, log: seq<Raw>, rows: seq<nat>)
    requires Recovering(c, log)
    ensures Recovering(TryAll(c, log, rows), log)
    ensures AllDrainable(c, log) ==> AllDrainable(TryAll(c, log, rows), log)
    decreases |rows|
  {
    if rows != [] {
      var d, i := TryAll(c, log, rows[..|rows| - 1]), rows[|rows| - 1];
      TurnStaysRecovering(c, log, rows[..|rows| - 1]);
      hide Recovering, AllDrainable;
      if Enabled(d, log, Attempt(i, false, true)) && Process(d.tables, log[i]).Ok? {
        StaysRecovering(d, log, i);
        if AllDrainable(d, log) {
          StaysDrainable(d, log, i);
        }
      }
    }
  }

  lemma TurnDrains(c: State, log: seq<Raw>, count: nat)
    requires Recovering(c, log) && AllDrainable(c, log) && |c.pending| <= count
    ensures Turn(c, log, count).pending <= c.pending
    ensures c.pending != {} ==> Turn(c, log, count).pending != c.pending
  {
    TurnStarves(c, log, count);
    FirstPendingIsPending(c.pending, c.delivered, count);
    assert Before(c.pending, c.delivered) == c.pending;
    if c.pending != {} {
      hide Turn, Process, Drainable, FirstPending;
      var i := SomethingApplies(c, log);
      assert i in FirstPending(c.pending, c.delivered, count);
    }
  }

  lemma OneTurn(c: State, log: seq<Raw>, count: nat, n: nat)
    ensures Turns(c, log, count, n) == if n == 0 then c else Turns(Turn(c, log, count), log, count, n - 1)
  {
  }

  lemma {:induction false} DrainableTurnsDrain(c: State, log: seq<Raw>, count: nat, n: nat)
    requires Recovering(c, log) && AllDrainable(c, log) && |c.pending| <= count && |c.pending| <= n
    ensures Turns(c, log, count, n).pending == {}
    decreases n
  {
    hide Turn, Turns, Recovering, AllDrainable;
    OneTurn(c, log, count, n);
    if n > 0 {
      TurnKeeps(c, log, count);
      SmallerSet(Turn(c, log, count).pending, c.pending);
      DrainableTurnsDrain(Turn(c, log, count), log, count, n - 1);
    }
  }

  lemma TurnKeeps(c: State, log: seq<Raw>, count: nat)
    requires Recovering(c, log) && AllDrainable(c, log) && |c.pending| <= count
    ensures Recovering(Turn(c, log, count), log) && AllDrainable(Turn(c, log, count), log)
    ensures Turn(c, log, count).pending <= c.pending
    ensures c.pending != {} ==> Turn(c, log, count).pending != c.pending
  {
    TurnDrains(c, log, count);
    hide Recovering, AllDrainable;
    TurnStaysRecovering(c, log, FirstPending(c.pending, c.delivered, count));
  }

  lemma {:induction false} TriesAreRun(c: State, log: seq<Raw>, rows: seq<nat>) returns (steps: seq<Step>)
    ensures Leads(c, log, steps, TryAll(c, log, rows))
    decreases |rows|
  {
    if rows == [] {
      steps := [];
    } else {
      var d, s := TryAll(c, log, rows[..|rows| - 1]), Attempt(rows[|rows| - 1], false, true);
      steps := TriesAreRun(c, log, rows[..|rows| - 1]);
      if Enabled(d, log, s) {
        LeadsOn(c, log, steps, d, s);
        steps := steps + [s];
      }
    }
  }

  lemma {:induction false} TurnsAreRun(c: State, log: seq<Raw>, count: nat, n: nat) returns (steps: seq<Step>)
    ensures Leads(c, log, steps, Turns(c, log, count, n))
    decreases n
  {
    if n == 0 {
      steps := [];
    } else {
      hide FirstPending, TryAll;
      var d := Turn(c, log, count);
      var first := TriesAreRun(c, log, FirstPending(c.pending, c.delivered, count));
      var rest := TurnsAreRun(d, log, count, n - 1);
      LeadsConcat(c, log, first, d, rest, Turns(d, log, count, n - 1));
      steps := first + rest;
    }
  }

  /** A read count of at least the number of pending messages never starves: recovery then drains in at most
      that many turns, if it can drain at all. */
  lemma EnoughCountDrains(c: State, log: seq<Raw>, count: nat)
    requires Recovering(c, log) && |c.pending| <= count
    ensures CanDrain(c, log) <==> Turns(c, log, count, |c.pending|).pending == {}
  {
    DrainsIff(c, log);
    if AllDrainable(c, log) {
      DrainableTurnsDrain(c, log, count, |c.pending|);
    } else {
      var steps := TurnsAreRun(c, log, count, |c.pending|);
    }
  }

  lemma SmallerSet(a: set<nat>, b: set<nat>)
    requires a <= b
    ensures |a| <= |b| && (a != b ==> |a| < |b|)
  {
    assert b == a + (b - a);
    assert a != b ==> exists x :: x in b - a;
  }

  lemma CloseThenOpenDrains(open: Event, close: Event)
    requires open.kind.VirtualOpen? && close.kind.VirtualClose? && open.positionId == close.positionId
    requires open.eventId != close.eventId && open.timestamp.At? && close.timestamp.At?
    requires open.price > 0.0 && open.qty > 0.0 && close.price > 0.0 && close.qty > 0.0
    ensures CanDrain(Dropped([Message(close), Message(open)]), [Message(close), Message(open)])
  {
    var log := [Message(close), Message(open)];
    MessageRoundTrip(open);
    MessageRoundTrip(close);
    hide Validate, Message, CanDrain;
    assert Validate(log[0]).value == close && Validate(log[1]).value == open;
    assert ValidEvents(log) == {close, open};
    assert Opens(open, close.positionId);
    LogDrainsIff(log);
  }

  lemma FirstOfTwo()
    ensures FirstPending(Rows(0, 2), 2, 1) == [0]
  {
    assert FirstPending(Rows(0, 2), 0, 1) == [];
    assert FirstPending(Rows(0, 2), 1, 1) == [0];
  }

  /** A smaller one can: with one message per read, a CLOSE at the head that waits for the OPEN behind it stops
      recovery for ever, although it could be drained. */
  lemma SmallCountStarves(open: Event, close: Event, n: nat)
    requires open.kind.VirtualOpen? && close.kind.VirtualClose? && open.positionId == close.positionId
    requires open.eventId != close.eventId && open.timestamp.At? && close.timestamp.At?
    requires open.price > 0.0 && open.qty > 0.0 && close.price > 0.0 && close.qty > 0.0
    ensures var log := [Message(close), Message(open)];
      CanDrain(Dropped(log), log) && Turns(Dropped(log), log, 1, n) == Dropped(log)
  {
    var log := [Message(close), Message(open)];
    CloseThenOpenDrains(open, close);
    MessageRoundTrip(close);
    FirstOfTwo();
    assert AllFail(EMPTY, log, [0]);
    hide CanDrain, Process, AllFail, FirstPending;
    if n > 0 {
      StarvedIff(Dropped(log), log, 1, n);
    }
  }
}
