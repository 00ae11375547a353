/** The consumer group over an at-least-once stream, as a machine over its steps, and the
    polling loop that drives it.

    A message is delivered once as new, stays pending until it is acked, and may be tried
    any number of times: the database may fail and roll back, the connection may be lost
    between commit and ack, and after a reconnect everything pending is read again. */
module VirtualConsumer {
  import opened VirtualLedger

  datatype State = State(tables: Tables, delivered: nat, pending: set<nat>, acked: set<nat>, recover: bool)

  const INITIAL := State(EMPTY, 0, {}, {}, true)

  datatype Step =
    | Read(n: nat)                                // the next n new messages become pending
    | Drained                                     // a recovery read found nothing pending
    | Attempt(i: nat, fault: bool, ack: bool)     // one try of pending message i
    | Reconnect

  function Rows(start: nat, n: nat): (r: set<nat>)
    ensures forall i: nat :: i in r <==> start <= i < start + n
  {
    if n == 0 then {} else Rows(start, n - 1) + {start + n - 1}
  }

  predicate Enabled(c: State, log: seq<Raw>, s: Step) {
    match s
    case Read(n) => !c.recover && c.delivered + n <= |log|
    case Drained => c.recover && c.pending == {}
    case Attempt(i, _, _) => i in c.pending && i < |log|
    case Reconnect => true
  }

  /** A failed attempt changes nothing; a committed one whose ack is lost stays pending and
      breaks the connection, so that recovery starts over. */
  function Next(c: State, log: seq<Raw>, s: Step): State
    requires Enabled(c, log, s)
  {
    match s
    case Read(n) =>
      c.(delivered := c.delivered + n, pending := c.pending + Rows(c.delivered, n))
    case Drained => c.(recover := false)
    case Reconnect => c.(recover := true)
    case Attempt(i, fault, ack) =>
      if fault then c
      else
        match Process(c.tables, log[i])
        case Err(_) => c
        case Ok(t) =>
          if ack then c.(tables := t, pending := c.pending - {i}, acked := c.acked + {i})
          else c.(tables := t, recover := true)
  }

  predicate IsRun(c: State, log: seq<Raw>, steps: seq<Step>)
    decreases |steps|, 0
  {
    steps == [] ||
    (IsRun(c, log, steps[..|steps| - 1]) && Enabled(Run(c, log, steps[..|steps| - 1]), log, steps[|steps| - 1]))
  }

  function Run(c: State, log: seq<Raw>, steps: seq<Step>): State
    requires IsRun(c, log, steps)
    decreases |steps|, 1
  {
    if steps == [] then c else Next(Run(c, log, steps[..|steps| - 1]), log, steps[|steps| - 1])
  }

  lemma RunOfOne(c: State, log: seq<Raw>, s: Step)
    requires Enabled(c, log, s)
    ensures IsRun(c, log, [s]) && Run(c, log, [s]) == Next(c, log, s)
  {
  }

  lemma RunAndOne(c: State, log: seq<Raw>, steps: seq<Step>, s: Step)
    requires IsRun(c, log, steps) && Enabled(Run(c, log, steps), log, s)
    ensures IsRun(c, log, steps + [s]) && Run(c, log, steps + [s]) == Next(Run(c, log, steps), log, s)
  {
  }

  // -------------------------------------------------- what holds over every run, any log

  /** Delivered messages are pending or acked, never both, and an acked one is recorded. */
  ghost predicate Accounted(c: State, log: seq<Raw>) {
    && c.delivered <= |log|
    && (forall i :: 0 <= i < c.delivered <==> i in c.pending || i in c.acked)
    && c.pending !! c.acked
    && (forall i :: i in c.acked && i < |log| ==> AckedMeansRecorded(c.tables, log[i]))
  }

  predicate AckedMeansRecorded(t: Tables, m: Raw) {
    Validate(m).Ok? && Validate(m).value.eventId in t.events
  }

  lemma StepKeepsAccounts(c: State, log: seq<Raw>, s: Step)
    requires Accounted(c, log) && Enabled(c, log, s)
    ensures Accounted(Next(c, log, s), log)
  {
  }

  /** No run, however faulty, acks a message whose event id is not recorded, loses a
      delivered message or holds it twice. */
  lemma {:induction false} AckedOnlyIfRecorded(log: seq<Raw>, steps: seq<Step>)
    requires IsRun(INITIAL, log, steps)
    ensures Accounted(Run(INITIAL, log, steps), log)
    decreases |steps|
  {
    if steps != [] {
      var before := steps[..|steps| - 1];
      AckedOnlyIfRecorded(log, before);
      StepKeepsAccounts(Run(INITIAL, log, before), log, steps[|steps| - 1]);
    }
  }

  // ------------------------------------------------------------- schedule independence

  predicate AllValid(log: seq<Raw>) { forall i :: 0 <= i < |log| ==> Validate(log[i]).Ok? }

  /** The events the messages carry. */
  function Decoded(log: seq<Raw>): (r: seq<Event>)
    requires AllValid(log)
    ensures |r| == |log| && forall i :: 0 <= i < |log| ==> r[i] == Validate(log[i]).value
  {
    seq(|log|, i requires 0 <= i < |log| => Validate(log[i]).value)
  }

  ghost function ValidEvents(log: seq<Raw>): set<Event> {
    set i | 0 <= i < |log| && Validate(log[i]).Ok? :: Validate(log[i]).value
  }

  ghost predicate Explained(c: State, log: seq<Raw>) {
    && Faithful(c.tables, ValidEvents(log))
    && forall i :: i in c.acked && i < |log| && Validate(log[i]).Ok? ==> Recorded(c.tables, Validate(log[i]).value)
  }

  lemma StepKeepsExplained(c: State, log: seq<Raw>, s: Step)
    requires Distinct(ValidEvents(log)) && Explained(c, log) && Enabled(c, log, s)
    ensures Explained(Next(c, log, s), log)
  {
    if s.Attempt? && !s.fault && Process(c.tables, log[s.i]).Ok? {
      var e := Validate(log[s.i]).value;
      assert e in ValidEvents(log);
      ApplyStaysFaithful(c.tables, ValidEvents(log), e);
      ApplyRecords(c.tables, ValidEvents(log), e);
    }
  }

  lemma {:induction false} RunIsExplained(log: seq<Raw>, steps: seq<Step>)
    requires Distinct(ValidEvents(log)) && IsRun(INITIAL, log, steps)
    ensures Explained(Run(INITIAL, log, steps), log)
    decreases |steps|
  {
    if steps == [] {
      assert forall kind, p :: !Done(EMPTY, ValidEvents(log), kind, p);
    } else {
      var before := steps[..|steps| - 1];
      RunIsExplained(log, before);
      StepKeepsExplained(Run(INITIAL, log, before), log, steps[|steps| - 1]);
    }
  }

  /** The main result.  Any schedule that ends with every message acked leaves the tables
      that applying the log once, in order, leaves: positions, trades, profits and all. */
  lemma ScheduleDoesNotMatter(log: seq<Raw>, steps: seq<Step>)
    requires Distinct(ValidEvents(log)) && IsRun(INITIAL, log, steps)
    requires forall i :: 0 <= i < |log| ==> i in Run(INITIAL, log, steps).acked
    ensures AllValid(log)
    ensures Replay(EMPTY, Decoded(log)).Ok? ==> Replay(EMPTY, Decoded(log)).value == Run(INITIAL, log, steps).tables
  {
    var c := Run(INITIAL, log, steps);
    AckedOnlyIfRecorded(log, steps);
    forall i | 0 <= i < |log| ensures Validate(log[i]).Ok? {
      assert AckedMeansRecorded(c.tables, log[i]);
    }
    RunIsExplained(log, steps);
    if Replay(EMPTY, Decoded(log)).Ok? {
      AllAckedIsReplay(log, c);
    }
  }

  lemma AllAckedIsReplay(log: seq<Raw>, c: State)
    requires AllValid(log) && Distinct(ValidEvents(log)) && Explained(c, log)
    requires forall i :: 0 <= i < |log| ==> i in c.acked
    requires Replay(EMPTY, Decoded(log)).Ok?
    ensures Replay(EMPTY, Decoded(log)).value == c.tables
  {
    var t, all := Replay(EMPTY, Decoded(log)).value, ValidEvents(log);
    AckedAreRecorded(log, c);
    hide Faithful, Decoded, Replay, Distinct, Recorded, ValidEvents;
    DecodedEvents(log);
    ReplayFromEmpty(Decoded(log), all);
    SameRecords(t, c.tables, all);
    FaithfulIsUnique(t, c.tables, all);
  }

  lemma AckedAreRecorded(log: seq<Raw>, c: State)
    requires Explained(c, log) && forall i :: 0 <= i < |log| && Validate(log[i]).Ok? ==> i in c.acked
    ensures forall e :: e in ValidEvents(log) ==> Recorded(c.tables, e)
  {
    hide Faithful, Recorded;
    forall e | e in ValidEvents(log) ensures Recorded(c.tables, e) {
      var i :| 0 <= i < |log| && Validate(log[i]).Ok? && Validate(log[i]).value == e;
      assert i in c.acked;
    }
  }

  /** Any two runs that end with every message acked leave the same tables, also for a log that could not be
      applied in order. */
  lemma AckedRunsAgree(log: seq<Raw>, a: seq<Step>, b: seq<Step>)
    requires Distinct(ValidEvents(log)) && IsRun(INITIAL, log, a) && IsRun(INITIAL, log, b)
    requires forall i :: 0 <= i < |log| ==> i in Run(INITIAL, log, a).acked && i in Run(INITIAL, log, b).acked
    ensures Run(INITIAL, log, a).tables == Run(INITIAL, log, b).tables
  {
    var all, t, u := ValidEvents(log), Run(INITIAL, log, a).tables, Run(INITIAL, log, b).tables;
    RunIsExplained(log, a);
    RunIsExplained(log, b);
    hide Faithful, Distinct;
    SameRecords(t, u, all);
    FaithfulIsUnique(t, u, all);
  }

  lemma DecodedEvents(log: seq<Raw>)
    requires AllValid(log)
    ensures forall e :: e in Decoded(log) <==> e in ValidEvents(log)
    ensures EventsOf(Decoded(log)) == ValidEvents(log)
  {
  }

  lemma SameRecords(t: Tables, u: Tables, all: set<Event>)
    requires Faithful(t, all) && Faithful(u, all)
    requires forall e :: e in all ==> Recorded(t, e) && Recorded(u, e)
    ensures t.events == u.events
  {
  }

  // ------------------------------------------------- when the log can be applied in order

  /** Every CLOSE comes after the OPEN of its position, both with readable timestamps. */
  ghost predicate OpensComeFirst(log: seq<Event>) {
    forall i :: 0 <= i < |log| && log[i].kind.VirtualClose? ==> OpenedBefore(log, i)
  }

  ghost predicate OpenedBefore(log: seq<Event>, i: int)
    requires 0 <= i < |log|
  {
    log[i].timestamp.At? && exists j :: 0 <= j < i && Opens(log[j], log[i].positionId)
  }

  predicate Opens(e: Event, p: Id) { e.kind.VirtualOpen? && e.positionId == p && e.timestamp.At? }

  /** A distinct log can be applied in order exactly when its OPENs come first. */
  lemma {:induction false} ReplayableIffOpensComeFirst(log: seq<Event>)
    requires Distinct(EventsOf(log))
    ensures Replay(EMPTY, log).Ok? <==> OpensComeFirst(log)
    decreases |log|
  {
    if log != [] {
      var init, e := log[..|log| - 1], log[|log| - 1];
      assert EventsOf(init) <= EventsOf(log) by { assert forall d :: d in init ==> d in log; }
      ReplayableIffOpensComeFirst(init);
      assert log == init + [e];
      ReplayAppend(EMPTY, init, e);
      assert OpensComeFirst(log) <==> OpensComeFirst(init) && (e.kind.VirtualClose? ==> OpenedBefore(log, |init|)) by {
        assert forall i :: 0 <= i < |init| ==> OpenedBefore(init, i) == OpenedBefore(log, i);
      }
      if Replay(EMPTY, init).Ok? {
        LastEventApplies(log, init, e);
      }
    }
  }

  lemma LastEventApplies(log: seq<Event>, init: seq<Event>, e: Event)
    requires log == init + [e] && Distinct(EventsOf(log)) && Replay(EMPTY, init).Ok? && OpensComeFirst(init)
    ensures Apply(Replay(EMPTY, init).value, e).Ok? <==> (e.kind.VirtualClose? ==> OpenedBefore(log, |init|))
  {
    var all, t := EventsOf(log), Replay(EMPTY, init).value;
    assert e == log[|init|] && e in all;
    assert EventsOf(init) <= all by { assert forall d :: d in init ==> d in log; }
    ReplayFromEmpty(init, all);
    AttemptSucceeds(t, all, e);
    if e.kind.VirtualClose? {
      if e.eventId in t.events {
        KnownIsInLog(init, all, e, t);
        RepeatedClose(log, init, e);
      } else {
        hide Replay, Faithful, OpensComeFirst, OpenedBefore, Apply, EventsOf;
        RecordedOpenComesFirst(log, init, e, t);
      }
    }
  }

  /** Replaying from empty tables records exactly the log. */
  lemma ReplayFromEmpty(log: seq<Event>, all: set<Event>)
    requires Distinct(all) && EventsOf(log) <= all && Replay(EMPTY, log).Ok?
    ensures Faithful(Replay(EMPTY, log).value, all)
    ensures forall e :: Recorded(Replay(EMPTY, log).value, e) <==> e in log
  {
    assert forall kind, p :: !Done(EMPTY, all, kind, p);
    ReplayIsFaithful(EMPTY, log, all);
  }

  lemma KnownIsInLog(log: seq<Event>, all: set<Event>, e: Event, t: Tables)
    requires Distinct(all) && e in all && Faithful(t, all) && e.eventId in t.events
    requires forall d :: Recorded(t, d) <==> d in log
    ensures e in log
  {
    assert Recorded(t, t.events[e.eventId]);
  }

  lemma RepeatedClose(log: seq<Event>, init: seq<Event>, e: Event)
    requires log == init + [e] && e in init && e.kind.VirtualClose? && OpensComeFirst(init)
    ensures OpenedBefore(log, |init|)
  {
    var k :| 0 <= k < |init| && init[k] == e;
    assert OpenedBefore(init, k);
    var j :| 0 <= j < k && Opens(init[j], e.positionId);
    assert Opens(log[j], e.positionId);
  }

  lemma RecordedOpenComesFirst(log: seq<Event>, init: seq<Event>, e: Event, t: Tables)
    requires log == init + [e] && Distinct(EventsOf(log)) && e.kind.VirtualClose?
    requires forall d :: Recorded(t, d) <==> d in init
    ensures OpenedBefore(log, |init|) <==>
      e.timestamp.At? && Done(t, EventsOf(log), VirtualOpen, e.positionId) &&
      EventFor(EventsOf(log), VirtualOpen, e.positionId).value.timestamp.At?
  {
    var all := EventsOf(log);
    if Done(t, all, VirtualOpen, e.positionId) {
      var o := EventFor(all, VirtualOpen, e.positionId).value;
      var j :| 0 <= j < |init| && init[j] == o;
      assert o.timestamp.At? ==> Opens(log[j], e.positionId);
    }
    if OpenedBefore(log, |init|) {
      var j :| 0 <= j < |init| && Opens(log[j], e.positionId);
      assert log[j] in all && init[j] in init;
      EventForIs(all, log[j]);
    }
  }

  // ------------------------------------------------------------------ a message that never works

  /** One message that fails every check keeps recovery going for ever: from then on no new
      message is read, whatever the schedule. */
  lemma {:induction false} PoisonedRecoveryReadsNothingNew(c: State, log: seq<Raw>, i: nat, steps: seq<Step>)
    requires c.recover && i in c.pending && i < |log| && Validate(log[i]).Err?
    requires IsRun(c, log, steps)
    ensures var last := Run(c, log, steps);
      last.recover && i in last.pending && last.delivered == c.delivered
    decreases |steps|
  {
    if steps != [] {
      PoisonedRecoveryReadsNothingNew(c, log, i, steps[..|steps| - 1]);
    }
  }

  // --------------------------------------------------------------------------- the loop

  /** The first `count` pending rows below n, in stream order: what a recovery read returns. */
  function FirstPending(pending: set<nat>, n: nat, count: nat): seq<nat> {
    if n == 0 then []
    else
      var before := FirstPending(pending, n - 1, count);
      if n - 1 in pending && |before| < count then before + [n - 1] else before
  }

  /** One try in fair weather. */
  function TryOne(c: State, log: seq<Raw>, i: nat): State {
    if Enabled(c, log, Attempt(i, false, true)) then Next(c, log, Attempt(i, false, true)) else c
  }

  function TryAll(c: State, log: seq<Raw>, rows: seq<nat>): State {
    if rows == [] then c else TryOne(TryAll(c, log, rows[..|rows| - 1]), log, rows[|rows| - 1])
  }

  /** What the environment does to one row: the statement at which the database raises, if
      any, and whether the ack gets through. */
  datatype Weather = Weather(fault: Fault, ack: bool)

  /** None of these rows can be applied to the tables. */
  predicate AllFail(t: Tables, log: seq<Raw>, rows: seq<nat>) {
    forall k :: 0 <= k < |rows| && rows[k] < |log| ==> Process(t, log[rows[k]]).Err?
  }

  /** The steps lead from c to d. */
  predicate Leads(c: State, log: seq<Raw>, steps: seq<Step>, d: State) {
    IsRun(c, log, steps) && Run(c, log, steps) == d
  }

  lemma LeadsOn(c: State, log: seq<Raw>, steps: seq<Step>, d: State, s: Step)
    requires Leads(c, log, steps, d) && Enabled(d, log, s)
    ensures Leads(c, log, steps + [s], Next(d, log, s))
  {
    RunAndOne(c, log, steps, s);
  }

  lemma {:induction false} LeadsConcat(c: State, log: seq<Raw>, a: seq<Step>, d: State, b: seq<Step>, e: State)
    requires Leads(c, log, a, d) && Leads(d, log, b, e)
    ensures Leads(c, log, a + b, e)
    decreases |b|
  {
    if b == [] {
      assert a + b == a;
    } else {
      var init, s := b[..|b| - 1], b[|b| - 1];
      var f := Run(d, log, init);
      LeadsConcat(c, log, a, d, init, f);
      LeadsOn(c, log, a + init, f, s);
      assert a + b == a + init + [s];
    }
  }

  /** Rows still to be handled, from row k on. */
  ghost predicate Waiting(rows: seq<nat>, k: int, pending: set<nat>) {
    forall j :: 0 <= k <= j < |rows| ==> rows[j] in pending
  }

  predicate Rising(rows: seq<nat>) { forall i, j :: 0 <= i < j < |rows| ==> rows[i] < rows[j] }

  lemma NextWaits(rows: seq<nat>, k: nat, before: set<nat>, after: set<nat>)
    requires k < |rows| && Rising(rows) && Waiting(rows, k, before) && after >= before - {rows[k]}
    ensures Waiting(rows, k + 1, after)
  {
  }

  /** What a recovery read returns. */
  method PendingRows(pending: set<nat>, n: nat, count: nat) returns (rows: seq<nat>)
    requires forall i :: i in pending ==> i < n
    ensures rows == FirstPending(pending, n, count)
    ensures Rising(rows) && Waiting(rows, 0, pending)
    ensures count > 0 && rows == [] ==> pending == {}
  {
    rows := [];
    for i := 0 to n
      invariant rows == FirstPending(pending, i, count)
      invariant Waiting(rows, 0, pending) && Rising(rows) && forall k :: 0 <= k < |rows| ==> rows[k] < i
      invariant rows == [] && count > 0 ==> forall j: nat :: j < i ==> j !in pending
    {
      if i in pending && |rows| < count {
        rows := rows + [i];
      }
    }
  }

  class Consumer {
    const db: Database
    const log: seq<Raw>
    var delivered: nat
    var pending: set<nat>
    var acked: set<nat>
    var recoverPending: bool

    function Now(): State
      reads this, db
    {
      State(db.Contents(), delivered, pending, acked, recoverPending)
    }

    /** Only delivered rows are pending. */
    predicate Below()
      reads this
    {
      forall i :: i in pending ==> i < delivered
    }

    constructor (log: seq<Raw>)
      ensures fresh(db) && this.log == log && Now() == INITIAL
    {
      this.log := log;
      db := new Database();
      delivered, pending, acked, recoverPending := 0, {}, {}, true;
    }

    /** Process and ack one row.  False when the connection broke. */
    method HandleRow(i: nat, weather: Weather) returns (connected: bool, ghost step: Step)
      requires i < |log| && i in pending
      modifies this, db
      ensures Enabled(old(Now()), log, step) && Now() == Next(old(Now()), log, step)
      ensures pending == old(pending) || pending == old(pending) - {i}
      ensures delivered == old(delivered)
      ensures connected ==> recoverPending == old(recoverPending)
      ensures weather == Weather(NoFault, true) ==> connected && Now() == TryOne(old(Now()), log, i)
      ensures Process(old(db.Contents()), log[i]).Err? ==> connected && Now() == old(Now())
    {
      var checked := Validate(log[i]);
      if checked.Err? {
        return true, Attempt(i, false, true);
      }
      var result := db.ApplyVirtualTradeEvent(checked.value, weather.fault);
      if result.Err? {
        return true, Attempt(i, true, true);
      }
      step := Attempt(i, false, weather.ack);
      if !weather.ack {
        recoverPending := true;
        return false, step;
      }
      pending, acked := pending - {i}, acked + {i};
      connected := true;
    }

    /** The next new messages, at most `count` of them. */
    function NextRows(start: nat, count: nat): (rows: seq<nat>)
      requires start <= |log|
      ensures |rows| == if count < |log| - start then count else |log| - start
      ensures forall k :: 0 <= k < |rows| ==> rows[k] == start + k
    {
      var n := if count < |log| - start then count else |log| - start;
      seq(n, k requires 0 <= k < n => start + k)
    }

    /** The rows of one read: the first `count` pending ones, or the next new ones. */
    method ReadRows(count: nat) returns (rows: seq<nat>, ghost steps: seq<Step>)
      requires delivered <= |log| && Below()
      modifies this`pending, this`delivered
      ensures Leads(old(Now()), log, steps, Now())
      ensures delivered <= |log| && Below()
      ensures Rising(rows) && Waiting(rows, 0, pending)
      ensures recoverPending ==> rows == FirstPending(old(pending), old(delivered), count) && Now() == old(Now())
      ensures recoverPending && count > 0 && rows == [] ==> pending == {}
      ensures !recoverPending ==>
        rows == NextRows(old(delivered), count) && Now() == Next(old(Now()), log, Read(|rows|))
    {
      if recoverPending {
        rows := PendingRows(pending, delivered, count);
        steps := [];
      } else {
        rows := NextRows(delivered, count);
        var n := |rows|;
        steps := [Read(n)];
        RunOfOne(Now(), log, Read(n));
        pending := pending + Rows(delivered, n);
        delivered := delivered + n;
      }
    }

    /** Row by row until the connection breaks. */
    method HandleRows(rows: seq<nat>, weather: seq<Weather>) returns (ghost steps: seq<Step>)
      requires delivered <= |log| && Below() && Rising(rows) && Waiting(rows, 0, pending)
      modifies this, db
      ensures Leads(old(Now()), log, steps, Now()) && Below() && delivered == old(delivered)
      ensures weather == [] ==> Now() == TryAll(old(Now()), log, rows)
      ensures AllFail(old(Now().tables), log, rows) ==> Now() == old(Now())
    {
      steps := [];
      var k, connected := 0, true;
      while k < |rows| && connected
        invariant k <= |rows| && delivered == old(delivered)
        invariant Leads(old(Now()), log, steps, Now())
        invariant Below()
        invariant Waiting(rows, k, pending)
        invariant weather == [] ==> connected && Now() == TryAll(old(Now()), log, rows[..k])
        invariant AllFail(old(Now().tables), log, rows) ==> connected && Now() == old(Now())
        decreases |rows| - k, connected
      {
        hide Process, TryOne, Enabled, Next, Rising, Leads;
        assert rows[..k + 1][..k] == rows[..k];
        ghost var before, step := Now(), Reconnect;
        connected, step := HandleRow(rows[k], if k < |weather| then weather[k] else Weather(NoFault, true));
        LeadsOn(old(Now()), log, steps, before, step);
        NextWaits(rows, k, before.pending, pending);
        steps := steps + [step];
        k := k + 1;
      }
      assert rows[..|rows|] == rows;
    }

    /** One turn of the inner loop of the program.  Whatever the weather, it is a run of the machine above.  In
        fair weather a turn of recovery tries the first `count` pending rows, in order; if all of those fail,
        it leaves everything as it was, in any weather. */
    method Poll(count: nat, weather: seq<Weather>) returns (ghost steps: seq<Step>)
      requires count > 0 && delivered <= |log| && Below()
      modifies this, db
      ensures Leads(old(Now()), log, steps, Now())
      ensures delivered <= |log| && Below()
      ensures weather == [] && old(recoverPending) && old(pending) != {} ==>
        Now() == TryAll(old(Now()), log, FirstPending(old(pending), old(delivered), count))
      ensures old(recoverPending) && old(pending) != {} ==>
        AllFail(old(Now().tables), log, FirstPending(old(pending), old(delivered), count)) ==> Now() == old(Now())
      ensures old(recoverPending) && old(pending) == {} ==> Now() == old(Now()).(recover := false)
      ensures weather == [] && !old(recoverPending) ==>
        var rows := NextRows(old(delivered), count);
        Now() == TryAll(Next(old(Now()), log, Read(|rows|)), log, rows)
    {
      var rows;
      rows, steps := ReadRows(count);
      assert rows != [] ==> rows[0] in pending;
      ghost var more;
      if recoverPending && rows == [] {
        more := [Drained];
        RunOfOne(Now(), log, Drained);
        recoverPending := false;
      } else {
        hide Leads, TryAll, FirstPending, AllFail;
        ghost var read := Now();
        more := HandleRows(rows, weather);
        LeadsConcat(old(Now()), log, steps, read, more, Now());
        steps := steps + more;
        return;
      }
      steps := steps + more;
    }
  }
}
