/** The worker's signal consumer: deduplication, one transaction per message, the error
    branch inside it, acks and counters, over every run of deliveries and redeliveries. */
module SignalConsumer {
  import opened Wrappers
  import opened WorkerLedger
  import opened WorkerConservation

  datatype SignalRow = SignalRow(signalId: Key, processed: bool, failed: bool, receivedAt: int)

  datatype Body =
    | OpenBody(open: OpenSignal)
    | ModifyBody(change: ModifySignal)
    | CloseBody(close: CloseSignal)
    | RegisterBody
    | Malformed

  /** A stream message; one without a signal id counts as "unknown". */
  datatype Message = Message(signalId: Key, body: Body)

  /** What the environment does to one delivery: resolved fill, fresh ids, and which database
      statements or acks fail. */
  datatype Env = Env(
    fill: Option<real>, newId: Key, legId: Key, now: int,
    onBegin: bool, onLog: bool, onWrite: WriteFault, onMark: bool, onErrorMark: bool, onCommit: bool, onAck: bool)

  /** The database as its one connection sees it.  A close of the price check that fails leaves the connection's
      implicit transaction open; then `saved` holds the committed tables.  No signal row is ever written in one. */
  datatype Db = Db(tables: Tables, signals: seq<SignalRow>, saved: Option<Tables>)

  function Stored(d: Db): Tables { if d.saved.Some? then d.saved.value else d.tables }

  function RolledBack(d: Db): Db { Db(Stored(d), d.signals, None) }

  datatype Outcome = Duplicate | ParseLogged | Committed | Refused | LeftPending

  const UNKNOWN: Key := "unknown"

  predicate Processed(rows: seq<SignalRow>, id: Key) {
    rows != [] && ((rows[|rows| - 1].signalId == id && rows[|rows| - 1].processed) || Processed(rows[..|rows| - 1], id))
  }

  /** `mark_signal_processed` updates every row of the id. */
  function Marked(rows: seq<SignalRow>, id: Key, failed: bool): seq<SignalRow> {
    if rows == [] then []
    else
      var row := rows[|rows| - 1];
      Marked(rows[..|rows| - 1], id, failed) +
      [if row.signalId == id then row.(processed := true, failed := failed) else row]
  }

  function OpOf(m: Message, env: Env): Option<Op> {
    match m.body
    case OpenBody(s) => Some(OpOpen(s, env.fill, env.newId))
    case ModifyBody(s) => Some(OpModify(s))
    case CloseBody(s) => Some(OpClose(s, env.fill, env.legId))
    case _ => None
  }

  /** The operation as far as its writes got, and whether it finished: an open or a modify is
      one write; a close is two, and the second can fail with the first one done. */
  function Written(t: Tables, op: Op, fault: WriteFault, settings: Settings): (Tables, bool) {
    match Effect(t, op, settings)
    case Err(_) => (t, false)
    case Ok(u) =>
      match op
      case OpOpen(_, _, _) => if fault.FirstWrite? then (t, false) else (u, true)
      case OpModify(s) => if fault.FirstWrite? && s.Writes() then (t, false) else (u, true)
      case _ =>
        if fault.NoFault? || u == t then (u, true)
        else if fault.SecondWrite? then (Tables(t.positions, u.trades), false)
        else (t, false)
  }

  function OperationResult(t: Tables, m: Message, env: Env, settings: Settings): (Tables, bool) {
    match OpOf(m, env)
    case Some(op) => Written(t, op, env.onWrite, settings)
    case None => (t, true)
  }

  /** `BEGIN IMMEDIATE` is refused while a transaction is open. */
  predicate Begins(d: Db, env: Env) { !env.onBegin && d.saved.None? }

  /** One delivery up to its ack.  The duplicate check only reads; a transaction that fails rolls the connection
      back, and with it whatever was open before. */
  function Consume(d: Db, m: Message, env: Env, settings: Settings): (Db, Outcome) {
    if Known(d, m) then (d, Duplicate)
    else if !Begins(d, env) || env.onLog || env.onCommit then (RolledBack(d), LeftPending)
    else
      var logged := d.signals + [SignalRow(m.signalId, false, false, env.now)];
      if m.body.Malformed? then
        if env.onErrorMark then (d, LeftPending)
        else (Db(d.tables, Marked(logged, m.signalId, true), None), ParseLogged)
      else
        var (t, done) := OperationResult(d.tables, m, env, settings);
        if done && !env.onMark then (Db(t, Marked(logged, m.signalId, false), None), Committed)
        else if env.onErrorMark then (d, LeftPending)
        else (Db(t, Marked(logged, m.signalId, true), None), Refused)
  }

  /** The close finds no position, or no quantity to close, and executes no statement. */
  predicate FindsNothing(t: Tables, c: CloseRequest) {
    !Has(t.positions, c.positionId) || ClosedQty(t.positions[RowOf(t.positions, c.positionId)], c.qty) <= 0.0
  }

  /** One close of the price check.  Its first write opens a transaction, unless one is open; the commit after its
      last write ends it. */
  function AutoClosed(d: Db, c: CloseRequest, fault: WriteFault, onCommit: bool, settings: Settings): Db {
    if FindsNothing(d.tables, c) then d
    else
      var (t, done) := Written(d.tables, OpAutoClose(c), fault, settings);
      Db(t, d.signals, if done && !onCommit then None else Some(Stored(d)))
  }

  // ----------------------------------------------------------------------------- the worker

  class Counters {
    var received: nat
    var duplicate: nat
    var parseError: nat
    var processError: nat
    var committed: nat
    var leftPending: nat
    var acked: nat

    constructor ()
      ensures received == duplicate == parseError == processError == committed == leftPending == acked == 0
    {
      received, duplicate, parseError, processError, committed, leftPending, acked := 0, 0, 0, 0, 0, 0, 0;
    }

    function Accounted(): nat
      reads this
    {
      duplicate + parseError + processError + committed + leftPending
    }
  }

  class Worker {
    const db: Database
    const settings: Settings
    const counters: Counters
    var signals: seq<SignalRow>
    var saved: Option<Tables>

    function Now(): Db
      reads this, db
    {
      Db(db.Contents(), signals, saved)
    }

    constructor (settings: Settings)
      ensures fresh(db) && fresh(counters) && this.settings == settings
      ensures Now() == FRESH && counters.received == 0 && counters.Accounted() == 0
    {
      this.settings, signals, saved := settings, [], None;
      db := new Database();
      counters := new Counters();
    }

    method RollBack(before: Db)
      modifies this, db
      ensures Now() == RolledBack(before)
    {
      db.positions, db.trades := Stored(before).positions, Stored(before).trades;
      signals, saved := before.signals, None;
    }

    method Operate(m: Message, env: Env) returns (done: bool)
      modifies db
      ensures (db.Contents(), done) == OperationResult(old(db.Contents()), m, env, settings)
    {
      done := true;
      match m.body {
        case OpenBody(s) =>
          var r := db.ProcessOpen(s, env.fill, env.newId, settings, env.onWrite);
          done := r.Ok?;
        case ModifyBody(s) =>
          var r := db.ProcessModify(s, env.onWrite);
          done := r.Ok?;
        case CloseBody(s) =>
          var r := db.ProcessClose(s, env.fill, env.legId, settings, env.onWrite);
          done := r.Ok?;
        case _ =>
      }
    }

    /** The transaction of a message that parses: its inner handler marks a failed operation as processed and
        commits. */
    method Transact(m: Message, env: Env) returns (outcome: Outcome)
      requires !Known(Now(), m) && !m.body.Malformed?
      modifies this, db, counters
      ensures (Now(), outcome) == Consume(old(Now()), m, env, settings)
      ensures counters.received == old(counters.received) && counters.leftPending == old(counters.leftPending)
      ensures counters.acked == old(counters.acked) && counters.duplicate == old(counters.duplicate)
      ensures counters.parseError == old(counters.parseError)
      ensures var attempted := Begins(old(Now()), env) && !env.onLog;
        var fails := GoesToHandler(old(db.Contents()), m, env, settings);
        && counters.committed == old(counters.committed) + (if attempted && !fails then 1 else 0)
        && counters.processError == old(counters.processError) + if attempted && fails then 1 else 0
    {
      OperationDone(db.Contents(), m, env, settings);
      hide OperationResult, Known, Marked, Fails;
      var before := Now();
      if env.onBegin || saved.Some? || env.onLog {
        RollBack(before);
        return LeftPending;
      }
      signals := signals + [SignalRow(m.signalId, false, false, env.now)];
      var done := Operate(m, env);
      if done && !env.onMark {
        signals := Marked(signals, m.signalId, false);
        counters.committed := counters.committed + 1;
        outcome := Committed;
      } else {
        counters.processError := counters.processError + 1;
        if env.onErrorMark {
          RollBack(before);
          return LeftPending;
        }
        signals := Marked(signals, m.signalId, true);
        outcome := Refused;
      }
      if env.onCommit {
        RollBack(before);
        outcome := LeftPending;
      }
    }

    /** One message: the duplicate check, the parse branch, and the transaction. */
    method ProcessSignalMessage(m: Message, env: Env) returns (outcome: Outcome)
      modifies this, db, counters
      ensures (Now(), outcome) == Consume(old(Now()), m, env, settings)
      ensures counters.received == old(counters.received) + 1
      ensures counters.leftPending == old(counters.leftPending) && counters.acked == old(counters.acked)
      ensures counters.Accounted() ==
        old(counters.Accounted()) + if CountedBeforeAck(old(Now()), m, env, settings) then 1 else 0
      ensures counters.duplicate == old(counters.duplicate) + if Known(old(Now()), m) then 1 else 0
      ensures counters.parseError ==
        old(counters.parseError) + if !Known(old(Now()), m) && m.body.Malformed? then 1 else 0
      ensures var attempted := !Known(old(Now()), m) && !m.body.Malformed? && Begins(old(Now()), env) && !env.onLog;
        var fails := GoesToHandler(old(db.Contents()), m, env, settings);
        && counters.committed == old(counters.committed) + (if attempted && !fails then 1 else 0)
        && counters.processError == old(counters.processError) + if attempted && fails then 1 else 0
    {
      hide OperationResult, Processed, Marked;
      counters.received := counters.received + 1;
      if m.signalId != UNKNOWN && Processed(signals, m.signalId) {
        counters.duplicate := counters.duplicate + 1;
        return Duplicate;
      }
      if !m.body.Malformed? {
        outcome := Transact(m, env);
        return;
      }
      counters.parseError := counters.parseError + 1;
      if env.onBegin || saved.Some? || env.onLog || env.onErrorMark || env.onCommit {
        RollBack(Now());
        return LeftPending;
      }
      signals := Marked(signals + [SignalRow(m.signalId, false, false, env.now)], m.signalId, true);
      return ParseLogged;
    }

    /** Process and ack, never raising: a message that could not be committed or acked is
        counted as left pending. */
    method HandleSignalMessage(m: Message, env: Env) returns (outcome: Outcome)
      modifies this, db, counters
      ensures (Now(), outcome) == Consume(old(Now()), m, env, settings)
      ensures counters.received == old(counters.received) + 1
      ensures counters.Accounted() == old(counters.Accounted()) + CountsOf(old(Now()), m, env, settings)
      ensures counters.duplicate == old(counters.duplicate) + if Known(old(Now()), m) then 1 else 0
      ensures counters.parseError ==
        old(counters.parseError) + if !Known(old(Now()), m) && m.body.Malformed? then 1 else 0
      ensures var attempted := !Known(old(Now()), m) && !m.body.Malformed? && Begins(old(Now()), env) && !env.onLog;
        var fails := GoesToHandler(old(db.Contents()), m, env, settings);
        && counters.committed == old(counters.committed) + (if attempted && !fails then 1 else 0)
        && counters.processError == old(counters.processError) + if attempted && fails then 1 else 0
      ensures var left := outcome.LeftPending? || env.onAck;
        && counters.leftPending == old(counters.leftPending) + (if left then 1 else 0)
        && counters.acked == old(counters.acked) + if left then 0 else 1
    {
      outcome := ProcessSignalMessage(m, env);
      if outcome.LeftPending? || env.onAck {
        counters.leftPending := counters.leftPending + 1;
      } else {
        counters.acked := counters.acked + 1;
      }
    }

    /** One close of the price check, which runs outside any transaction of the consumer. */
    method CloseHit(c: CloseRequest, fault: WriteFault, onCommit: bool)
      modifies this, db
      ensures Now() == AutoClosed(old(Now()), c, fault, onCommit, settings)
    {
      if FindsNothing(db.Contents(), c) {
        return;
      }
      if saved.None? {
        saved := Some(db.Contents());
      }
      var r := db.ClosePosition(c, fault);
      if r.Ok? && !onCommit {
        saved := None;
      }
    }
  }

  // ------------------------------------------------------------------- counting deliveries

  predicate Known(d: Db, m: Message) { m.signalId != UNKNOWN && Processed(d.signals, m.signalId) }

  /** An outcome counter goes up while the message is processed; only a transaction that
      fails to begin or to log escapes all of them. */
  predicate CountedBeforeAck(d: Db, m: Message, env: Env, settings: Settings) {
    Known(d, m) || m.body.Malformed? || (Begins(d, env) && !env.onLog)
  }

  predicate CountedLeft(d: Db, m: Message, env: Env, settings: Settings) {
    Consume(d, m, env, settings).1.LeftPending? || env.onAck
  }

  function CountsOf(d: Db, m: Message, env: Env, settings: Settings): nat {
    (if CountedBeforeAck(d, m, env, settings) then 1 else 0) + (if CountedLeft(d, m, env, settings) then 1 else 0)
  }

  /** The checks refuse the operation, or a write that it makes fails. */
  predicate Fails(t: Tables, op: Op, fault: WriteFault, settings: Settings) {
    || Effect(t, op, settings).Err?
    || match op
       case OpOpen(_, _, _) => fault.FirstWrite?
       case OpModify(s) => fault.FirstWrite? && s.Writes()
       case _ => !fault.NoFault? && Effect(t, op, settings).value != t
  }

  /** The inner handler is entered: the operation fails, or its mark does. */
  predicate GoesToHandler(t: Tables, m: Message, env: Env, settings: Settings) {
    env.onMark || (OpOf(m, env).Some? && Fails(t, OpOf(m, env).value, env.onWrite, settings))
  }

  /** What makes a delivery count by its outcome and again as left pending, told from the message, the
      stored ids and tables and the statement that fails. */
  predicate DoubleCounts(d: Db, m: Message, env: Env, settings: Settings) {
    if Known(d, m) then env.onAck
    else if m.body.Malformed? then !Begins(d, env) || env.onLog || env.onErrorMark || env.onCommit || env.onAck
    else Begins(d, env) && !env.onLog &&
         (env.onCommit || env.onAck || (env.onErrorMark && GoesToHandler(d.tables, m, env, settings)))
  }

  // ------------------------------------------------------------------------- runs of steps

  /** A delivery, first or repeated; one close of a price-check pass; a pruning of rows older than a time, which
      commits; or a rollback of what is open, by a restart or by another transaction that cannot begin. */
  datatype Step =
    | Deliver(m: Message, env: Env)
    | AutoClose(request: CloseRequest, fault: WriteFault, onCommit: bool)
    | Prune(before: int)
    | Rollback

  function Pruned(rows: seq<SignalRow>, before: int): seq<SignalRow> {
    if rows == [] then []
    else
      var kept := Pruned(rows[..|rows| - 1], before);
      if rows[|rows| - 1].receivedAt < before then kept else kept + [rows[|rows| - 1]]
  }

  function Next(d: Db, s: Step, settings: Settings): Db {
    match s
    case Deliver(m, env) => Consume(d, m, env, settings).0
    case AutoClose(c, fault, onCommit) => AutoClosed(d, c, fault, onCommit, settings)
    case Prune(before) => Db(d.tables, Pruned(d.signals, before), None)
    case Rollback => RolledBack(d)
  }

  function Run(d: Db, steps: seq<Step>, settings: Settings): Db {
    if steps == [] then d else Next(Run(d, steps[..|steps| - 1], settings), steps[|steps| - 1], settings)
  }

  const FRESH := Db(EMPTY, [], None)

  /** The step commits a transaction for this id. */
  predicate Takes(d: Db, s: Step, id: Key, settings: Settings) {
    s.Deliver? && s.m.signalId == id && Consume(d, s.m, s.env, settings).1 in {ParseLogged, Committed, Refused}
  }

  /** The step forgets that this id was processed. */
  predicate Forgets(d: Db, s: Step, id: Key) {
    s.Prune? && Processed(d.signals, id) && !Processed(Pruned(d.signals, s.before), id)
  }

  function TimesTaken(steps: seq<Step>, id: Key, settings: Settings): nat {
    if steps == [] then 0
    else
      var earlier := TimesTaken(steps[..|steps| - 1], id, settings);
      if Takes(Run(FRESH, steps[..|steps| - 1], settings), steps[|steps| - 1], id, settings) then earlier + 1
      else earlier
  }

  function TimesForgotten(steps: seq<Step>, id: Key, settings: Settings): nat {
    if steps == [] then 0
    else
      var earlier := TimesForgotten(steps[..|steps| - 1], id, settings);
      if Forgets(Run(FRESH, steps[..|steps| - 1], settings), steps[|steps| - 1], id) then earlier + 1 else earlier
  }

  lemma {:induction false} MarkedIsProcessed(rows: seq<SignalRow>, id: Key, failed: bool, other: Key)
    ensures Processed(Marked(rows, id, failed), other) <==>
      Processed(rows, other) || (other == id && exists i :: 0 <= i < |rows| && rows[i].signalId == id)
    decreases |rows|
  {
    if rows != [] {
      var init, row := rows[..|rows| - 1], rows[|rows| - 1];
      MarkedIsProcessed(init, id, failed, other);
      var marked := Marked(rows, id, failed);
      assert marked[..|marked| - 1] == Marked(init, id, failed);
      if other == id && exists i :: 0 <= i < |rows| && rows[i].signalId == id {
        var i :| 0 <= i < |rows| && rows[i].signalId == id;
        assert i < |init| ==> init[i].signalId == id;
      }
    }
  }

  lemma LoggedThenMarked(rows: seq<SignalRow>, id: Key, failed: bool, now: int, other: Key)
    ensures Processed(Marked(rows + [SignalRow(id, false, false, now)], id, failed), other) <==>
      Processed(rows, other) || other == id
  {
    var logged := rows + [SignalRow(id, false, false, now)];
    assert logged[..|logged| - 1] == rows && logged[|rows|].signalId == id;
    MarkedIsProcessed(logged, id, failed, other);
  }

  lemma {:induction false} PruningOnlyForgets(rows: seq<SignalRow>, before: int, id: Key)
    ensures Processed(Pruned(rows, before), id) ==> Processed(rows, id)
    decreases |rows|
  {
    if rows != [] {
      PruningOnlyForgets(rows[..|rows| - 1], before, id);
      var kept := Pruned(rows[..|rows| - 1], before);
      assert (kept + [rows[|rows| - 1]])[..|kept|] == kept;
    }
  }

  /** What one step does to the memory of an id: a delivery of a known id is skipped, a
      committed one is remembered, anything else changes nothing. */
  lemma StepRemembers(d: Db, s: Step, id: Key, settings: Settings)
    requires id != UNKNOWN
    ensures Takes(d, s, id, settings) ==> !Processed(d.signals, id)
    ensures Processed(Next(d, s, settings).signals, id) <==>
      (Processed(d.signals, id) || Takes(d, s, id, settings)) && !Forgets(d, s, id)
    ensures !Takes(d, s, id, settings) || !Forgets(d, s, id)
  {
    match s
    case Prune(before) => PruningOnlyForgets(d.signals, before, id);
    case AutoClose(_, _, _) =>
    case Rollback =>
    case Deliver(m, env) =>
      hide OperationResult;
      LoggedThenMarked(d.signals, m.signalId, true, env.now, id);
      LoggedThenMarked(d.signals, m.signalId, false, env.now, id);
  }

  /** Over every run: a known signal id is taken once, plus once more for every time its row
      was pruned away. */
  lemma {:induction false} TakenOncePerMemory(steps: seq<Step>, id: Key, settings: Settings)
    requires id != UNKNOWN
    ensures TimesTaken(steps, id, settings) ==
      TimesForgotten(steps, id, settings) + if Processed(Run(FRESH, steps, settings).signals, id) then 1 else 0
    decreases |steps|
  {
    if steps != [] {
      var before := steps[..|steps| - 1];
      hide Takes, Forgets, Next, Processed;
      TakenOncePerMemory(before, id, settings);
      StepRemembers(Run(FRESH, before, settings), steps[|steps| - 1], id, settings);
    }
  }

  predicate NoPruning(steps: seq<Step>) { forall i :: 0 <= i < |steps| ==> !steps[i].Prune? }

  lemma {:induction false} NothingForgotten(steps: seq<Step>, id: Key, settings: Settings)
    requires NoPruning(steps)
    ensures TimesForgotten(steps, id, settings) == 0
    decreases |steps|
  {
    if steps != [] {
      assert forall i :: 0 <= i < |steps| - 1 ==> steps[..|steps| - 1][i] == steps[i];
      NothingForgotten(steps[..|steps| - 1], id, settings);
    }
  }

  /** Without pruning, at most once, however often it is delivered and whatever fails. */
  lemma AtMostOnce(steps: seq<Step>, id: Key, settings: Settings)
    requires id != UNKNOWN && NoPruning(steps)
    ensures TimesTaken(steps, id, settings) <= 1
  {
    TakenOncePerMemory(steps, id, settings);
    NothingForgotten(steps, id, settings);
  }

  // ------------------------------------------------------------------- effect and mark together

  /** A delivery that does not commit changes nothing that is stored; one that does leaves its id marked and
      nothing open. */
  lemma EffectComesWithMark(d: Db, m: Message, env: Env, settings: Settings)
    ensures var (e, outcome) := Consume(d, m, env, settings);
      && (outcome.Duplicate? ==> e == d)
      && (outcome.LeftPending? ==> e == RolledBack(d))
      && (outcome in {ParseLogged, Committed, Refused} ==> Processed(e.signals, m.signalId) && e.saved.None?)
      && (Stored(e) != Stored(d) ==> Processed(e.signals, m.signalId))
  {
    hide OperationResult, Processed, Marked;
    LoggedThenMarked(d.signals, m.signalId, true, env.now, m.signalId);
    LoggedThenMarked(d.signals, m.signalId, false, env.now, m.signalId);
  }

  /** When nothing else fails, a new signal is left pending exactly when a price-check close has left a
      transaction open; that close is rolled back. */
  lemma LeftPendingIffOpen(d: Db, m: Message, env: Env, settings: Settings)
    requires !Known(d, m) && !env.onBegin && !env.onLog && !env.onErrorMark && !env.onCommit
    ensures Consume(d, m, env, settings).1.LeftPending? <==> d.saved.Some?
    ensures d.saved.Some? ==> Consume(d, m, env, settings).0 == Db(d.saved.value, d.signals, None)
  {
  }

  predicate ClosesBySome(op: Op) { op.OpClose? || op.OpAutoClose? }

  /** The close is admitted, has quantity, and the database refuses its second write. */
  predicate Tears(t: Tables, op: Op, fault: WriteFault, settings: Settings) {
    && ClosesBySome(op) && fault.SecondWrite?
    && Effect(t, op, settings).Ok? && Effect(t, op, settings).value != t
  }

  /** The committed effect is the whole operation or none of it, exactly when no close was torn
      between its two writes: the inner handler commits a torn one. */
  lemma WholeOrNothingUnlessTorn(d: Db, m: Message, env: Env, settings: Settings)
    requires Consume(d, m, env, settings).1 in {Committed, Refused}
    ensures
      var t := Consume(d, m, env, settings).0.tables;
      var op := OpOf(m, env);
      (t == d.tables || (op.Some? && Effect(d.tables, op.value, settings) == Ok(t))) <==>
      !(op.Some? && Tears(d.tables, op.value, env.onWrite, settings))
  {
    var op := OpOf(m, env);
    if op.Some? {
      WrittenIsWholeUnlessTorn(d.tables, op.value, env.onWrite, settings);
    }
  }

  /** The same of the writes themselves; a torn close has booked its leg and left the position. */
  lemma WrittenIsWholeUnlessTorn(t: Tables, op: Op, fault: WriteFault, settings: Settings)
    ensures var (u, done) := Written(t, op, fault, settings);
      && (u == t || Effect(t, op, settings) == Ok(u) <==> !Tears(t, op, fault, settings))
      && (Tears(t, op, fault, settings) ==> !done && u == Tables(t.positions, Effect(t, op, settings).value.trades))
      && (done <==> !Fails(t, op, fault, settings))
  {
    if Tears(t, op, fault, settings) {
      CloseWritesBoth(t, RequestFor(t, op, settings).value);
    }
  }

  lemma CloseWritesBoth(t: Tables, c: CloseRequest)
    requires Close(t, c).Ok? && Close(t, c).value != t
    ensures Close(t, c).value.positions != t.positions && |Close(t, c).value.trades| == |t.trades| + 1
  {
  }

  // ----------------------------------------------------------------------------- counters

  function ReceivedOver(steps: seq<Step>): nat {
    if steps == [] then 0 else ReceivedOver(steps[..|steps| - 1]) + if steps[|steps| - 1].Deliver? then 1 else 0
  }

  function AccountedOver(steps: seq<Step>, settings: Settings): nat {
    if steps == [] then 0
    else
      var earlier, last := AccountedOver(steps[..|steps| - 1], settings), steps[|steps| - 1];
      if last.Deliver? then earlier + CountsOf(Run(FRESH, steps[..|steps| - 1], settings), last.m, last.env, settings)
      else earlier
  }

  predicate NoneDoubleCounts(steps: seq<Step>, settings: Settings) {
    steps != [] ==>
      var before, last := steps[..|steps| - 1], steps[|steps| - 1];
      NoneDoubleCounts(before, settings) &&
      !(last.Deliver? && DoubleCounts(Run(FRESH, before, settings), last.m, last.env, settings))
  }

  lemma OperationDone(t: Tables, m: Message, env: Env, settings: Settings)
    ensures OperationResult(t, m, env, settings).1 <==>
      !(OpOf(m, env).Some? && Fails(t, OpOf(m, env).value, env.onWrite, settings))
  {
    if OpOf(m, env).Some? {
      WrittenIsWholeUnlessTorn(t, OpOf(m, env).value, env.onWrite, settings);
      hide Written, Fails, Tears, Effect;
    }
  }

  /** One delivery is counted twice exactly by its guards, and otherwise once. */
  lemma CountsDecided(d: Db, m: Message, env: Env, settings: Settings)
    ensures CountsOf(d, m, env, settings) == if DoubleCounts(d, m, env, settings) then 2 else 1
  {
    if OpOf(m, env).Some? {
      WrittenIsWholeUnlessTorn(d.tables, OpOf(m, env).value, env.onWrite, settings);
      hide Written, Fails, Tears, Effect;
    }
  }

  /** The advertised counter law, received equals the sum of the outcomes, holds exactly for
      the runs in which no delivery meets those guards. */
  lemma {:induction false} ReconcilesExactly(steps: seq<Step>, settings: Settings)
    ensures ReceivedOver(steps) <= AccountedOver(steps, settings)
    ensures ReceivedOver(steps) == AccountedOver(steps, settings) <==> NoneDoubleCounts(steps, settings)
    decreases |steps|
  {
    if steps != [] {
      hide Run, CountsOf, DoubleCounts;
      ReconcilesExactly(steps[..|steps| - 1], settings);
      var last, d := steps[|steps| - 1], Run(FRESH, steps[..|steps| - 1], settings);
      if last.Deliver? {
        CountsDecided(d, last.m, last.env, settings);
      }
    }
  }
}
