/** What a delivered signal does, kind by kind: which operation its body stands for, what is stored of it, and which
    target and stop a position has at the end of a run. */
module SignalEffects {
  import opened Wrappers
  import opened WorkerLedger
  import opened WorkerConservation
  import opened SignalConsumer
  import opened SignalHistory
  import opened LedgerEffects

  predicate Taken(o: Outcome) { o == Committed || o == Refused }

  /** An open, a modify or a close is attempted on what the connection sees, with this delivery's fill and ids. */
  function Attempt(t: Tables, m: Message, env: Env, settings: Settings): Result<Tables, Error>
    requires m.body.OpenBody? || m.body.ModifyBody? || m.body.CloseBody?
  {
    match m.body
    case OpenBody(s) => Open(t, s, env.fill, env.newId, settings)
    case ModifyBody(s) => Modify(t, s)
    case CloseBody(s) => CloseBySignal(t, s, env.fill, env.legId, settings)
  }

  /** The statements of the operation all go through: an open has one, a modify one if it sets anything, a close
      two if there is something to close. */
  predicate Writes(t: Tables, m: Message, env: Env, settings: Settings)
    requires m.body.OpenBody? || m.body.ModifyBody? || m.body.CloseBody?
  {
    match m.body
    case OpenBody(_) => env.onWrite != FirstWrite
    case ModifyBody(s) => env.onWrite != FirstWrite || (s.tp.None? && s.sl.None? && !s.metadata)
    case CloseBody(_) => env.onWrite == NoFault || Attempt(t, m, env, settings) == Ok(t)
  }

  /** The tables of a delivery that is committed, whole or refused: the operation if it is admitted and written, its
      trade alone if only the second statement of a close fails, and else nothing. */
  lemma TakenMeans(d: Db, m: Message, env: Env, settings: Settings)
    requires Taken(Consume(d, m, env, settings).1)
    ensures var t, u := d.tables, Consume(d, m, env, settings).0.tables;
      if m.body.RegisterBody? then u == t
      else
        && !m.body.Malformed?
        && var r := Attempt(t, m, env, settings);
           if r.Ok? && Writes(t, m, env, settings) then u == r.value
           else if r.Ok? && m.body.CloseBody? && env.onWrite == SecondWrite
           then u == Tables(t.positions, r.value.trades)
           else u == t
    ensures Consume(d, m, env, settings).0.saved == None == d.saved
  {
    hide Open, Modify, CloseBySignal, Marked;
  }

  /** No statement of the delivery fails, and nothing is open on the connection. */
  predicate FairWeather(d: Db, env: Env) {
    && d.saved == None && !env.onBegin && !env.onLog && env.onWrite == NoFault && !env.onMark && !env.onErrorMark
    && !env.onCommit
  }

  /** A new signal in fair weather: committed with exactly its operation's tables if that is admitted, and refused
      with the tables as they were if not; a body that does not parse is logged. */
  lemma DeliveryMeans(d: Db, m: Message, env: Env, settings: Settings)
    requires FairWeather(d, env) && !Known(d, m)
    ensures var (e, outcome) := Consume(d, m, env, settings);
      match m.body
      case Malformed => outcome == ParseLogged && e.tables == d.tables
      case RegisterBody => outcome == Committed && e.tables == d.tables
      case OpenBody(s) =>
        var r := Open(d.tables, s, env.fill, env.newId, settings);
        if r.Ok? then outcome == Committed && e.tables == r.value else outcome == Refused && e.tables == d.tables
      case ModifyBody(s) =>
        var r := Modify(d.tables, s);
        if r.Ok? then outcome == Committed && e.tables == r.value else outcome == Refused && e.tables == d.tables
      case CloseBody(s) =>
        var r := CloseBySignal(d.tables, s, env.fill, env.legId, settings);
        if r.Ok? then outcome == Committed && e.tables == r.value else outcome == Refused && e.tables == d.tables
  {
    hide Open, Modify, CloseBySignal, Marked;
  }

  /** Whatever the weather, a committed signal has exactly its operation's tables. */
  lemma CommittedMeans(d: Db, m: Message, env: Env, settings: Settings)
    requires Consume(d, m, env, settings).1 == Committed
    ensures var u := Consume(d, m, env, settings).0.tables;
      match m.body
      case Malformed => false
      case RegisterBody => u == d.tables
      case OpenBody(s) => Open(d.tables, s, env.fill, env.newId, settings) == Ok(u)
      case ModifyBody(s) => Modify(d.tables, s) == Ok(u)
      case CloseBody(s) => CloseBySignal(d.tables, s, env.fill, env.legId, settings) == Ok(u)
  {
    hide Open, Modify, CloseBySignal, Marked;
  }

  /** The rows of the signal table after a delivery that commits: one more for it, and every row of its id marked
      processed, as failed or not. */
  lemma MarksMean(d: Db, m: Message, env: Env, settings: Settings)
    requires Consume(d, m, env, settings).1 in {ParseLogged, Committed, Refused}
    ensures var (e, outcome) := Consume(d, m, env, settings);
      && |e.signals| == |d.signals| + 1
      && e.signals[|d.signals|] == SignalRow(m.signalId, true, outcome != Committed, env.now)
      && forall k :: 0 <= k < |d.signals| ==>
           e.signals[k] == if d.signals[k].signalId != m.signalId then d.signals[k]
                           else d.signals[k].(processed := true, failed := outcome != Committed)
  {
    hide OperationResult;
    var logged := d.signals + [SignalRow(m.signalId, false, false, env.now)];
    MarkedAt(logged, m.signalId, Consume(d, m, env, settings).1 != Committed);
  }

  lemma {:induction false} MarkedAt(rows: seq<SignalRow>, id: Key, failed: bool)
    ensures |Marked(rows, id, failed)| == |rows|
    ensures forall k :: 0 <= k < |rows| ==>
      Marked(rows, id, failed)[k] == if rows[k].signalId != id then rows[k]
                                     else SignalRow(id, true, failed, rows[k].receivedAt)
    decreases |rows|
  {
    if rows != [] {
      MarkedAt(rows[..|rows| - 1], id, failed);
    }
  }

  // ------------------------------------------------------------------------- the outcome

  /** A row of the id is marked processed; a message without an id is never known. */
  predicate IsKnown(rows: seq<SignalRow>, id: Key) {
    id != "unknown" && exists k :: 0 <= k < |rows| && rows[k].signalId == id && rows[k].processed
  }

  lemma {:induction false} ProcessedMeans(rows: seq<SignalRow>, id: Key)
    ensures Processed(rows, id) <==> exists k :: 0 <= k < |rows| && rows[k].signalId == id && rows[k].processed
    decreases |rows|
  {
    if rows != [] {
      var init := rows[..|rows| - 1];
      ProcessedMeans(init, id);
      if Processed(init, id) {
        var k :| 0 <= k < |init| && init[k].signalId == id && init[k].processed;
        assert rows[k] == init[k];
      }
    }
  }

  /** The operation is refused by its checks or by one of its own statements. */
  predicate Misses(t: Tables, m: Message, env: Env, settings: Settings) {
    && (m.body.OpenBody? || m.body.ModifyBody? || m.body.CloseBody?)
    && !(Attempt(t, m, env, settings).Ok? && Writes(t, m, env, settings))
  }

  /** The outcome of every delivery: a known id is skipped; one whose transaction cannot begin, log, mark a failure
      or commit is left pending; a body that does not parse is logged; and the rest is committed or refused by its
      operation and its mark. */
  lemma OutcomeMeans(d: Db, m: Message, env: Env, settings: Settings)
    ensures var outcome, missed := Consume(d, m, env, settings).1, env.onMark || Misses(d.tables, m, env, settings);
      if IsKnown(d.signals, m.signalId) then outcome == Duplicate
      else if env.onBegin || d.saved.Some? || env.onLog || env.onCommit then outcome == LeftPending
      else if m.body.Malformed? then outcome == if env.onErrorMark then LeftPending else ParseLogged
      else if !missed then outcome == Committed
      else outcome == if env.onErrorMark then LeftPending else Refused
  {
    ProcessedMeans(d.signals, m.signalId);
    hide Open, Modify, CloseBySignal, Marked, Processed;
  }

  /** The counted failure is that of the operation or of its mark. */
  lemma HandlerMeans(t: Tables, m: Message, env: Env, settings: Settings)
    ensures GoesToHandler(t, m, env, settings) <==> env.onMark || Misses(t, m, env, settings)
  {
    hide Open, Modify, CloseBySignal;
  }

  /** A delivery that is skipped changes nothing; one that is left pending leaves what was stored before it. */
  lemma UntakenMeans(d: Db, m: Message, env: Env, settings: Settings)
    ensures var (e, outcome) := Consume(d, m, env, settings);
      && (outcome == Duplicate ==> e == d)
      && (outcome == LeftPending ==>
            e.signals == d.signals && e.saved == None &&
            e.tables == if d.saved.Some? then d.saved.value else d.tables)
  {
    hide Marked, Processed, OperationResult;
  }

  // --------------------------------------------------------- price-check closes and prunings

  /** A close of the price check: nothing if it finds no position or no quantity.  Otherwise it opens a transaction,
      which a close that goes through and commits ends; a failing one leaves what was stored to be returned to. */
  lemma AutoCloseMeans(d: Db, c: CloseRequest, fault: WriteFault, onCommit: bool, settings: Settings, k: nat)
    requires UniqueIds(d.tables.positions) && At(d.tables.positions, k, c.positionId)
    ensures var p, e := d.tables.positions[k], AutoClosed(d, c, fault, onCommit, settings);
      var qty := if c.qty.None? || c.qty.value > p.qty then p.qty else c.qty.value;
      var before, r := if d.saved.Some? then d.saved.value else d.tables, Close(d.tables, c);
      if qty <= 0.0 then e == d
      else if r.Ok? && fault == NoFault then e == Db(r.value, d.signals, if onCommit then Some(before) else None)
      else if r.Ok? && fault == SecondWrite
      then e == Db(Tables(d.tables.positions, r.value.trades), d.signals, Some(before))
      else e == Db(d.tables, d.signals, Some(before))
  {
    AtIsRow(d.tables.positions, k, c.positionId);
    CloseMeans(d.tables, c, k);
    hide IsLeg, ClosedTrade;
  }

  lemma AutoCloseNeedsPosition(d: Db, c: CloseRequest, fault: WriteFault, onCommit: bool, settings: Settings)
    requires Absent(d.tables.positions, c.positionId)
    ensures AutoClosed(d, c, fault, onCommit, settings) == d
  {
    AbsentIsNone(d.tables.positions, c.positionId);
  }

  /** Pruning drops exactly the rows received before the time. */
  lemma {:induction false} PruneMeans(rows: seq<SignalRow>, before: int)
    ensures forall r :: multiset(Pruned(rows, before))[r] == if r.receivedAt < before then 0 else multiset(rows)[r]
    decreases |rows|
  {
    if rows != [] {
      var init, last := rows[..|rows| - 1], rows[|rows| - 1];
      PruneMeans(init, before);
      assert rows == init + [last];
    }
  }

  // ------------------------------------------------------------- targets and stops over runs

  datatype Terms = Terms(tp: Option<real>, sl: Option<real>)

  /** The delivery changes the tables: it is taken, and its operation admitted and written. */
  predicate TakesEffect(d: Db, m: Message, env: Env, settings: Settings) {
    && Taken(Consume(d, m, env, settings).1) && (m.body.OpenBody? || m.body.ModifyBody?)
    && Attempt(d.tables, m, env, settings).Ok? && Writes(d.tables, m, env, settings)
  }

  /** What one step does to the terms of an id, from what the step says. */
  function TermsAfter(d: Db, s: Step, id: Key, before: Terms, settings: Settings): Terms {
    if !(s.Deliver? && TakesEffect(d, s.m, s.env, settings)) then before
    else
      match s.m.body
      case OpenBody(o) =>
        if id == (if o.positionId == "" then s.env.newId else o.positionId) then Terms(o.tp, o.sl) else before
      case ModifyBody(o) =>
        if id == o.positionId
        then Terms(if o.tp.Some? then o.tp else before.tp, if o.sl.Some? then o.sl else before.sl) else before
      case _ => before
  }

  /** The target and stop of the id's last open, each as last set by a modify since. */
  function LastTerms(steps: seq<Step>, id: Key, settings: Settings): Terms {
    if steps == [] then Terms(None, None)
    else
      var init := steps[..|steps| - 1];
      TermsAfter(Run(FRESH, init, settings), steps[|steps| - 1], id, LastTerms(init, id, settings), settings)
  }

  /** Every row of the id has these terms. */
  ghost predicate HasTerms(t: Tables, id: Key, terms: Terms) {
    forall k :: 0 <= k < |t.positions| && t.positions[k].positionId == id ==>
      t.positions[k].tp == terms.tp && t.positions[k].sl == terms.sl
  }

  lemma CloseKeepsBoth(t: Tables, c: CloseRequest, id: Key, terms: Terms)
    requires HasTerms(t, id, terms) && Close(t, c).Ok?
    ensures HasTerms(Close(t, c).value, id, terms)
  {
  }

  lemma OpenSetsTerms(t: Tables, s: OpenSignal, fill: Option<real>, newId: Key, settings: Settings, id: Key,
                      terms: Terms)
    requires HasTerms(t, id, terms) && Open(t, s, fill, newId, settings).Ok?
    ensures var own := if s.positionId == "" then newId else s.positionId;
      HasTerms(Open(t, s, fill, newId, settings).value, id, if id == own then Terms(s.tp, s.sl) else terms)
  {
    OpenMeans(t, s, fill, newId, settings);
    hide IsSlipped, Open;
  }

  lemma ModifySetsTerms(t: Tables, s: ModifySignal, id: Key, terms: Terms)
    requires UniqueIds(t.positions) && HasTerms(t, id, terms) && Modify(t, s).Ok?
    ensures HasTerms(Modify(t, s).value, id,
                     if id == s.positionId
                     then Terms(if s.tp.Some? then s.tp else terms.tp, if s.sl.Some? then s.sl else terms.sl)
                     else terms)
  {
    AbsentIsNone(t.positions, s.positionId);
    if !Absent(t.positions, s.positionId) {
      var k: nat :| k < |t.positions| && t.positions[k].positionId == s.positionId;
      ModifyMeans(t, s, k);
    }
  }

  lemma DeliveryKeepsTerms(d: Db, m: Message, env: Env, id: Key, terms: Terms, settings: Settings)
    requires UniqueIds(d.tables.positions) && HasTerms(d.tables, id, terms) && HasTerms(Stored(d), id, terms)
    ensures var e, after := Consume(d, m, env, settings).0, TermsAfter(d, Deliver(m, env), id, terms, settings);
      HasTerms(e.tables, id, after) && HasTerms(Stored(e), id, after)
  {
    if Taken(Consume(d, m, env, settings).1) {
      TakenMeans(d, m, env, settings);
      hide Consume, Open, Modify, HasTerms, UniqueIds, CloseBySignal;
      if !m.body.RegisterBody? && Attempt(d.tables, m, env, settings).Ok? {
        var u := Attempt(d.tables, m, env, settings).value;
        match m.body
        case OpenBody(s) => OpenSetsTerms(d.tables, s, env.fill, env.newId, settings, id, terms);
        case ModifyBody(s) => ModifySetsTerms(d.tables, s, id, terms);
        case CloseBody(s) =>
          SignalClosesKeepTerms(d.tables, s, env, id, terms, settings);
      }
    } else {
      hide OperationResult, Marked, HasTerms, UniqueIds;
    }
  }

  lemma SignalClosesKeepTerms(t: Tables, s: CloseSignal, env: Env, id: Key, terms: Terms, settings: Settings)
    requires HasTerms(t, id, terms) && CloseBySignal(t, s, env.fill, env.legId, settings).Ok?
    ensures HasTerms(CloseBySignal(t, s, env.fill, env.legId, settings).value, id, terms)
    ensures forall ts: seq<Trade> :: HasTerms(Tables(t.positions, ts), id, terms)
  {
    var p := t.positions[RowOf(t.positions, s.positionId)];
    CloseKeepsBoth(t, RequestOf(s, p, env.fill, env.legId, settings), id, terms);
  }

  lemma StepKeepsTerms(d: Db, s: Step, id: Key, terms: Terms, settings: Settings)
    requires UniqueIds(d.tables.positions) && HasTerms(d.tables, id, terms) && HasTerms(Stored(d), id, terms)
    ensures var e, after := Next(d, s, settings), TermsAfter(d, s, id, terms, settings);
      HasTerms(e.tables, id, after) && HasTerms(Stored(e), id, after)
  {
    if s.Deliver? {
      hide Consume, HasTerms, UniqueIds, TermsAfter;
      DeliveryKeepsTerms(d, s.m, s.env, id, terms, settings);
    } else if s.AutoClose? {
      hide Close, UniqueIds;
      if Close(d.tables, s.request).Ok? {
        CloseKeepsBoth(d.tables, s.request, id, terms);
      }
    }
  }

  /** Over every consumer run, redeliveries, faults, torn closes, price-check passes and rollbacks included: an open
      position has the target and the stop of its opening signal, each as last set by a modify that took effect. */
  lemma {:induction false} TermsAreLastSet(steps: seq<Step>, id: Key, settings: Settings)
    ensures HasTerms(Run(FRESH, steps, settings).tables, id, LastTerms(steps, id, settings))
    ensures HasTerms(Stored(Run(FRESH, steps, settings)), id, LastTerms(steps, id, settings))
    decreases |steps|
  {
    if steps != [] {
      hide Next, HasTerms, UniqueIds, TakesEffect;
      var init := steps[..|steps| - 1];
      TermsAreLastSet(init, id, settings);
      ConsumerConserves(init, id, settings);
      StepKeepsTerms(Run(FRESH, init, settings), steps[|steps| - 1], id, LastTerms(init, id, settings), settings);
    }
  }
}
