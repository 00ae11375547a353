/** A consumer run as the writes it leaves: which of them are committed, and what that means for quantity, stops,
    positions per symbol and price-check passes. */
module SignalHistory {
  import opened Wrappers
  import opened Reals
  import opened WorkerLedger
  import opened WorkerConservation
  import opened SignalConsumer

  // ------------------------------------------------------------------------- writes of a run

  /** An operation that took effect, or a close of which only the leg was written. */
  datatype Write = Whole(op: Op) | Torn(op: Op)

  function AfterWrite(t: Tables, w: Write, settings: Settings): Tables {
    match w
    case Whole(op) => After(t, op, settings)
    case Torn(op) => Tables(t.positions, After(t, op, settings).trades)
  }

  function AfterWrites(t: Tables, ws: seq<Write>, settings: Settings): Tables {
    if ws == [] then t else AfterWrite(AfterWrites(t, ws[..|ws| - 1], settings), ws[|ws| - 1], settings)
  }

  /** What an attempted operation writes, told from its guards. */
  function Wrote(t: Tables, op: Op, fault: WriteFault, settings: Settings): seq<Write> {
    if Tears(t, op, fault, settings) then [Torn(op)]
    else if Fails(t, op, fault, settings) then []
    else [Whole(op)]
  }

  /** The delivery's own transaction commits. */
  predicate Commits(d: Db, m: Message, env: Env, settings: Settings) {
    && !Known(d, m) && Begins(d, env) && !env.onLog && !env.onCommit
    && !(env.onErrorMark && GoesToHandler(d.tables, m, env, settings))
  }

  /** What a step writes on the connection. */
  function WritesOf(d: Db, s: Step, settings: Settings): seq<Write> {
    match s
    case Deliver(m, env) =>
      if Commits(d, m, env, settings) && OpOf(m, env).Some?
      then Wrote(d.tables, OpOf(m, env).value, env.onWrite, settings) else []
    case AutoClose(c, fault, _) =>
      if FindsNothing(d.tables, c) then [] else Wrote(d.tables, OpAutoClose(c), fault, settings)
    case _ => []
  }

  /** A restart, or a transaction that cannot begin inside the open one: that of a new signal. */
  predicate RollsBack(d: Db, s: Step) {
    s.Rollback? || (s.Deliver? && !Known(d, s.m) && d.saved.Some?)
  }

  /** The writes that the connection sees, and those of them that are committed. */
  datatype History = History(seen: seq<Write>, kept: seq<Write>)

  function Recorded(h: History, d: Db, s: Step, settings: Settings): History {
    if RollsBack(d, s) then History(h.kept, h.kept)
    else
      var seen := h.seen + WritesOf(d, s, settings);
      History(seen, if Next(d, s, settings).saved.None? then seen else h.kept)
  }

  function HistoryOf(steps: seq<Step>, settings: Settings): History {
    if steps == [] then History([], [])
    else
      var before := steps[..|steps| - 1];
      Recorded(HistoryOf(before, settings), Run(FRESH, before, settings), steps[|steps| - 1], settings)
  }

  lemma WroteExplains(t: Tables, op: Op, fault: WriteFault, settings: Settings)
    ensures AfterWrites(t, Wrote(t, op, fault, settings), settings) == Written(t, op, fault, settings).0
  {
    WrittenIsWholeUnlessTorn(t, op, fault, settings);
    var ws := Wrote(t, op, fault, settings);
    assert ws != [] ==> ws[..|ws| - 1] == [];
    hide Fails, Tears, Written;
  }

  /** The tables after a step: what it wrote on top of what it saw, or what was committed. */
  lemma StepWrites(d: Db, s: Step, settings: Settings)
    ensures var e := Next(d, s, settings);
      && e.tables == (if RollsBack(d, s) then Stored(d) else AfterWrites(d.tables, WritesOf(d, s, settings), settings))
      && (RollsBack(d, s) ==> e.saved.None?)
      && (e.saved.Some? ==> e.saved.value == Stored(d))
    ensures |WritesOf(d, s, settings)| <= 1
  {
    match s
    case Deliver(m, env) =>
      if OpOf(m, env).Some? {
        var op := OpOf(m, env).value;
        WroteExplains(d.tables, op, env.onWrite, settings);
        WrittenIsWholeUnlessTorn(d.tables, op, env.onWrite, settings);
      }
      hide Marked, Known, Written, Fails, Tears, AfterWrite;
    case AutoClose(c, fault, _) =>
      WroteExplains(d.tables, OpAutoClose(c), fault, settings);
      hide Marked, Known, Written, Fails, Tears, AfterWrite;
    case _ =>
  }

  lemma {:induction false} WritesConcat(t: Tables, a: seq<Write>, b: seq<Write>, settings: Settings)
    ensures AfterWrites(t, a + b, settings) == AfterWrites(AfterWrites(t, a, settings), b, settings)
    decreases |b|
  {
    if b == [] {
      assert a + b == a;
    } else {
      hide AfterWrite;
      assert (a + b)[..|a + b| - 1] == a + b[..|b| - 1];
      WritesConcat(t, a, b[..|b| - 1], settings);
    }
  }

  /** What the connection sees is what all writes leave, and what is stored is what the committed ones leave. */
  predicate Explains(d: Db, h: History, settings: Settings) {
    && d.tables == AfterWrites(EMPTY, h.seen, settings)
    && Stored(d) == AfterWrites(EMPTY, h.kept, settings)
    && (d.saved.None? ==> h.seen == h.kept)
  }

  lemma StepExplains(d: Db, h: History, s: Step, settings: Settings)
    requires Explains(d, h, settings)
    ensures Explains(Next(d, s, settings), Recorded(h, d, s, settings), settings)
  {
    StepWrites(d, s, settings);
    WritesConcat(EMPTY, h.seen, WritesOf(d, s, settings), settings);
    hide Next, WritesOf, AfterWrites, RollsBack;
  }

  lemma {:induction false} HistoryExplains(steps: seq<Step>, settings: Settings)
    ensures Explains(Run(FRESH, steps, settings), HistoryOf(steps, settings), settings)
    decreases |steps|
  {
    if steps != [] {
      hide Next, Recorded, Explains;
      var before := steps[..|steps| - 1];
      HistoryExplains(before, settings);
      StepExplains(Run(FRESH, before, settings), HistoryOf(before, settings), steps[|steps| - 1], settings);
    } else {
      assert AfterWrites(EMPTY, [], settings) == EMPTY;
    }
  }

  // --------------------------------------------------------- runs without a torn close

  predicate AllWhole(ws: seq<Write>) { forall i :: 0 <= i < |ws| ==> ws[i].Whole? }

  function OpsIn(ws: seq<Write>): (ops: seq<Op>)
    ensures |ops| == |ws| && forall i :: 0 <= i < |ws| ==> ops[i] == ws[i].op
  {
    if ws == [] then [] else OpsIn(ws[..|ws| - 1]) + [ws[|ws| - 1].op]
  }

  lemma {:induction false} WholeWritesAreOps(t: Tables, ws: seq<Write>, settings: Settings)
    requires AllWhole(ws)
    ensures AfterWrites(t, ws, settings) == RunOps(t, OpsIn(ws), settings)
    decreases |ws|
  {
    if ws != [] {
      var before, ops := ws[..|ws| - 1], OpsIn(ws);
      assert ops[..|ops| - 1] == OpsIn(before);
      WholeWritesAreOps(t, before, settings);
    }
  }

  /** Whatever is redelivered, refused or rolled back: if no committed close is torn, the stored tables are those of
      a plain run of operations, so all that holds of those holds here. */
  lemma ConsumerRunsOperations(steps: seq<Step>, settings: Settings)
    requires AllWhole(HistoryOf(steps, settings).kept)
    ensures RunOps(EMPTY, OpsIn(HistoryOf(steps, settings).kept), settings) == Stored(Run(FRESH, steps, settings))
  {
    HistoryExplains(steps, settings);
    WholeWritesAreOps(EMPTY, HistoryOf(steps, settings).kept, settings);
  }

  // -------------------------------------------------- conservation over every consumer run

  /** A torn close of this position, found open with quantity. */
  predicate Tore(t: Tables, w: Write, id: Key, settings: Settings) {
    && w.Torn? && Effect(t, w.op, settings).Ok? && Effect(t, w.op, settings).value != t
    && RequestFor(t, w.op, settings).Some? && RequestFor(t, w.op, settings).value.positionId == id
  }

  /** The quantity a write books as a leg of this position without taking it off. */
  function TornBy(t: Tables, w: Write, id: Key, settings: Settings): real {
    if w.Whole? then 0.0 else LegQty(AfterWrite(t, w, settings).trades, id) - LegQty(t.trades, id)
  }

  function EnteredBy(t: Tables, w: Write, id: Key, settings: Settings): real {
    if w.Whole? then OpenedBy(t, w.op, id, settings) else 0.0
  }

  function DustIn(t: Tables, w: Write, id: Key, settings: Settings): real {
    if w.Whole? then DustBy(t, w.op, id, settings) else 0.0
  }

  /** Opened, torn and dust quantity over a sequence of writes. */
  datatype Account = Account(entered: real, doubled: real, dust: real)

  function Booked(ws: seq<Write>, id: Key, settings: Settings): Account {
    if ws == [] then Account(0.0, 0.0, 0.0)
    else
      var before, w := ws[..|ws| - 1], ws[|ws| - 1];
      var t, a := AfterWrites(EMPTY, before, settings), Booked(before, id, settings);
      Account(a.entered + EnteredBy(t, w, id, settings), a.doubled + TornBy(t, w, id, settings),
              a.dust + DustIn(t, w, id, settings))
  }

  /** No close of this position among these writes is torn. */
  predicate NoneTorn(ws: seq<Write>, id: Key, settings: Settings) {
    ws != [] ==>
      var before := ws[..|ws| - 1];
      NoneTorn(before, id, settings) && !Tore(AfterWrites(EMPTY, before, settings), ws[|ws| - 1], id, settings)
  }

  /** What a torn close books: its own position's closed quantity, which is positive, and nothing else's. */
  lemma TornCloseDoubleCounts(t: Tables, op: Op, id: Key, settings: Settings)
    requires RequestFor(t, op, settings).Some?
    requires Tore(t, Torn(op), RequestFor(t, op, settings).value.positionId, settings)
    ensures var c, u := RequestFor(t, op, settings).value, AfterWrite(t, Torn(op), settings);
      && u.positions == t.positions
      && Has(t.positions, c.positionId)
      && LegQty(u.trades, id) == LegQty(t.trades, id) +
         (if id == c.positionId then ClosedQty(t.positions[RowOf(t.positions, id)], c.qty) else 0.0)
      && ClosedQty(t.positions[RowOf(t.positions, c.positionId)], c.qty) > 0.0
      && (TradeIdTaken(t.trades, id) ==> TradeIdTaken(u.trades, id))
  {
    var c := RequestFor(t, op, settings).value;
    var u := Close(t, c).value;
    LegQtyOfAppend(t.trades, u.trades[|t.trades|], id);
    assert u.trades == t.trades + [u.trades[|t.trades|]];
  }

  /** One write and the account of an id. */
  ghost predicate Balances(t: Tables, u: Tables, id: Key, entered: real, doubled: real, dust: real) {
    && UniqueIds(u.positions)
    && OpenQty(t.positions, id) + LegQty(t.trades, id) + entered + doubled ==
       OpenQty(u.positions, id) + LegQty(u.trades, id) + dust
    && (TradeIdTaken(t.trades, id) ==> TradeIdTaken(u.trades, id))
    && 0.0 <= dust <= EPSILON
    && (dust != 0.0 ==> !TradeIdTaken(t.trades, id) && TradeIdTaken(u.trades, id))
    && doubled >= 0.0
  }

  lemma WriteBalances(t: Tables, w: Write, id: Key, settings: Settings)
    requires UniqueIds(t.positions)
    ensures Balances(t, AfterWrite(t, w, settings), id, EnteredBy(t, w, id, settings), TornBy(t, w, id, settings),
                     DustIn(t, w, id, settings))
    ensures Tore(t, w, id, settings) <==> TornBy(t, w, id, settings) > 0.0
  {
    if w.Whole? {
      StepMovesQty(t, w.op, id, settings);
    } else if RequestFor(t, w.op, settings).Some? {
      if Tore(t, w, RequestFor(t, w.op, settings).value.positionId, settings) {
        TornCloseDoubleCounts(t, w.op, id, settings);
      }
      hide UniqueIds, Close, OpenQty, LegQty, TradeIdTaken;
    }
  }

  /** What was opened under an id, and what torn closes booked twice, is the open remainder plus the legs plus dust;
      dust is at most EPSILON and zero until the full close. */
  ghost predicate Conserves(t: Tables, a: Account, id: Key) {
    && UniqueIds(t.positions)
    && a.entered + a.doubled == OpenQty(t.positions, id) + LegQty(t.trades, id) + a.dust
    && 0.0 <= a.dust <= EPSILON
    && (!TradeIdTaken(t.trades, id) ==> a.dust == 0.0)
    && a.doubled >= 0.0
  }

  lemma {:induction false} WritesConserve(ws: seq<Write>, id: Key, settings: Settings)
    ensures Conserves(AfterWrites(EMPTY, ws, settings), Booked(ws, id, settings), id)
    ensures Booked(ws, id, settings).doubled == 0.0 <==> NoneTorn(ws, id, settings)
    decreases |ws|
  {
    if ws != [] {
      hide AfterWrite, EnteredBy, TornBy, DustIn, Tore, OpenQty, LegQty, UniqueIds, TradeIdTaken;
      var before := ws[..|ws| - 1];
      WritesConserve(before, id, settings);
      WriteBalances(AfterWrites(EMPTY, before, settings), ws[|ws| - 1], id, settings);
    }
  }

  /** Over every run of deliveries, price-check closes, redeliveries, failures and rollbacks, for what is stored and
      for what the connection sees. */
  lemma ConsumerConserves(steps: seq<Step>, id: Key, settings: Settings)
    ensures var d, h := Run(FRESH, steps, settings), HistoryOf(steps, settings);
      && Conserves(Stored(d), Booked(h.kept, id, settings), id)
      && Conserves(d.tables, Booked(h.seen, id, settings), id)
  {
    HistoryExplains(steps, settings);
    WritesConserve(HistoryOf(steps, settings).kept, id, settings);
    WritesConserve(HistoryOf(steps, settings).seen, id, settings);
  }

  /** No close of this position that was committed was torn. */
  predicate NeverTorn(steps: seq<Step>, id: Key, settings: Settings) {
    NoneTorn(HistoryOf(steps, settings).kept, id, settings)
  }

  /** So an id's stored quantity is conserved over a run exactly when none of its committed closes is torn. */
  lemma ConservedIffNeverTorn(steps: seq<Step>, id: Key, settings: Settings)
    ensures var t, a := Stored(Run(FRESH, steps, settings)), Booked(HistoryOf(steps, settings).kept, id, settings);
      NeverTorn(steps, id, settings) <==>
        a.entered == OpenQty(t.positions, id) + LegQty(t.trades, id) + a.dust
  {
    ConsumerConserves(steps, id, settings);
    WritesConserve(HistoryOf(steps, settings).kept, id, settings);
  }

  // ------------------------------------------------------- torn closes, committed and dropped

  lemma OneMore(steps: seq<Step>, s: Step, settings: Settings)
    ensures Run(FRESH, steps + [s], settings) == Next(Run(FRESH, steps, settings), s, settings)
    ensures HistoryOf(steps + [s], settings) ==
      Recorded(HistoryOf(steps, settings), Run(FRESH, steps, settings), s, settings)
  {
    hide Next, Recorded;
    assert (steps + [s])[..|steps|] == steps;
  }

  lemma OneMoreWrite(ws: seq<Write>, w: Write, id: Key, settings: Settings)
    ensures NoneTorn(ws + [w], id, settings) <==>
      NoneTorn(ws, id, settings) && !Tore(AfterWrites(EMPTY, ws, settings), w, id, settings)
  {
    hide Tore, AfterWrites;
    assert (ws + [w])[..|ws|] == ws;
  }

  /** An automatic close that loses its second write is seen at once and not stored. */
  lemma TornIsOpen(steps: seq<Step>, c: CloseRequest, onCommit: bool, settings: Settings)
    requires var d := Run(FRESH, steps, settings);
      d.saved.None? && Tears(d.tables, OpAutoClose(c), SecondWrite, settings)
    ensures var d, h := Run(FRESH, steps, settings), HistoryOf(steps, settings);
      var more := steps + [AutoClose(c, SecondWrite, onCommit)];
      && Run(FRESH, more, settings) ==
         Db(AfterWrite(d.tables, Torn(OpAutoClose(c)), settings), d.signals, Some(d.tables))
      && HistoryOf(more, settings) == History(h.seen + [Torn(OpAutoClose(c))], h.kept)
      && h.seen == h.kept && d.tables == AfterWrites(EMPTY, h.seen, settings)
  {
    OneMore(steps, AutoClose(c, SecondWrite, onCommit), settings);
    HistoryExplains(steps, settings);
    hide HistoryOf, Run, AfterWrites, RequestFor;
  }

  /** If the next thing on the connection is a new signal, the torn close is gone and the signal, which nothing else
      failed, is left pending: the run stores what it stored, and conserves what it conserved. */
  lemma NewSignalDropsTornClose(steps: seq<Step>, c: CloseRequest, onCommit: bool, m: Message, env: Env, id: Key,
                                settings: Settings)
    requires var d := Run(FRESH, steps, settings);
      d.saved.None? && Tears(d.tables, OpAutoClose(c), SecondWrite, settings) && !Known(d, m)
    ensures var more := steps + [AutoClose(c, SecondWrite, onCommit)];
      && Consume(Run(FRESH, more, settings), m, env, settings).1.LeftPending?
      && Run(FRESH, more + [Deliver(m, env)], settings) == Run(FRESH, steps, settings)
      && (NeverTorn(more + [Deliver(m, env)], id, settings) <==> NeverTorn(steps, id, settings))
  {
    TornIsOpen(steps, c, onCommit, settings);
    OneMore(steps + [AutoClose(c, SecondWrite, onCommit)], Deliver(m, env), settings);
    hide HistoryOf, Run, AfterWrites, AfterWrite, Tears, NoneTorn, Processed;
  }

  /** If it is another close, whose commit succeeds, the torn leg is committed with it. */
  lemma NextCloseCommitsTornClose(steps: seq<Step>, c: CloseRequest, onCommit: bool, other: CloseRequest,
                                  settings: Settings)
    requires var d := Run(FRESH, steps, settings);
      && d.saved.None? && Tears(d.tables, OpAutoClose(c), SecondWrite, settings)
      && var t := AfterWrite(d.tables, Torn(OpAutoClose(c)), settings);
         !FindsNothing(t, other) && Close(t, other).Ok?
    ensures var d := Run(FRESH, steps, settings);
      var run := steps + [AutoClose(c, SecondWrite, onCommit)] + [AutoClose(other, NoFault, false)];
      && Stored(Run(FRESH, run, settings)) == Close(AfterWrite(d.tables, Torn(OpAutoClose(c)), settings), other).value
      && !NeverTorn(run, c.positionId, settings)
  {
    var d, h := Run(FRESH, steps, settings), HistoryOf(steps, settings);
    var torn, last := Torn(OpAutoClose(c)), AutoClose(other, NoFault, false);
    TornIsOpen(steps, c, onCommit, settings);
    OneMore(steps + [AutoClose(c, SecondWrite, onCommit)], last, settings);
    OneMoreWrite(h.kept, torn, c.positionId, settings);
    OneMoreWrite(h.kept + [torn], Whole(OpAutoClose(other)), c.positionId, settings);
    assert h.seen + [torn] + [Whole(OpAutoClose(other))] == h.kept + [torn] + [Whole(OpAutoClose(other))];
    hide HistoryOf, Run, AfterWrites, NoneTorn;
  }

  /** Torn deliveries are committed by the handler itself.  Such a run exists for every signal that opens something:
      deliver it, then a close whose second write fails.  The whole quantity is a leg and is still open. */
  lemma TornDeliveryIsReachable(s: OpenSignal, c: CloseSignal, fine: Env, settings: Settings)
    requires s.qty > 0.0 && s.positionId != "" && c.positionId == s.positionId && c.qty.None?
    requires !fine.onBegin && !fine.onLog && !fine.onMark && !fine.onErrorMark && !fine.onCommit
    requires fine.onWrite.NoFault?
    ensures var steps := [Deliver(Message("open", OpenBody(s)), fine)] +
                         [Deliver(Message("close", CloseBody(c)), fine.(onWrite := SecondWrite))];
      var t := Stored(Run(FRESH, steps, settings));
      && OpenQty(t.positions, s.positionId) == s.qty == LegQty(t.trades, s.positionId)
      && !NeverTorn(steps, s.positionId, settings)
  {
    hide FixedPctFill, Effect, RequestFor, Tears, OpenQty, LegQty, AfterWrite, HistoryOf, NoneTorn, Processed;
    var first := Deliver(Message("open", OpenBody(s)), fine);
    var second := Deliver(Message("close", CloseBody(c)), fine.(onWrite := SecondWrite));
    var p := NewPosition(s, s.positionId, FillOr(fine.fill, FixedPctFill(s.entry, s.side, settings.slippage, false)));
    OpenedAlone(s, fine, settings);
    TornAlone(p, c, fine, settings);
    assert [] + [first] == [first];
    OneMore([], first, settings);
    hide Next, Consume;
    TornDeliveryCommits([first], second.m, second.env, s.positionId, settings);
  }

  /** A delivered close that loses its second write, and nothing else, is committed torn. */
  lemma TornDeliveryCommits(steps: seq<Step>, m: Message, env: Env, id: Key, settings: Settings)
    requires var d := Run(FRESH, steps, settings);
      && d.saved.None? && !Known(d, m) && !env.onBegin && !env.onLog && !env.onErrorMark && !env.onCommit
      && OpOf(m, env).Some? && Tears(d.tables, OpOf(m, env).value, env.onWrite, settings)
      && RequestFor(d.tables, OpOf(m, env).value, settings).Some?
      && RequestFor(d.tables, OpOf(m, env).value, settings).value.positionId == id
    ensures var d := Run(FRESH, steps, settings);
      && Stored(Run(FRESH, steps + [Deliver(m, env)], settings)) ==
         AfterWrite(d.tables, Torn(OpOf(m, env).value), settings)
      && !NeverTorn(steps + [Deliver(m, env)], id, settings)
  {
    var d, h, op := Run(FRESH, steps, settings), HistoryOf(steps, settings), OpOf(m, env).value;
    OneMore(steps, Deliver(m, env), settings);
    HistoryExplains(steps, settings);
    StepWrites(d, Deliver(m, env), settings);
    assert WritesOf(d, Deliver(m, env), settings) == [Torn(op)];
    assert [Torn(op)][..0] == [];
    OneMoreWrite(h.seen, Torn(op), id, settings);
    hide Run, HistoryOf, NoneTorn, Tears, RequestFor, Effect, AfterWrite, Known, Written, Marked;
  }

  lemma OpenedAlone(s: OpenSignal, fine: Env, settings: Settings)
    requires s.positionId != "" && !fine.onBegin && !fine.onLog && !fine.onMark && !fine.onCommit
    requires fine.onWrite.NoFault?
    ensures Next(FRESH, Deliver(Message("open", OpenBody(s)), fine), settings) ==
      Db(Tables([NewPosition(s, s.positionId,
                             FillOr(fine.fill, FixedPctFill(s.entry, s.side, settings.slippage, false)))], []),
         Marked([] + [SignalRow("open", false, false, fine.now)], "open", false), None)
    ensures !Processed(Marked([] + [SignalRow("open", false, false, fine.now)], "open", false), "close")
  {
    hide FixedPctFill;
    LoggedThenMarked([], "open", false, fine.now, "close");
    assert [] + [SignalRow("open", false, false, fine.now)] == [SignalRow("open", false, false, fine.now)];
  }

  lemma TornAlone(p: Position, c: CloseSignal, env: Env, settings: Settings)
    requires p.qty > 0.0 && c.positionId == p.positionId && c.qty.None?
    ensures var t, op := Tables([p], []), OpClose(c, env.fill, env.legId);
      && Tears(t, op, SecondWrite, settings)
      && RequestFor(t, op, settings).Some? && RequestFor(t, op, settings).value.positionId == p.positionId
      && OpenQty(AfterWrite(t, Torn(op), settings).positions, p.positionId) == p.qty
      && LegQty(AfterWrite(t, Torn(op), settings).trades, p.positionId) == p.qty
  {
    hide FixedPctFill, LegPnl;
    assert [p][..0] == [];
    TornCloseDoubleCounts(Tables([p], []), OpClose(c, env.fill, env.legId), p.positionId, settings);
  }

  // ------------------------------------------------------------------ stops over consumer runs

  lemma CloseKeepsTerms(t: Tables, c: CloseRequest, id: Key)
    requires UniqueIds(t.positions) && Close(t, c).Ok? && StillOpen(Close(t, c).value, id)
    ensures StillOpen(t, id)
    ensures SameTerms(t, Close(t, c).value, id)
  {
    var ps, qs := t.positions, Close(t, c).value.positions;
    var i, j := RowOf(ps, c.positionId), RowOf(qs, id);
    if qs != ps && |qs| == |ps| {
      RowsAfterUpdate(ps, i, qs[i], id);
      RowIsUnique(qs, RowOf(ps, id));
    } else if qs != ps {
      RowsAfterRemoval(ps, i, id);
      RowIsUnique(ps, if j < i then j else j + 1);
    }
  }

  /** The row of an open position has the side, entry and stop of its earlier row. */
  predicate SameTerms(t: Tables, u: Tables, id: Key) {
    StillOpen(t, id) && StillOpen(u, id) ==>
      var p, q := t.positions[RowOf(t.positions, id)], u.positions[RowOf(u.positions, id)];
      p.side == q.side && p.entryPrice == q.entryPrice && p.sl == q.sl
  }

  /** While a transaction is open, what it sees of a position has the terms that are stored. */
  predicate StoredTerms(d: Db, id: Key) {
    StillOpen(d.tables, id) ==> StillOpen(Stored(d), id) && SameTerms(Stored(d), d.tables, id)
  }

  lemma WriteTightens(t: Tables, w: Write, id: Key, settings: Settings)
    requires UniqueIds(t.positions) && StillOpen(t, id) && StillOpen(AfterWrite(t, w, settings), id)
    ensures var ps, qs := t.positions, AfterWrite(t, w, settings).positions;
      Tightened(ps[RowOf(ps, id)], qs[RowOf(qs, id)])
  {
    if w.Whole? {
      StepTightens(t, w.op, id, settings);
      hide After;
    }
  }

  /** What leaves a transaction open is a close, and that keeps a position's terms. */
  lemma OpenStepKeepsTerms(d: Db, s: Step, id: Key, settings: Settings)
    requires UniqueIds(d.tables.positions) && Next(d, s, settings).saved.Some?
    ensures var e := Next(d, s, settings);
      StillOpen(e.tables, id) ==> StillOpen(d.tables, id) && SameTerms(d.tables, e.tables, id)
  {
    if s.AutoClose? && Close(d.tables, s.request).Ok? && StillOpen(Close(d.tables, s.request).value, id) {
      CloseKeepsTerms(d.tables, s.request, id);
      hide Close, UniqueIds;
    } else {
      hide OperationResult, UniqueIds, Marked, Known;
    }
  }

  lemma ConsumerStepTightens(d: Db, s: Step, id: Key, settings: Settings)
    requires UniqueIds(d.tables.positions) && StoredTerms(d, id)
    ensures StoredTerms(Next(d, s, settings), id)
    ensures StillOpen(d.tables, id) && StillOpen(Next(d, s, settings).tables, id) ==>
      var ps, qs := d.tables.positions, Next(d, s, settings).tables.positions;
      Tightened(ps[RowOf(ps, id)], qs[RowOf(qs, id)])
  {
    StepWrites(d, s, settings);
    var e, ws := Next(d, s, settings), WritesOf(d, s, settings);
    if e.saved.Some? {
      OpenStepKeepsTerms(d, s, id, settings);
    }
    if !RollsBack(d, s) && ws != [] {
      assert ws == [ws[0]] && [ws[0]][..0] == [];
      assert e.tables == AfterWrite(d.tables, ws[0], settings);
      if StillOpen(d.tables, id) && StillOpen(e.tables, id) {
        WriteTightens(d.tables, ws[0], id, settings);
      }
    }
    hide Next, WritesOf, UniqueIds, AfterWrite, RowOf;
  }

  /** Over every consumer run, torn closes, redeliveries, failures and rollbacks included: while a position stays
      open on the connection, from any moment to any later one, a stop that is set never moves against it. */
  lemma {:induction false} ConsumerStopNeverMovesAgainst(steps: seq<Step>, n: nat, id: Key, settings: Settings)
    requires n <= |steps|
    requires forall k :: n <= k <= |steps| ==> StillOpen(Run(FRESH, steps[..k], settings).tables, id)
    ensures var ps := Run(FRESH, steps[..n], settings).tables.positions;
      var qs := Run(FRESH, steps, settings).tables.positions;
      Has(ps, id) && Has(qs, id) && Tightened(ps[RowOf(ps, id)], qs[RowOf(qs, id)])
    decreases |steps|
  {
    assert steps[..|steps|] == steps;
    assert StillOpen(Run(FRESH, steps[..n], settings).tables, id);
    assert StillOpen(Run(FRESH, steps[..|steps|], settings).tables, id);
    if n < |steps| {
      var before := steps[..|steps| - 1];
      assert forall k :: n <= k <= |before| ==> before[..k] == steps[..k];
      hide Next, StoredTerms, HistoryOf, Booked, OpenQty, LegQty, UniqueIds, RowOf;
      ConsumerStopNeverMovesAgainst(before, n, id, settings);
      ConsumerConserves(before, id, settings);
      TermsAreStored(before, id, settings);
      ConsumerStepTightens(Run(FRESH, before, settings), steps[|steps| - 1], id, settings);
    }
  }

  lemma {:induction false} TermsAreStored(steps: seq<Step>, id: Key, settings: Settings)
    ensures StoredTerms(Run(FRESH, steps, settings), id)
    decreases |steps|
  {
    if steps != [] {
      hide Next, StoredTerms;
      var before := steps[..|steps| - 1];
      TermsAreStored(before, id, settings);
      ConsumerConserves(before, id, settings);
      ConsumerStepTightens(Run(FRESH, before, settings), steps[|steps| - 1], id, settings);
    }
  }

  // ------------------------------------------------------------ one position per alpha and symbol

  predicate OpensFor(s: Step, alpha: Key) {
    s.Deliver? && s.m.body.OpenBody? && s.m.body.open.alphaId == alpha
  }

  /** No delivered signal of this alpha opts in to several positions on one symbol. */
  predicate NoOptIn(steps: seq<Step>, alpha: Key) {
    forall i :: 0 <= i < |steps| && OpensFor(steps[i], alpha) ==> !steps[i].m.body.open.allowDuplicate
  }

  lemma WritesKeepOnePerSymbol(t: Tables, ws: seq<Write>, alpha: Key, settings: Settings)
    requires OnePerSymbol(t.positions, alpha) && settings.rejectDuplicates && |ws| <= 1
    requires ws != [] ==> !OptsIn(ws[0].op, alpha)
    ensures OnePerSymbol(AfterWrites(t, ws, settings).positions, alpha)
  {
    if ws != [] {
      StepKeepsOnePerSymbol(t, ws[0].op, alpha, settings);
      assert ws == [ws[0]] && [ws[0]][..0] == [];
      hide OnePerSymbol;
    }
  }

  /** With the reject policy, an alpha whose signals never opt in has at most one open position per symbol, stored
      and seen, whatever the other alphas, torn closes and passes do. */
  lemma {:induction false} ConsumerNeverHoldsTwo(steps: seq<Step>, alpha: Key, settings: Settings)
    requires settings.rejectDuplicates && NoOptIn(steps, alpha)
    ensures OnePerSymbol(Run(FRESH, steps, settings).tables.positions, alpha)
    ensures OnePerSymbol(Stored(Run(FRESH, steps, settings)).positions, alpha)
    decreases |steps|
  {
    if steps != [] {
      var before, last := steps[..|steps| - 1], steps[|steps| - 1];
      assert forall i :: 0 <= i < |before| ==> before[i] == steps[i];
      ConsumerNeverHoldsTwo(before, alpha, settings);
      var d := Run(FRESH, before, settings);
      StepWrites(d, last, settings);
      WritesKeepOnePerSymbol(d.tables, WritesOf(d, last, settings), alpha, settings);
      hide Next, OnePerSymbol, AfterWrites;
    }
  }

  // ---------------------------------------------------------------------- a price-check pass

  /** The closes a pass makes, each at its own fill and each committed. */
  function PassSteps(seen: seq<Position>, quotes: Quotes, fills: Fills, now: int, settings: Settings): seq<Step> {
    if seen == [] then []
    else
      var init, p := PassSteps(seen[..|seen| - 1], quotes, fills, now, settings), seen[|seen| - 1];
      if IsHit(p, quotes) then init + [AutoClose(AutoRequest(p, quotes, fills, now, settings), NoFault, false)]
      else init
  }

  /** From the tables of a database to those of another, with the same signals; whatever it wrote is stored. */
  predicate Passed(d: Db, e: Db, t: Tables) {
    && e.tables == t && e.signals == d.signals
    && (e.saved.None? || (e.saved == d.saved && t == d.tables))
  }

  lemma AutoCloseIsClose(d: Db, e: Db, c: CloseRequest, settings: Settings)
    requires Close(e.tables, c).Ok? && Passed(d, e, e.tables)
    ensures Passed(d, AutoClosed(e, c, NoFault, false, settings), Close(e.tables, c).value)
  {
    hide ClosedTrade;
  }

  lemma RunOneMore(d: Db, steps: seq<Step>, s: Step, settings: Settings)
    ensures Run(d, steps + [s], settings) == Next(Run(d, steps, settings), s, settings)
  {
    hide Next;
    assert (steps + [s])[..|steps|] == steps;
  }

  /** A pass, as far as it gets, is these steps of a run, so whatever holds over runs holds with passes in them. */
  lemma {:induction false} PassIsSteps(d: Db, seen: seq<Position>, quotes: Quotes, fills: Fills, now: int,
                                       settings: Settings)
    requires CloseHits(d.tables, seen, quotes, fills, now, settings).Ok?
    ensures Passed(d, Run(d, PassSteps(seen, quotes, fills, now, settings), settings),
                   CloseHits(d.tables, seen, quotes, fills, now, settings).value)
    decreases |seen|
  {
    if seen != [] {
      var init, p := seen[..|seen| - 1], seen[|seen| - 1];
      PassIsSteps(d, init, quotes, fills, now, settings);
      if IsHit(p, quotes) {
        var steps, c := PassSteps(init, quotes, fills, now, settings), AutoRequest(p, quotes, fills, now, settings);
        AutoCloseIsClose(d, Run(d, steps, settings), c, settings);
        RunOneMore(d, steps, AutoClose(c, NoFault, false), settings);
        hide AutoRequest, Written, IsHit, AutoClosed, Close, Run;
      }
    }
  }
}
