/** The candidate database a recovery ledger is applied to, entry by entry, in one transaction. */
module RecoveryCandidate {
  import opened Wrappers

  datatype Side = Long | Short

  /** Position ids: random ones, and those derived from a recovery point. */
  datatype Id = Live(n: nat) | Derived(alpha: nat, candle: int, symbol: nat, side: Side)

  /** Signal ids: foreign ones, and the hash of a logical signal. */
  datatype SignalId =
    | Foreign(n: nat)
    | Logical(alpha: nat, version: nat, isOpen: bool, symbol: nat, timeframe: nat, side: Option<Side>, target: Id,
              candle: int)

  /** The two metadata fields that recovery reads back. */
  datatype Meta = Meta(leverage: Option<real>, decision: Option<real>)

  datatype PositionRow = PositionRow(id: Id, alpha: nat, sid: SignalId, symbol: nat, side: Side, entry: real,
                                     qty: real, tp: Option<real>, sl: Option<real>, openedAt: int, meta: Meta,
                                     fee: Option<real>)

  datatype TradeRow = TradeRow(position: Id, alpha: nat, sid: SignalId, symbol: nat, side: Side, entry: real,
                               exit: real,
                               qty: real, pnl: real, pnlPercent: real, tp: Option<real>, sl: Option<real>,
                               hours: real, openedAt: int, closedAt: int, fee: real)

  datatype SignalRow = SignalRow(sid: SignalId, alpha: nat, isOpen: bool, symbol: nat, position: Id,
                                 candle: Option<int>)

  /** Positions in row order; trades by trade id; signals by their running number. */
  datatype Tables = Tables(positions: seq<PositionRow>, trades: map<Id, TradeRow>, signals: map<nat, SignalRow>,
                           next: nat)

  datatype Entry =
    | CloseEntry(alpha: nat, sid: SignalId, pid: Id, symbol: nat, side: Side, price: real, candle: int, eventAt: int,
                 fee: real)
    | OpenEntry(alpha: nat, sid: SignalId, pid: Id, symbol: nat, side: Side, price: real, qty: real, weight: real,
                leverage: real, candle: int, eventAt: int, fee: real)

  datatype Error = MissingPosition(id: Id) | IdentityMismatch(id: Id) | Integrity(id: Id)

  // ------------------------------------------------------------------------- table lookups

  function RowById(rows: seq<PositionRow>, id: Id): Option<PositionRow> {
    if rows == [] then None
    else if rows[|rows| - 1].id == id then Some(rows[|rows| - 1])
    else RowById(rows[..|rows| - 1], id)
  }

  /** The rows whose id is not among those given. */
  function Keep(rows: seq<PositionRow>, gone: set<Id>): seq<PositionRow> {
    if rows == [] then []
    else
      var init, last := Keep(rows[..|rows| - 1], gone), rows[|rows| - 1];
      if last.id in gone then init else init + [last]
  }

  /** The primary key. */
  predicate UniqueIds(rows: seq<PositionRow>) {
    rows == [] || (UniqueIds(rows[..|rows| - 1]) && RowById(rows[..|rows| - 1], rows[|rows| - 1].id).None?)
  }

  lemma {:induction false} FoundIsRow(rows: seq<PositionRow>, id: Id)
    ensures RowById(rows, id).Some? ==> RowById(rows, id).value in rows && RowById(rows, id).value.id == id
    decreases |rows|
  {
    if rows != [] && rows[|rows| - 1].id != id {
      FoundIsRow(rows[..|rows| - 1], id);
    }
  }

  lemma {:induction false} RowIsFound(rows: seq<PositionRow>, r: PositionRow)
    requires UniqueIds(rows) && r in rows
    ensures RowById(rows, r.id) == Some(r)
    decreases |rows|
  {
    if r in rows[..|rows| - 1] {
      RowIsFound(rows[..|rows| - 1], r);
    }
  }

  // ----------------------------------------------------------------------------- fill and pnl

  const TICKS_PER_HOUR: real := 3600000000.0

  function FixedFill(price: real, side: Side, slippage: real, isClose: bool): real {
    var slip := price * (slippage / 1000.0);
    if (side == Long) == isClose then price - slip else price + slip
  }

  function Direction(side: Side): real { if side == Long then 1.0 else -1.0 }

  /** A stored rate that is absent or zero gives way to the entry's. */
  function Rate(stored: Option<real>, other: real): real {
    if stored.Some? && stored.value != 0.0 then stored.value else other
  }

  function TradeOf(row: PositionRow, e: Entry, slippage: real): TradeRow
    requires e.CloseEntry?
  {
    var exit := FixedFill(e.price, e.side, slippage, true);
    var fee := (row.entry + exit) * row.qty * Rate(row.fee, e.fee);
    var pnl := (exit - row.entry) * row.qty * Direction(e.side) - fee;
    var capital := row.entry * row.qty;
    TradeRow(e.pid, e.alpha, row.sid, e.symbol, e.side, row.entry, exit, row.qty, pnl,
             if capital != 0.0 then pnl / capital * 100.0 else 0.0, row.tp, row.sl,
             (e.eventAt - row.openedAt) as real / TICKS_PER_HOUR, row.openedAt, e.eventAt, fee)
  }

  function RowOf(e: Entry, slippage: real): PositionRow
    requires e.OpenEntry?
  {
    PositionRow(e.pid, e.alpha, e.sid, e.symbol, e.side, FixedFill(e.price, e.side, slippage, false), e.qty, None, None,
                e.eventAt, Meta(Some(e.leverage), Some(e.price)), Some(e.fee))
  }

  /** A recovered trip at one decision price always costs: twice the slip, plus the fee on both fills. */
  lemma RecoveredTripCosts(open: Entry, close: Entry, slippage: real)
    requires open.OpenEntry? && close.CloseEntry? && close.price == open.price && close.side == open.side
    ensures var trade := TradeOf(RowOf(open, slippage), close, slippage);
      && trade.pnl == -(2.0 * open.price * open.qty * (slippage / 1000.0)) - trade.fee
      && trade.fee == 2.0 * open.price * open.qty * Rate(Some(open.fee), close.fee)
  {
  }

  // ---------------------------------------------------------------------------- the entries

  function SignalOf(e: Entry): SignalRow { SignalRow(e.sid, e.alpha, e.OpenEntry?, e.symbol, e.pid, Some(e.candle)) }

  /** Applying one entry: `known` are the rows of the alpha table, which trades and positions refer to. */
  function Apply(known: set<nat>, t: Tables, e: Entry, slippage: real): Result<Tables, Error> {
    var signals := t.signals[t.next := SignalOf(e)];
    match e
    case CloseEntry(_, _, _, _, _, _, _, _, _) =>
      var found := RowById(t.positions, e.pid);
      if found.None? then Err(MissingPosition(e.pid))
      else if found.value.alpha != e.alpha || found.value.symbol != e.symbol || found.value.side != e.side then
        Err(IdentityMismatch(e.pid))
      else if e.pid in t.trades || e.alpha !in known then Err(Integrity(e.pid))
      else
        Ok(Tables(Keep(t.positions, {e.pid}), t.trades[e.pid := TradeOf(found.value, e, slippage)], signals,
                  t.next + 1))
    case OpenEntry(_, _, _, _, _, _, _, _, _, _, _, _) =>
      if RowById(t.positions, e.pid).Some? || e.alpha !in known then Err(Integrity(e.pid))
      else Ok(Tables(t.positions + [RowOf(e, slippage)], t.trades, signals, t.next + 1))
  }

  /** The candidate, or the first failure. */
  function ApplyAll(known: set<nat>, t: Tables, es: seq<Entry>, slippage: real): Result<Tables, Error> {
    if es == [] then Ok(t)
    else
      var before := ApplyAll(known, t, es[..|es| - 1], slippage);
      if before.Ok? then Apply(known, before.value, es[|es| - 1], slippage) else before
  }

  lemma {:induction false} ApplyConcat(known: set<nat>, t: Tables, a: seq<Entry>, b: seq<Entry>, slippage: real)
    requires ApplyAll(known, t, a, slippage).Ok?
    ensures ApplyAll(known, t, a + b, slippage) == ApplyAll(known, ApplyAll(known, t, a, slippage).value, b, slippage)
    decreases |b|
  {
    hide Apply;
    if b == [] {
      assert a + b == a;
    } else {
      assert (a + b)[..|a + b| - 1] == a + b[..|b| - 1];
      ApplyConcat(known, t, a, b[..|b| - 1], slippage);
    }
  }

  /** A failure stays a failure, whatever follows. */
  lemma {:induction false} FailureStays(known: set<nat>, t: Tables, a: seq<Entry>, b: seq<Entry>, slippage: real)
    requires ApplyAll(known, t, a, slippage).Err?
    ensures ApplyAll(known, t, a + b, slippage) == ApplyAll(known, t, a, slippage)
    decreases |b|
  {
    hide Apply;
    if b == [] {
      assert a + b == a;
    } else {
      assert (a + b)[..|a + b| - 1] == a + b[..|b| - 1];
      FailureStays(known, t, a, b[..|b| - 1], slippage);
    }
  }

  // -------------------------------------------------------------------- the database in place

  class Candidate {
    const known: set<nat>
    const slippage: real
    var positions: seq<PositionRow>
    var trades: map<Id, TradeRow>
    var signals: map<nat, SignalRow>
    var next: nat

    /** A copy of the source database. */
    constructor (known: set<nat>, source: Tables, slippage: real)
      ensures this.known == known && this.slippage == slippage && Now() == source
    {
      this.known, this.slippage := known, slippage;
      positions, trades, signals, next := source.positions, source.trades, source.signals, source.next;
    }

    function Now(): Tables
      reads this
    {
      Tables(positions, trades, signals, next)
    }

    method InsertSignal(e: Entry)
      modifies `signals, `next
      ensures signals == old(signals)[old(next) := SignalOf(e)] && next == old(next) + 1
    {
      signals, next := signals[next := SignalOf(e)], next + 1;
    }

    /** May leave the audit row behind when it fails; the transaction around it then rolls back. */
    method ApplyClose(e: Entry) returns (failure: Option<Error>)
      requires e.CloseEntry?
      modifies this
      ensures var done := Apply(known, old(Now()), e, slippage);
        if done.Ok? then failure.None? && Now() == done.value else failure == Some(done.error)
    {
      var found := RowById(positions, e.pid);
      if found.None? {
        return Some(MissingPosition(e.pid));
      }
      var row := found.value;
      if row.alpha != e.alpha || row.symbol != e.symbol || row.side != e.side {
        return Some(IdentityMismatch(e.pid));
      }
      InsertSignal(e);
      if e.pid in trades || e.alpha !in known {
        return Some(Integrity(e.pid));
      }
      trades := trades[e.pid := TradeOf(row, e, slippage)];
      positions := Keep(positions, {e.pid});
      failure := None;
    }

    method ApplyOpen(e: Entry) returns (failure: Option<Error>)
      requires e.OpenEntry?
      modifies this
      ensures var done := Apply(known, old(Now()), e, slippage);
        if done.Ok? then failure.None? && Now() == done.value else failure == Some(done.error)
    {
      InsertSignal(e);
      if RowById(positions, e.pid).Some? || e.alpha !in known {
        return Some(Integrity(e.pid));
      }
      positions := positions + [RowOf(e, slippage)];
      failure := None;
    }

    /** All of the ledger, or none of it. */
    method BuildMainCandidate(entries: seq<Entry>) returns (failure: Option<Error>)
      modifies this
      ensures var done := ApplyAll(known, old(Now()), entries, slippage);
        if done.Ok? then failure.None? && Now() == done.value else failure == Some(done.error) && Now() == old(Now())
    {
      hide Apply;
      var saved := Now();
      for k := 0 to |entries|
        invariant ApplyAll(known, saved, entries[..k], slippage) == Ok(Now())
      {
        assert entries[..k + 1][..k] == entries[..k];
        assert entries[..k + 1][k] == entries[k];
        if entries[k].CloseEntry? {
          failure := ApplyClose(entries[k]);
        } else {
          failure := ApplyOpen(entries[k]);
        }
        if failure.Some? {
          assert entries == entries[..k + 1] + entries[k + 1..];
          FailureStays(known, saved, entries[..k + 1], entries[k + 1..], slippage);
          positions, trades, signals, next := saved.positions, saved.trades, saved.signals, saved.next;
          return;
        }
      }
      assert entries[..|entries|] == entries;
      failure := None;
    }
  }

  // --------------------------------------------------------- what any applied ledger respects

  ghost predicate Extends<K, V>(a: map<K, V>, b: map<K, V>) { forall k :: k in a ==> k in b && b[k] == a[k] }

  /** Running numbers are handed out in order. */
  ghost predicate Numbered(t: Tables) { forall n :: n in t.signals ==> n < t.next }

  /** The rows of alphas outside the given set. */
  function OffBook(rows: seq<PositionRow>, alphas: set<nat>): seq<PositionRow> {
    if rows == [] then []
    else
      var init, last := OffBook(rows[..|rows| - 1], alphas), rows[|rows| - 1];
      if last.alpha in alphas then init else init + [last]
  }

  function AlphasOf(es: seq<Entry>): set<nat> {
    if es == [] then {} else AlphasOf(es[..|es| - 1]) + {es[|es| - 1].alpha}
  }

  lemma {:induction false} IdAfterKeep(rows: seq<PositionRow>, gone: set<Id>, id: Id)
    ensures RowById(Keep(rows, gone), id) == if id in gone then None else RowById(rows, id)
    decreases |rows|
  {
    if rows != [] {
      IdAfterKeep(rows[..|rows| - 1], gone, id);
      var kept := Keep(rows[..|rows| - 1], gone);
      assert (kept + [rows[|rows| - 1]])[..|kept|] == kept;
    }
  }

  lemma {:induction false} KeepUnique(rows: seq<PositionRow>, gone: set<Id>)
    requires UniqueIds(rows)
    ensures UniqueIds(Keep(rows, gone))
    decreases |rows|
  {
    if rows != [] {
      KeepUnique(rows[..|rows| - 1], gone);
      IdAfterKeep(rows[..|rows| - 1], gone, rows[|rows| - 1].id);
      var kept := Keep(rows[..|rows| - 1], gone);
      assert (kept + [rows[|rows| - 1]])[..|kept|] == kept;
    }
  }

  /** Removing one row disturbs no alpha but its own. */
  lemma {:induction false} KeepOffBook(rows: seq<PositionRow>, id: Id, alphas: set<nat>)
    requires UniqueIds(rows)
    requires RowById(rows, id).Some? ==> RowById(rows, id).value.alpha in alphas
    ensures OffBook(Keep(rows, {id}), alphas) == OffBook(rows, alphas)
    decreases |rows|
  {
    if rows != [] {
      var init, last := rows[..|rows| - 1], rows[|rows| - 1];
      if last.id == id {
        KeepAbsent(init, id);
      } else {
        KeepOffBook(init, id, alphas);
        var kept := Keep(init, {id});
        assert (kept + [last])[..|kept|] == kept;
      }
    }
  }

  lemma {:induction false} KeepAbsent(rows: seq<PositionRow>, id: Id)
    requires RowById(rows, id).None?
    ensures Keep(rows, {id}) == rows
    decreases |rows|
  {
    if rows != [] {
      KeepAbsent(rows[..|rows| - 1], id);
    }
  }

  lemma {:induction false} WiderScope(rows: seq<PositionRow>, more: seq<PositionRow>, a: set<nat>, b: set<nat>)
    requires OffBook(rows, a) == OffBook(more, a)
    ensures OffBook(rows, a + b) == OffBook(more, a + b)
  {
    OffBookTwice(rows, a, b);
    OffBookTwice(more, a, b);
  }

  lemma {:induction false} OffBookTwice(rows: seq<PositionRow>, a: set<nat>, b: set<nat>)
    ensures OffBook(OffBook(rows, a), b) == OffBook(rows, a + b)
    decreases |rows|
  {
    if rows != [] {
      OffBookTwice(rows[..|rows| - 1], a, b);
      var init := OffBook(rows[..|rows| - 1], a);
      assert (init + [rows[|rows| - 1]])[..|init|] == init;
    }
  }

  lemma ApplyRespects(known: set<nat>, t: Tables, e: Entry, slippage: real)
    requires UniqueIds(t.positions) && Numbered(t) && Apply(known, t, e, slippage).Ok?
    ensures var after := Apply(known, t, e, slippage).value;
      && UniqueIds(after.positions) && Numbered(after)
      && Extends(t.trades, after.trades) && Extends(t.signals, after.signals)
      && OffBook(after.positions, {e.alpha}) == OffBook(t.positions, {e.alpha})
  {
    if e.CloseEntry? {
      KeepUnique(t.positions, {e.pid});
      KeepOffBook(t.positions, e.pid, {e.alpha});
    } else {
      var row := RowOf(e, slippage);
      assert (t.positions + [row])[..|t.positions|] == t.positions;
    }
  }

  /** Whatever ledger was applied: history only grew, and only the ledger's alphas' positions moved. */
  lemma {:induction false} CandidateExtends(known: set<nat>, t: Tables, es: seq<Entry>, slippage: real)
    requires UniqueIds(t.positions) && Numbered(t) && ApplyAll(known, t, es, slippage).Ok?
    ensures var after := ApplyAll(known, t, es, slippage).value;
      && UniqueIds(after.positions) && Numbered(after)
      && Extends(t.trades, after.trades) && Extends(t.signals, after.signals)
      && OffBook(after.positions, AlphasOf(es)) == OffBook(t.positions, AlphasOf(es))
    decreases |es|
  {
    if es != [] {
      hide Apply;
      var init, last := es[..|es| - 1], es[|es| - 1];
      CandidateExtends(known, t, init, slippage);
      var mid := ApplyAll(known, t, init, slippage).value;
      ApplyRespects(known, mid, last, slippage);
      var after := ApplyAll(known, t, es, slippage).value;
      WiderScope(mid.positions, t.positions, AlphasOf(init), {last.alpha});
      WiderScope(after.positions, mid.positions, {last.alpha}, AlphasOf(init));
      assert {last.alpha} + AlphasOf(init) == AlphasOf(es);
    }
  }

  /** Some signal of this alpha names this candle: what makes a recovery point not missing. */
  ghost predicate Taken(t: Tables, alpha: nat, candle: int) {
    exists n :: n in t.signals && t.signals[n].alpha == alpha && t.signals[n].candle == Some(candle)
  }

  /** After a ledger is applied, each point it has an entry for is taken, so replaying it again is refused. */
  lemma {:induction false} AppliedPointsAreTaken(known: set<nat>, t: Tables, es: seq<Entry>, slippage: real, k: nat)
    requires UniqueIds(t.positions) && Numbered(t) && ApplyAll(known, t, es, slippage).Ok? && k < |es|
    ensures Taken(ApplyAll(known, t, es, slippage).value, es[k].alpha, es[k].candle)
    decreases |es|
  {
    var init, last := es[..|es| - 1], es[|es| - 1];
    CandidateExtends(known, t, init, slippage);
    var mid := ApplyAll(known, t, init, slippage).value;
    var after := Apply(known, mid, last, slippage).value;
    if k < |es| - 1 {
      AppliedPointsAreTaken(known, t, init, slippage, k);
      ApplyRespects(known, mid, last, slippage);
      var n :| n in mid.signals && mid.signals[n].alpha == es[k].alpha && mid.signals[n].candle == Some(es[k].candle);
      assert n in after.signals && after.signals[n] == mid.signals[n];
    } else {
      assert mid.next in after.signals && after.signals[mid.next] == SignalOf(last);
    }
  }
}
