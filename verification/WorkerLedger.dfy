/** The worker's execution ledger: positions and trades, and the operations that signals and
    price checks perform on them.

    Tables are sequences in row order; `positions.position_id` and `trades.trade_id` are
    primary keys.  Each operation is a method that changes the tables in place, proved
    against a function of the old tables. */
module WorkerLedger {
  import opened Wrappers
  import opened Reals
  import opened SessionClock

  type Key = string

  /** `OtherSide` is any string but LONG and SHORT; the fill formula upper-cases it first. */
  datatype Side = Long | Short | OtherSide(upperIsLong: bool)

  datatype Position = Position(
    positionId: Key, alphaId: Key, signalId: Key, symbol: Key, side: Side, entryPrice: real, qty: real,
    tp: Option<real>, sl: Option<real>, openedAt: int, weight: Option<real>, sessionExchange: bool, feePct: real)

  datatype Trade = Trade(
    tradeId: Key, positionId: Key, alphaId: Key, signalId: Key, symbol: Key, side: Side,
    entryPrice: real, exitPrice: real,
    qty: real, pnl: real, pnlPercent: real, fee: real, tp: Option<real>, sl: Option<real>, reason: Key,
    durationHours: real, openedAt: int, closedAt: int)

  datatype Tables = Tables(positions: seq<Position>, trades: seq<Trade>)

  datatype Error =
    | PositionNotFound | DuplicatePosition | StopMovesAgainst | QtyNotPositive | QtyExceedsOpen | PrimaryKeyTaken
    | DatabaseFault

  // ------------------------------------------------------------------------ table lookups

  /** Row of the position with this id, or the row count. */
  function RowOf(ps: seq<Position>, id: Key): (i: nat)
    ensures i <= |ps|
    ensures i < |ps| ==> ps[i].positionId == id
  {
    if ps == [] then 0
    else
      var i := RowOf(ps[..|ps| - 1], id);
      if i < |ps| - 1 then i else if ps[|ps| - 1].positionId == id then |ps| - 1 else |ps|
  }

  predicate Has(ps: seq<Position>, id: Key) { RowOf(ps, id) < |ps| }

  lemma {:induction false} NoRow(ps: seq<Position>, id: Key, k: nat)
    requires !Has(ps, id) && k < |ps|
    ensures ps[k].positionId != id
    decreases |ps|
  {
    if k < |ps| - 1 {
      NoRow(ps[..|ps| - 1], id, k);
    }
  }

  predicate TradeIdTaken(ts: seq<Trade>, id: Key) {
    ts != [] && (ts[|ts| - 1].tradeId == id || TradeIdTaken(ts[..|ts| - 1], id))
  }

  /** The position table's primary key. */
  ghost predicate UniqueIds(ps: seq<Position>) {
    forall i, j :: 0 <= i < j < |ps| ==> ps[i].positionId != ps[j].positionId
  }

  lemma RowIsUnique(ps: seq<Position>, k: nat)
    requires UniqueIds(ps) && k < |ps|
    ensures RowOf(ps, ps[k].positionId) == k
  {
    if !Has(ps, ps[k].positionId) {
      NoRow(ps, ps[k].positionId, k);
    }
  }

  function Without(ps: seq<Position>, i: nat): seq<Position>
    requires i < |ps|
  {
    ps[..i] + ps[i + 1..]
  }

  // ------------------------------------------------------------------------------- prices

  /** Fixed-percentage slippage, always against the trader. */
  function FixedPctFill(price: real, side: Side, slippage: real, isClose: bool): real {
    var slip := price * (slippage / 1000.0);
    if side.Long? || (side.OtherSide? && side.upperIsLong) then (if isClose then price - slip else price + slip)
    else if isClose then price + slip else price - slip
  }

  function Direction(side: Side): real { if side.Long? then 1.0 else -1.0 }

  /** Net profit of qty bought or sold at entry and unwound at exit, fees on both. */
  function LegPnl(side: Side, entry: real, exit: real, qty: real, feePct: real): real {
    (exit - entry) * qty * Direction(side) - (entry + exit) * qty * feePct
  }

  // --------------------------------------------------------------------- closing a position

  function ClosedTrade(p: Position, tradeId: Key, exit: real, qty: real, reason: Key, closedAt: int): Trade {
    var pnl := LegPnl(p.side, p.entryPrice, exit, qty, p.feePct);
    var capital := p.entryPrice * qty;
    Trade(tradeId, p.positionId, p.alphaId, p.signalId, p.symbol, p.side, p.entryPrice, exit, qty, pnl,
          if capital != 0.0 then pnl / capital * 100.0 else 0.0, (p.entryPrice + exit) * qty * p.feePct,
          p.tp, p.sl, reason,
          DurationHours(p.openedAt, closedAt, p.sessionExchange), p.openedAt, closedAt)
  }

  /** What is asked of `close_position`; legId is the id a partial leg would get. */
  datatype CloseRequest = CloseRequest(positionId: Key, exit: real, qty: Option<real>, reason: Key, closedAt: int,
                                       legId: Key)

  function ClosedQty(p: Position, qty: Option<real>): real { if qty.None? then p.qty else Min(qty.value, p.qty) }

  function Remaining(p: Position, qty: Option<real>): real { Max(p.qty - ClosedQty(p, qty), 0.0) }

  predicate FullyClosed(p: Position, qty: Option<real>) { Remaining(p, qty) <= EPSILON }

  /** A missing position or an empty quantity is silently nothing; otherwise one trade is
      inserted and the position is deleted, or kept with what remains of it. */
  function Close(t: Tables, c: CloseRequest): Result<Tables, Error> {
    var i := RowOf(t.positions, c.positionId);
    if i == |t.positions| || ClosedQty(t.positions[i], c.qty) <= 0.0 then Ok(t)
    else
      var p := t.positions[i];
      var tradeId := if FullyClosed(p, c.qty) then p.positionId else c.legId;
      if TradeIdTaken(t.trades, tradeId) then Err(PrimaryKeyTaken)
      else Ok(Tables(
        if FullyClosed(p, c.qty) then Without(t.positions, i) else t.positions[i := p.(qty := Remaining(p, c.qty))],
        t.trades + [ClosedTrade(p, tradeId, c.exit, ClosedQty(p, c.qty), c.reason, c.closedAt)]))
  }

  // ------------------------------------------------------------------------------- signals

  datatype OpenSignal = OpenSignal(
    alphaId: Key, signalId: Key, symbol: Key, side: Side, entry: real, qty: real, tp: Option<real>, sl: Option<real>,
    timestamp: int, positionId: Key, sessionExchange: bool, feePct: real, weight: Option<real>, allowDuplicate: bool)

  /** `metadata` tells whether the signal carries any; merging it touches runtime keys alone, but it is a write. */
  datatype ModifySignal = ModifySignal(positionId: Key, tp: Option<real>, sl: Option<real>, metadata: bool) {
    predicate Writes() { tp.Some? || sl.Some? || metadata }
  }

  datatype CloseSignal = CloseSignal(
    positionId: Key, exitPrice: Option<real>, qty: Option<real>, reason: Key, timestamp: int, refIsExecutable: bool)

  datatype Settings = Settings(slippage: real, rejectDuplicates: bool)

  predicate OpenFor(ps: seq<Position>, alphaId: Key, symbol: Key) {
    exists i :: 0 <= i < |ps| && ps[i].alphaId == alphaId && ps[i].symbol == symbol
  }

  function NewPosition(s: OpenSignal, positionId: Key, fill: real): Position {
    Position(positionId, s.alphaId, s.signalId, s.symbol, s.side, fill, s.qty, s.tp, s.sl, s.timestamp, s.weight,
             s.sessionExchange, s.feePct)
  }

  function FillOr(fill: Option<real>, otherwise: real): real { if fill.Some? then fill.value else otherwise }

  /** `process_open`; newId is the id a signal without one gets. */
  function Open(t: Tables, s: OpenSignal, fill: Option<real>, newId: Key, settings: Settings): Result<Tables, Error> {
    var id := if s.positionId != "" then s.positionId else newId;
    if OpenFor(t.positions, s.alphaId, s.symbol) && settings.rejectDuplicates && !s.allowDuplicate
    then Err(DuplicatePosition)
    else if Has(t.positions, id) then Err(PrimaryKeyTaken)
    else
      var price := FillOr(fill, FixedPctFill(s.entry, s.side, settings.slippage, false));
      Ok(t.(positions := t.positions + [NewPosition(s, id, price)]))
  }

  /** A stop may be set, or moved towards the trade's favour, but not back. */
  predicate StopMayMove(p: Position, sl: Option<real>) {
    sl.Some? && p.sl.Some? ==>
      (p.side.Long? ==> sl.value >= p.sl.value) && (p.side.Short? ==> sl.value <= p.sl.value)
  }

  function Modified(p: Position, s: ModifySignal): Position {
    p.(tp := if s.tp.Some? then s.tp else p.tp, sl := if s.sl.Some? then s.sl else p.sl)
  }

  function Modify(t: Tables, s: ModifySignal): Result<Tables, Error> {
    var i := RowOf(t.positions, s.positionId);
    if i == |t.positions| then Err(PositionNotFound)
    else if !StopMayMove(t.positions[i], s.sl) then Err(StopMovesAgainst)
    else Ok(t.(positions := t.positions[i := Modified(t.positions[i], s)]))
  }

  /** The recorded exit price: the resolved fill, or the reference as it is when it is
      executable, or with slippage.  A missing or zero reference is the entry price. */
  function ExitPrice(s: CloseSignal, p: Position, fill: Option<real>, settings: Settings): real {
    var reference := if s.exitPrice.Some? && s.exitPrice.value != 0.0 then s.exitPrice.value else p.entryPrice;
    FillOr(fill, if s.refIsExecutable then reference else FixedPctFill(reference, p.side, settings.slippage, true))
  }

  function RequestOf(s: CloseSignal, p: Position, fill: Option<real>, legId: Key, settings: Settings): CloseRequest {
    CloseRequest(s.positionId, ExitPrice(s, p, fill, settings), Some(if s.qty.None? then p.qty else s.qty.value),
                 s.reason, s.timestamp, legId)
  }

  /** `process_close`: the quantity checks come before anything is written. */
  function CloseBySignal(t: Tables, s: CloseSignal, fill: Option<real>, legId: Key, settings: Settings)
    : Result<Tables, Error>
  {
    var i := RowOf(t.positions, s.positionId);
    if i == |t.positions| then Err(PositionNotFound)
    else
      var p := t.positions[i];
      var qty := if s.qty.None? then p.qty else s.qty.value;
      if qty <= 0.0 then Err(QtyNotPositive)
      else if qty > p.qty + EPSILON then Err(QtyExceedsOpen)
      else Close(t, RequestOf(s, p, fill, legId, settings))
  }

  // ------------------------------------------------------------------ stops and take-profits

  /** Why a price closes the position: the take-profit is looked at first. */
  function HitReason(p: Position, price: real): Option<Key> {
    if p.side.Long? then
      if p.tp.Some? && price >= p.tp.value then Some("TP_HIT")
      else if p.sl.Some? && price <= p.sl.value then Some("SL_HIT") else None
    else if p.side.Short? then
      if p.tp.Some? && price <= p.tp.value then Some("TP_HIT")
      else if p.sl.Some? && price >= p.sl.value then Some("SL_HIT") else None
    else None
  }

  /** Quotes by symbol and side; none means no price is known. */
  type Quotes = map<(Key, Side), real>

  predicate IsHit(p: Position, quotes: Quotes) {
    (p.symbol, p.side) in quotes && HitReason(p, quotes[(p.symbol, p.side)]).Some?
  }

  /** The places of the positions that are hit, among the first n. */
  function HitPlaces(ps: seq<Position>, quotes: Quotes, n: nat): set<nat> {
    set i: nat | i < n && i < |ps| && IsHit(ps[i], quotes)
  }

  lemma OneMorePlace(ps: seq<Position>, quotes: Quotes, n: nat)
    requires n < |ps|
    ensures |HitPlaces(ps, quotes, n + 1)| == |HitPlaces(ps, quotes, n)| + if IsHit(ps[n], quotes) then 1 else 0
    ensures HitPlaces(ps, quotes, 0) == {}
  {
    hide IsHit;
    var before, after := HitPlaces(ps, quotes, n), HitPlaces(ps, quotes, n + 1);
    if IsHit(ps[n], quotes) {
      assert after == before + {n} && n !in before;
    } else {
      assert after == before;
    }
  }

  /** The fills the resolver returns, by position id; where it is absent or raises, the fixed percentage applies. */
  type Fills = map<Key, real>

  function AutoRequest(p: Position, quotes: Quotes, fills: Fills, now: int, settings: Settings): CloseRequest
    requires IsHit(p, quotes)
  {
    var price := quotes[(p.symbol, p.side)];
    var fill :=
      if p.positionId in fills then fills[p.positionId] else FixedPctFill(price, p.side, settings.slippage, true);
    CloseRequest(p.positionId, fill, None, HitReason(p, price).value, now, "")
  }

  /** One pass over the positions that were open when it began. */
  function CloseHits(t: Tables, seen: seq<Position>, quotes: Quotes, fills: Fills, now: int, settings: Settings)
    : Result<Tables, Error>
  {
    if seen == [] then Ok(t)
    else
      match CloseHits(t, seen[..|seen| - 1], quotes, fills, now, settings)
      case Err(e) => Err(e)
      case Ok(u) =>
        if !IsHit(seen[|seen| - 1], quotes) then Ok(u)
        else Close(u, AutoRequest(seen[|seen| - 1], quotes, fills, now, settings))
  }

  // --------------------------------------------------------------------------- the database

  /** Which write of an operation the database refuses, if any. */
  datatype WriteFault = NoFault | FirstWrite | SecondWrite

  class Database {
    var positions: seq<Position>
    var trades: seq<Trade>

    function Contents(): Tables
      reads this
    {
      Tables(positions, trades)
    }

    constructor ()
      ensures Contents() == Tables([], [])
    {
      positions, trades := [], [];
    }

    /** Two writes, not a transaction of their own: if the second fails, the trade is there
        and the position is still open. */
    method ClosePosition(c: CloseRequest, fault: WriteFault) returns (r: Result<bool, Error>)
      modifies this
      ensures r.Ok? ==> Close(old(Contents()), c) == Ok(Contents()) && r.value == (trades != old(trades))
      ensures r.Ok? <==>
        Close(old(Contents()), c).Ok? && (fault.NoFault? || Close(old(Contents()), c).value == old(Contents()))
      ensures Close(old(Contents()), c).Err? ==> r == Err(Close(old(Contents()), c).error)
      ensures r.Err? && !fault.SecondWrite? ==> Contents() == old(Contents())
      ensures r.Err? && fault.SecondWrite? ==>
        positions == old(positions) &&
        trades == if Close(old(Contents()), c).Ok? then Close(old(Contents()), c).value.trades else old(trades)
    {
      var i := RowOf(positions, c.positionId);
      if i == |positions| {
        return Ok(false);
      }
      var p := positions[i];
      var qty := ClosedQty(p, c.qty);
      if qty <= 0.0 {
        return Ok(false);
      }
      var remaining := Max(p.qty - qty, 0.0);
      var full := remaining <= EPSILON;
      var tradeId := if full then p.positionId else c.legId;
      if TradeIdTaken(trades, tradeId) {
        return Err(PrimaryKeyTaken);
      }
      if fault.FirstWrite? {
        return Err(DatabaseFault);
      }
      trades := trades + [ClosedTrade(p, tradeId, c.exit, qty, c.reason, c.closedAt)];
      if fault.SecondWrite? {
        return Err(DatabaseFault);
      }
      if full {
        positions := Without(positions, i);
      } else {
        positions := positions[i := p.(qty := remaining)];
      }
      r := Ok(true);
    }

    method ProcessOpen(s: OpenSignal, fill: Option<real>, newId: Key, settings: Settings, fault: WriteFault)
      returns (r: Result<bool, Error>)
      modifies this
      ensures r.Ok? ==> Open(old(Contents()), s, fill, newId, settings) == Ok(Contents()) && r.value
      ensures r.Err? ==> Contents() == old(Contents())
      ensures r.Ok? <==> Open(old(Contents()), s, fill, newId, settings).Ok? && !fault.FirstWrite?
    {
      if OpenFor(positions, s.alphaId, s.symbol) {
        if settings.rejectDuplicates && !s.allowDuplicate {
          return Err(DuplicatePosition);
        }
      }
      var price := FillOr(fill, FixedPctFill(s.entry, s.side, settings.slippage, false));
      var id := if s.positionId != "" then s.positionId else newId;
      if Has(positions, id) {
        return Err(PrimaryKeyTaken);
      }
      if fault.FirstWrite? {
        return Err(DatabaseFault);
      }
      positions := positions + [NewPosition(s, id, price)];
      r := Ok(true);
    }

    method ProcessModify(s: ModifySignal, fault: WriteFault) returns (r: Result<bool, Error>)
      modifies this
      ensures r.Ok? ==> Modify(old(Contents()), s) == Ok(Contents()) && r.value
      ensures r.Err? ==> Contents() == old(Contents())
      ensures r.Ok? <==> Modify(old(Contents()), s).Ok? && !(fault.FirstWrite? && s.Writes())
    {
      var i := RowOf(positions, s.positionId);
      if i == |positions| {
        return Err(PositionNotFound);
      }
      var p := positions[i];
      if s.sl.Some? && p.sl.Some? {
        if p.side.Long? && s.sl.value < p.sl.value {
          return Err(StopMovesAgainst);
        }
        if p.side.Short? && s.sl.value > p.sl.value {
          return Err(StopMovesAgainst);
        }
      }
      if !s.Writes() {
        assert positions[i := Modified(p, s)] == positions;
        return Ok(true);
      }
      if fault.FirstWrite? {
        return Err(DatabaseFault);
      }
      if s.tp.Some? {
        p := p.(tp := s.tp);
      }
      if s.sl.Some? {
        p := p.(sl := s.sl);
      }
      positions := positions[i := p];
      r := Ok(true);
    }

    method ProcessClose(s: CloseSignal, fill: Option<real>, legId: Key, settings: Settings, fault: WriteFault)
      returns (r: Result<bool, Error>)
      modifies this
      ensures r.Ok? ==> CloseBySignal(old(Contents()), s, fill, legId, settings) == Ok(Contents())
      ensures r.Ok? ==> r.value == (trades != old(trades))
      ensures r.Ok? <==>
        CloseBySignal(old(Contents()), s, fill, legId, settings).Ok? &&
        (fault.NoFault? || CloseBySignal(old(Contents()), s, fill, legId, settings).value == old(Contents()))
      ensures r.Err? && !fault.SecondWrite? ==> Contents() == old(Contents())
      ensures r.Err? && CloseBySignal(old(Contents()), s, fill, legId, settings).Err? ==> Contents() == old(Contents())
      ensures r.Err? && fault.SecondWrite? && CloseBySignal(old(Contents()), s, fill, legId, settings).Ok? ==>
        positions == old(positions) && trades == CloseBySignal(old(Contents()), s, fill, legId, settings).value.trades
    {
      var i := RowOf(positions, s.positionId);
      if i == |positions| {
        return Err(PositionNotFound);
      }
      var p := positions[i];
      var qty := if s.qty.None? then p.qty else s.qty.value;
      if qty <= 0.0 {
        return Err(QtyNotPositive);
      }
      if qty > p.qty + EPSILON {
        return Err(QtyExceedsOpen);
      }
      r := ClosePosition(RequestOf(s, p, fill, legId, settings), fault);
    }

    /** The price-check pass: the positions are read once, then closed one by one, each close committed by
        itself.  A close that raises ends the pass; what was closed before it stays closed. */
    method CheckTpslHits(quotes: Quotes, fills: Fills, now: int, settings: Settings)
      returns (r: Result<nat, Error>, seenTo: nat)
      modifies this
      ensures seenTo <= |old(positions)|
      ensures CloseHits(old(Contents()), old(positions)[..seenTo], quotes, fills, now, settings) == Ok(Contents())
      ensures r.Ok? <==> CloseHits(old(Contents()), old(positions), quotes, fills, now, settings).Ok?
      ensures r.Ok? ==> seenTo == |old(positions)| && r.value == |HitPlaces(old(positions), quotes, seenTo)|
      ensures r.Err? ==> seenTo < |old(positions)|
      ensures r.Err? ==>
        CloseHits(old(Contents()), old(positions)[..seenTo + 1], quotes, fills, now, settings) == Err(r.error)
    {
      var seen, hits := positions, 0;
      ghost var start := Contents();
      for k := 0 to |seen|
        invariant CloseHits(start, seen[..k], quotes, fills, now, settings) == Ok(Contents())
        invariant hits == |HitPlaces(seen, quotes, k)|
      {
        OneMorePlace(seen, quotes, k);
        var p := seen[k];
        ghost var upto := seen[..k + 1];
        assert upto[..|upto| - 1] == seen[..k] && upto[|upto| - 1] == p;
        if IsHit(p, quotes) {
          var closed := ClosePosition(AutoRequest(p, quotes, fills, now, settings), NoFault);
          if closed.Err? {
            HitsStayFailed(start, seen, k + 1, quotes, fills, now, settings);
            return Err(closed.error), k;
          }
          hits := hits + 1;
        }
      }
      assert seen[..|seen|] == seen;
      return Ok(hits), |seen|;
    }
  }

  lemma {:induction false} HitsStayFailed(t: Tables, seen: seq<Position>, k: nat, quotes: Quotes, fills: Fills,
                                          now: int, settings: Settings)
    requires k <= |seen| && CloseHits(t, seen[..k], quotes, fills, now, settings).Err?
    ensures CloseHits(t, seen, quotes, fills, now, settings).Err?
    decreases |seen|
  {
    if k == |seen| {
      assert seen[..k] == seen;
    } else {
      assert seen[..|seen| - 1][..k] == seen[..k];
      HitsStayFailed(t, seen[..|seen| - 1], k, quotes, fills, now, settings);
    }
  }
}
