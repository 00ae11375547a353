/** What each operation of the execution ledger does to the rows, spelled out: when it is refused, which row it
    writes and what every column of it says. */
module LedgerEffects {
  import opened Wrappers
  import opened WorkerLedger
  import opened WorkerConservation
  import SessionClock

  /** Position k is the one with this id. */
  predicate At(ps: seq<Position>, k: nat, id: Key) { k < |ps| && ps[k].positionId == id }

  predicate Absent(ps: seq<Position>, id: Key) { forall k :: 0 <= k < |ps| ==> ps[k].positionId != id }

  lemma AtIsRow(ps: seq<Position>, k: nat, id: Key)
    requires UniqueIds(ps) && At(ps, k, id)
    ensures RowOf(ps, id) == k
  {
    RowIsUnique(ps, k);
  }

  lemma AbsentIsNone(ps: seq<Position>, id: Key)
    ensures Absent(ps, id) <==> RowOf(ps, id) == |ps|
  {
    if RowOf(ps, id) == |ps| {
      forall k | 0 <= k < |ps| ensures ps[k].positionId != id { NoRow(ps, id, k); }
    }
  }

  /** The price after a slip against the trader; the side counts as a long if it reads LONG in capitals. */
  predicate IsSlipped(x: real, price: real, side: Side, slippage: real, isClose: bool) {
    var up := (side == Long || side == OtherSide(true)) != isClose;
    x == if up then price + price * (slippage / 1000.0) else price - price * (slippage / 1000.0)
  }

  // ------------------------------------------------------------------------- open and modify

  predicate HoldsSymbol(ps: seq<Position>, alpha: Key, symbol: Key) {
    exists k :: 0 <= k < |ps| && ps[k].alphaId == alpha && ps[k].symbol == symbol
  }

  /** An open is refused exactly for a second position that the policy rejects, or a taken id; otherwise it appends
      one row with the signal's terms at the resolved fill, or at its entry price with the slip against it. */
  lemma OpenMeans(t: Tables, s: OpenSignal, fill: Option<real>, newId: Key, settings: Settings)
    ensures var r, id := Open(t, s, fill, newId, settings), if s.positionId == "" then newId else s.positionId;
      var rejected := settings.rejectDuplicates && !s.allowDuplicate && HoldsSymbol(t.positions, s.alphaId, s.symbol);
      && (r.Ok? <==> !rejected && Absent(t.positions, id))
      && (r.Err? ==> r.error == if rejected then DuplicatePosition else PrimaryKeyTaken)
      && (r.Ok? ==> r.value.trades == t.trades && IsAppended(t.positions, r.value.positions, s, id, fill, settings))
  {
    hide FixedPctFill;
    AbsentIsNone(t.positions, if s.positionId == "" then newId else s.positionId);
    Slips(s.entry, s.side, settings.slippage, false);
  }

  lemma Slips(price: real, side: Side, slippage: real, isClose: bool)
    ensures IsSlipped(FixedPctFill(price, side, slippage, isClose), price, side, slippage, isClose)
  {
  }

  predicate IsAppended(before: seq<Position>, after: seq<Position>, s: OpenSignal, id: Key, fill: Option<real>,
                       settings: Settings)
  {
    && |after| == |before| + 1 && after[..|before|] == before
    && var p := after[|before|];
    && p == Position(id, s.alphaId, s.signalId, s.symbol, s.side, p.entryPrice, s.qty, s.tp, s.sl, s.timestamp,
                     s.weight, s.sessionExchange, s.feePct)
    && (if fill.Some? then p.entryPrice == fill.value
        else IsSlipped(p.entryPrice, s.entry, s.side, settings.slippage, false))
  }

  predicate MovesAgainst(p: Position, sl: Option<real>) {
    sl.Some? && p.sl.Some? && ((p.side == Long && sl.value < p.sl.value) || (p.side == Short && sl.value > p.sl.value))
  }

  /** A modify sets the target and the stop it names on its row and nothing else, unless the stop would move against
      the position. */
  lemma ModifyMeans(t: Tables, s: ModifySignal, k: nat)
    requires UniqueIds(t.positions) && At(t.positions, k, s.positionId)
    ensures Modify(t, s) ==
      if MovesAgainst(t.positions[k], s.sl) then Err(StopMovesAgainst)
      else Ok(Tables(t.positions[k := t.positions[k].(tp := if s.tp.Some? then s.tp else t.positions[k].tp,
                                                      sl := if s.sl.Some? then s.sl else t.positions[k].sl)], t.trades))
  {
    AtIsRow(t.positions, k, s.positionId);
  }

  lemma ModifyNeedsPosition(t: Tables, s: ModifySignal)
    requires Absent(t.positions, s.positionId)
    ensures Modify(t, s) == Err(PositionNotFound)
  {
    AbsentIsNone(t.positions, s.positionId);
  }

  // ----------------------------------------------------------------------------------- close

  predicate TradeAt(ts: seq<Trade>, id: Key) { exists k :: 0 <= k < |ts| && ts[k].tradeId == id }

  lemma {:induction false} TradeAtIsTaken(ts: seq<Trade>, id: Key)
    ensures TradeIdTaken(ts, id) <==> TradeAt(ts, id)
    decreases |ts|
  {
    if ts != [] {
      var init := ts[..|ts| - 1];
      TradeAtIsTaken(init, id);
      if TradeAt(init, id) {
        var k :| 0 <= k < |init| && init[k].tradeId == id;
        assert ts[k].tradeId == id;
      }
    }
  }

  /** The trade of a quantity of a position: profit of the price move after a fee on both fills. */
  predicate IsLeg(x: Trade, p: Position, id: Key, qty: real, exit: real, reason: Key, closedAt: int) {
    && x.tradeId == id && x.positionId == p.positionId && x.alphaId == p.alphaId && x.signalId == p.signalId
    && x.symbol == p.symbol && x.side == p.side && x.entryPrice == p.entryPrice && x.exitPrice == exit && x.qty == qty
    && x.fee == (p.entryPrice + exit) * qty * p.feePct
    && x.pnl == (if p.side == Long then exit - p.entryPrice else p.entryPrice - exit) * qty - x.fee
    && x.pnlPercent == (if p.entryPrice * qty != 0.0 then x.pnl / (p.entryPrice * qty) * 100.0 else 0.0)
    && x.tp == p.tp && x.sl == p.sl && x.reason == reason && x.openedAt == p.openedAt && x.closedAt == closedAt
    && x.durationHours == SessionClock.DurationHours(p.openedAt, closedAt, p.sessionExchange)
  }

  lemma ClosedTradeSays(p: Position, id: Key, exit: real, qty: real, reason: Key, closedAt: int)
    ensures IsLeg(ClosedTrade(p, id, exit, qty, reason, closedAt), p, id, qty, exit, reason, closedAt)
  {
  }

  /** A close of `qty` of position k: it leaves the book when no more than a rounding remainder is left. */
  ghost predicate IsClosed(t: Tables, u: Tables, k: nat, qty: real, c: CloseRequest)
    requires k < |t.positions|
  {
    var p := t.positions[k];
    var full := p.qty - qty <= 0.000000000001;
    && u.positions == (if full then t.positions[..k] + t.positions[k + 1..]
                       else t.positions[k := p.(qty := p.qty - qty)])
    && |u.trades| == |t.trades| + 1 && u.trades[..|t.trades|] == t.trades
    && IsLeg(u.trades[|t.trades|], p, if full then p.positionId else c.legId, qty, c.exit, c.reason, c.closedAt)
  }

  /** Nothing without a position or a quantity; otherwise the smaller of the open quantity and the one asked for,
      refused only if the trade's id is taken. */
  lemma CloseMeans(t: Tables, c: CloseRequest, k: nat)
    requires UniqueIds(t.positions) && At(t.positions, k, c.positionId)
    ensures var p, r := t.positions[k], Close(t, c);
      var qty := if c.qty.None? || c.qty.value > p.qty then p.qty else c.qty.value;
      var id := if p.qty - qty <= 0.000000000001 then p.positionId else c.legId;
      if qty <= 0.0 then r == Ok(t)
      else if TradeAt(t.trades, id) then r == Err(PrimaryKeyTaken)
      else r.Ok? && IsClosed(t, r.value, k, qty, c)
  {
    AtIsRow(t.positions, k, c.positionId);
    var p := t.positions[k];
    var qty := ClosedQty(p, c.qty);
    var id := if FullyClosed(p, c.qty) then p.positionId else c.legId;
    TradeAtIsTaken(t.trades, id);
    ClosedTradeSays(p, id, c.exit, qty, c.reason, c.closedAt);
    hide IsLeg, ClosedTrade;
  }

  lemma CloseNeedsPosition(t: Tables, c: CloseRequest)
    requires Absent(t.positions, c.positionId)
    ensures Close(t, c) == Ok(t)
  {
    AbsentIsNone(t.positions, c.positionId);
  }

  /** The recorded exit of a signal: the resolved fill; else its reference price, or the entry if it gives none, as it
      is when it can be executed and with the slip against the position when not. */
  predicate IsExit(x: real, s: CloseSignal, p: Position, fill: Option<real>, settings: Settings) {
    var reference := if s.exitPrice.None? || s.exitPrice.value == 0.0 then p.entryPrice else s.exitPrice.value;
    if fill.Some? then x == fill.value
    else if s.refIsExecutable then x == reference
    else IsSlipped(x, reference, p.side, settings.slippage, true)
  }

  ghost predicate IsClosedBySignal(t: Tables, u: Tables, k: nat, qty: real, s: CloseSignal, fill: Option<real>,
                                   legId: Key, settings: Settings)
    requires k < |t.positions|
  {
    exists exit :: IsExit(exit, s, t.positions[k], fill, settings) &&
      IsClosed(t, u, k, qty, CloseRequest(s.positionId, exit, Some(qty), s.reason, s.timestamp, legId))
  }

  lemma CloseSignalMeans(t: Tables, s: CloseSignal, fill: Option<real>, legId: Key, settings: Settings, k: nat)
    requires UniqueIds(t.positions) && At(t.positions, k, s.positionId)
    ensures var p, r := t.positions[k], CloseBySignal(t, s, fill, legId, settings);
      var asked := if s.qty.None? then p.qty else s.qty.value;
      var qty := if asked > p.qty then p.qty else asked;
      var id := if p.qty - qty <= 0.000000000001 then p.positionId else legId;
      if asked <= 0.0 then r == Err(QtyNotPositive)
      else if asked > p.qty + 0.000000000001 then r == Err(QtyExceedsOpen)
      else if qty <= 0.0 then r == Ok(t)
      else if TradeAt(t.trades, id) then r == Err(PrimaryKeyTaken)
      else r.Ok? && IsClosedBySignal(t, r.value, k, qty, s, fill, legId, settings)
  {
    AtIsRow(t.positions, k, s.positionId);
    var p := t.positions[k];
    var c := RequestOf(s, p, fill, legId, settings);
    CloseMeans(t, c, k);
    ExitSays(s, p, fill, settings);
    hide IsExit, ExitPrice, Close, IsLeg;
  }

  lemma ExitSays(s: CloseSignal, p: Position, fill: Option<real>, settings: Settings)
    ensures IsExit(ExitPrice(s, p, fill, settings), s, p, fill, settings)
  {
  }

  lemma CloseSignalNeedsPosition(t: Tables, s: CloseSignal, fill: Option<real>, legId: Key, settings: Settings)
    requires Absent(t.positions, s.positionId)
    ensures CloseBySignal(t, s, fill, legId, settings) == Err(PositionNotFound)
  {
    AbsentIsNone(t.positions, s.positionId);
  }

  // ----------------------------------------------------------------- a pass of the price check

  /** A target is reached from below by a long and from above by a short; a stop the other way round. */
  predicate TargetReached(p: Position, price: real) {
    p.tp.Some? && ((p.side == Long && price >= p.tp.value) || (p.side == Short && price <= p.tp.value))
  }

  predicate StopReached(p: Position, price: real) {
    p.sl.Some? && ((p.side == Long && price <= p.sl.value) || (p.side == Short && price >= p.sl.value))
  }

  /** The position has a quote for its side at which its target or its stop is reached, and a quantity to close. */
  predicate Due(p: Position, quotes: Quotes) {
    && (p.symbol, p.side) in quotes && p.qty > 0.0
    && (TargetReached(p, quotes[(p.symbol, p.side)]) || StopReached(p, quotes[(p.symbol, p.side)]))
  }

  /** The trade of a due position: all of it, for the target if that is reached and else for the stop, at the resolved
      fill or at the quote with the slip against it. */
  ghost predicate IsAutoTrade(x: Trade, p: Position, quotes: Quotes, fills: Fills, now: int, settings: Settings) {
    (p.symbol, p.side) in quotes &&
    var price := quotes[(p.symbol, p.side)];
    && IsLeg(x, p, p.positionId, p.qty, x.exitPrice, if TargetReached(p, price) then "TP_HIT" else "SL_HIT", now)
    && (if p.positionId in fills then x.exitPrice == fills[p.positionId]
        else IsSlipped(x.exitPrice, price, p.side, settings.slippage, true))
  }

  ghost predicate IsTradeOfDue(x: Trade, seen: seq<Position>, quotes: Quotes, fills: Fills, now: int,
                               settings: Settings)
  {
    exists p :: p in seen && Due(p, quotes) && IsAutoTrade(x, p, quotes, fills, now, settings)
  }

  ghost predicate OnlyDueLeave(before: seq<Position>, after: seq<Position>, seen: seq<Position>, quotes: Quotes) {
    UniqueIds(after) && forall p :: p in after <==> p in before && !(p in seen && Due(p, quotes))
  }

  ghost predicate HasAutoTrade(ts: seq<Trade>, from: nat, p: Position, quotes: Quotes, fills: Fills, now: int,
                               settings: Settings)
  {
    exists k :: from <= k < |ts| && IsAutoTrade(ts[k], p, quotes, fills, now, settings)
  }

  ghost predicate DueAreTrades(before: seq<Trade>, after: seq<Trade>, seen: seq<Position>, quotes: Quotes, fills: Fills,
                               now: int, settings: Settings)
  {
    && before <= after
    && (forall p :: p in seen && Due(p, quotes) ==> HasAutoTrade(after, |before|, p, quotes, fills, now, settings))
    && (forall k :: |before| <= k < |after| ==> IsTradeOfDue(after[k], seen, quotes, fills, now, settings))
  }

  /** What a pass over some of the rows does. */
  ghost predicate PassDid(t: Tables, u: Tables, seen: seq<Position>, quotes: Quotes, fills: Fills, now: int,
                          settings: Settings)
  {
    && OnlyDueLeave(t.positions, u.positions, seen, quotes)
    && DueAreTrades(t.trades, u.trades, seen, quotes, fills, now, settings)
  }

  lemma HitIsDue(p: Position, quotes: Quotes)
    ensures IsHit(p, quotes) && p.qty > 0.0 <==> Due(p, quotes)
    ensures Due(p, quotes) ==>
      var price := quotes[(p.symbol, p.side)];
      HitReason(p, price) == Some(if TargetReached(p, price) then "TP_HIT" else "SL_HIT")
  {
  }

  lemma DueIsClosed(u: Tables, p: Position, quotes: Quotes, fills: Fills, now: int, settings: Settings)
    requires UniqueIds(u.positions) && p in u.positions && IsHit(p, quotes)
    requires Close(u, AutoRequest(p, quotes, fills, now, settings)).Ok?
    ensures var v := Close(u, AutoRequest(p, quotes, fills, now, settings)).value;
      if !Due(p, quotes) then v == u
      else
        && UniqueIds(v.positions) && (forall q :: q in v.positions <==> q in u.positions && q != p)
        && |v.trades| == |u.trades| + 1 && v.trades[..|u.trades|] == u.trades
        && IsAutoTrade(v.trades[|u.trades|], p, quotes, fills, now, settings)
  {
    HitIsDue(p, quotes);
    var k :| 0 <= k < |u.positions| && u.positions[k] == p;
    var c := AutoRequest(p, quotes, fills, now, settings);
    Slips(quotes[(p.symbol, p.side)], p.side, settings.slippage, true);
    CloseMeans(u, c, k);
    hide IsLeg, IsSlipped, Close;
    if Due(p, quotes) {
      RowsAfterRemoval(u.positions, k, p.positionId);
      assert Close(u, c).value.positions == Without(u.positions, k);
      InWithout(u.positions, k);
    }
  }

  lemma InWithout(ps: seq<Position>, k: nat)
    requires UniqueIds(ps) && k < |ps|
    ensures forall q :: q in Without(ps, k) <==> q in ps && q != ps[k]
  {
    var qs := Without(ps, k);
    forall q | q in ps && q != ps[k] ensures q in qs {
      var j :| 0 <= j < |ps| && ps[j] == q;
      assert qs[if j < k then j else j - 1] == q;
    }
    forall q | q in qs ensures q in ps && q != ps[k] {
      var j :| 0 <= j < |qs| && qs[j] == q;
      assert ps[if j < k then j else j + 1] == q;
    }
  }

  lemma OneMoreLeaves(before: seq<Position>, mid: seq<Position>, after: seq<Position>, init: seq<Position>, p: Position,
                      quotes: Quotes)
    requires OnlyDueLeave(before, mid, init, quotes) && p in before
    requires if !Due(p, quotes) then after == mid else
      UniqueIds(after) && forall q :: q in after <==> q in mid && q != p
    ensures OnlyDueLeave(before, after, init + [p], quotes)
  {
    hide Due, UniqueIds;
    forall q ensures q in init + [p] <==> q in init || q == p {
    }
  }

  lemma OneMoreTrade(before: seq<Trade>, mid: seq<Trade>, after: seq<Trade>, init: seq<Position>, p: Position,
                     quotes: Quotes, fills: Fills, now: int, settings: Settings)
    requires DueAreTrades(before, mid, init, quotes, fills, now, settings)
    requires if !Due(p, quotes) then after == mid else
      |after| == |mid| + 1 && after[..|mid|] == mid && IsAutoTrade(after[|mid|], p, quotes, fills, now, settings)
    ensures DueAreTrades(before, after, init + [p], quotes, fills, now, settings)
  {
    hide IsAutoTrade, Due, HasAutoTrade, IsTradeOfDue;
    var seen := init + [p];
    forall q | q in seen && Due(q, quotes) ensures HasAutoTrade(after, |before|, q, quotes, fills, now, settings) {
      if Due(p, quotes) && q != p {
        TradeStays(mid, after, |before|, q, quotes, fills, now, settings);
      } else if q == p {
        IsItsTrade(after, |before|, |mid|, q, quotes, fills, now, settings);
      }
    }
    forall k | |before| <= k < |after| ensures IsTradeOfDue(after[k], seen, quotes, fills, now, settings) {
      if k < |mid| {
        assert after[k] == mid[k];
        SeenMore(mid[k], init, p, quotes, fills, now, settings);
      } else {
        IsOfDue(after[k], seen, p, quotes, fills, now, settings);
      }
    }
  }

  lemma TradeStays(mid: seq<Trade>, after: seq<Trade>, from: nat, p: Position, quotes: Quotes, fills: Fills, now: int,
                   settings: Settings)
    requires mid <= after && HasAutoTrade(mid, from, p, quotes, fills, now, settings)
    ensures HasAutoTrade(after, from, p, quotes, fills, now, settings)
  {
    hide IsAutoTrade;
    var k :| from <= k < |mid| && IsAutoTrade(mid[k], p, quotes, fills, now, settings);
    assert after[k] == mid[k];
  }

  lemma IsItsTrade(ts: seq<Trade>, from: nat, k: nat, p: Position, quotes: Quotes, fills: Fills, now: int,
                   settings: Settings)
    requires from <= k < |ts| && IsAutoTrade(ts[k], p, quotes, fills, now, settings)
    ensures HasAutoTrade(ts, from, p, quotes, fills, now, settings)
  {
    hide IsAutoTrade;
  }

  lemma SeenMore(x: Trade, init: seq<Position>, p: Position, quotes: Quotes, fills: Fills, now: int, settings: Settings)
    requires IsTradeOfDue(x, init, quotes, fills, now, settings)
    ensures IsTradeOfDue(x, init + [p], quotes, fills, now, settings)
  {
    hide IsAutoTrade, Due;
    var q :| q in init && Due(q, quotes) && IsAutoTrade(x, q, quotes, fills, now, settings);
    assert q in init + [p];
  }

  lemma IsOfDue(x: Trade, seen: seq<Position>, p: Position, quotes: Quotes, fills: Fills, now: int, settings: Settings)
    requires p in seen && Due(p, quotes) && IsAutoTrade(x, p, quotes, fills, now, settings)
    ensures IsTradeOfDue(x, seen, quotes, fills, now, settings)
  {
    hide IsAutoTrade, Due;
  }

  /** A pass, as far as it gets: the due positions it saw are gone and are trades, each at its own price and for its
      own reason; no other position moves and no other trade is new. */
  lemma {:induction false} PassMeans(t: Tables, n: nat, quotes: Quotes, fills: Fills, now: int, settings: Settings)
    requires UniqueIds(t.positions) && n <= |t.positions|
    requires CloseHits(t, t.positions[..n], quotes, fills, now, settings).Ok?
    ensures PassDid(t, CloseHits(t, t.positions[..n], quotes, fills, now, settings).value, t.positions[..n], quotes,
                    fills, now, settings)
    decreases n
  {
    if n > 0 {
      hide OnlyDueLeave, DueAreTrades, IsAutoTrade, Close, AutoRequest, IsHit, Due, UniqueIds;
      var seen, init, p := t.positions[..n], t.positions[..n - 1], t.positions[n - 1];
      assert seen[..|seen| - 1] == init && seen == init + [p];
      PassMeans(t, n - 1, quotes, fills, now, settings);
      var u, v := CloseHits(t, init, quotes, fills, now, settings).value,
                  CloseHits(t, seen, quotes, fills, now, settings).value;
      StillThere(t.positions, u.positions, n, quotes);
      HitIsDue(p, quotes);
      if IsHit(p, quotes) {
        DueIsClosed(u, p, quotes, fills, now, settings);
      }
      OneMoreLeaves(t.positions, u.positions, v.positions, init, p, quotes);
      OneMoreTrade(t.trades, u.trades, v.trades, init, p, quotes, fills, now, settings);
    } else {
      NothingSeen(t, quotes, fills, now, settings);
    }
  }

  lemma StillThere(before: seq<Position>, after: seq<Position>, n: nat, quotes: Quotes)
    requires UniqueIds(before) && 0 < n <= |before| && OnlyDueLeave(before, after, before[..n - 1], quotes)
    ensures UniqueIds(after) && before[n - 1] in after
  {
    assert before[n - 1] !in before[..n - 1];
  }

  lemma NothingSeen(t: Tables, quotes: Quotes, fills: Fills, now: int, settings: Settings)
    requires UniqueIds(t.positions)
    ensures PassDid(t, t, t.positions[..0], quotes, fills, now, settings)
  {
  }
}
