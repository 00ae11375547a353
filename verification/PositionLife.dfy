/** What one position leaves behind over its life: legs of one side, entry and fee, which net to a single close. */
module PositionLife {
  import opened WorkerLedger
  import opened WorkerConservation
  import opened EquityMarks

  /** The legs booked for a position, as (quantity, exit price), and what they netted. */
  function LegsOf(ts: seq<Trade>, id: Key): seq<(real, real)> {
    if ts == [] then []
    else
      var before, last := LegsOf(ts[..|ts| - 1], id), ts[|ts| - 1];
      if last.positionId == id then before + [(last.qty, last.exitPrice)] else before
  }

  function ProfitOf(ts: seq<Trade>, id: Key): real {
    if ts == [] then 0.0
    else ProfitOf(ts[..|ts| - 1], id) + if ts[|ts| - 1].positionId == id then ts[|ts| - 1].pnl else 0.0
  }

  predicate LegOf(p: Position, tr: Trade) {
    tr.positionId == p.positionId ==>
      && tr.side == p.side && tr.entryPrice == p.entryPrice && tr.alphaId == p.alphaId && tr.symbol == p.symbol
      && tr.pnl == LegPnl(p.side, p.entryPrice, tr.exitPrice, tr.qty, p.feePct)
  }

  /** What no operation changes while the position is open. */
  predicate SameTrade(p: Position, q: Position) {
    && p.positionId == q.positionId && p.alphaId == q.alphaId && p.symbol == q.symbol
    && p.side == q.side && p.entryPrice == q.entryPrice && p.feePct == q.feePct
  }

  function Row(t: Tables, id: Key): Position
    requires StillOpen(t, id)
  {
    t.positions[RowOf(t.positions, id)]
  }

  /** The new trades are legs of this position, or of others. */
  predicate AddsLegs(p: Position, before: seq<Trade>, after: seq<Trade>) {
    before == after || (after != [] && after[..|after| - 1] == before && LegOf(p, after[|after| - 1]))
  }

  lemma CloseBooksLeg(t: Tables, c: CloseRequest, id: Key)
    requires UniqueIds(t.positions) && StillOpen(t, id) && Close(t, c).Ok?
    ensures AddsLegs(Row(t, id), t.trades, Close(t, c).value.trades)
    ensures StillOpen(Close(t, c).value, id) ==> SameTrade(Row(t, id), Row(Close(t, c).value, id))
  {
    hide LegPnl;
    var ps, qs := t.positions, Close(t, c).value.positions;
    var i, k := RowOf(ps, c.positionId), RowOf(ps, id);
    if qs != ps {
      if |qs| == |ps| {
        RowsAfterUpdate(ps, i, qs[i], id);
        RowIsUnique(qs, k);
      } else {
        RowsAfterRemoval(ps, i, id);
        if Has(qs, id) {
          var j := RowOf(qs, id);
          RowIsUnique(ps, if j < i then j else j + 1);
        }
      }
    }
  }

  lemma StepBooksLeg(t: Tables, op: Op, id: Key, settings: Settings)
    requires UniqueIds(t.positions) && StillOpen(t, id)
    ensures AddsLegs(Row(t, id), t.trades, After(t, op, settings).trades)
    ensures StillOpen(After(t, op, settings), id) ==> SameTrade(Row(t, id), Row(After(t, op, settings), id))
  {
    hide LegPnl, Close;
    var u := After(t, op, settings);
    if Effect(t, op, settings).Ok? {
      match op
      case OpOpen(_, _, _) =>
        assert u.positions[..|u.positions| - 1] == t.positions;
      case OpModify(s) =>
        RowsAfterUpdate(t.positions, RowOf(t.positions, s.positionId),
                        u.positions[RowOf(t.positions, s.positionId)], id);
        RowIsUnique(u.positions, RowOf(t.positions, id));
      case _ =>
        CloseBooksLeg(t, RequestFor(t, op, settings).value, id);
    }
  }

  /** A sequence of trades is legs of one position, and their quantities add up. */
  predicate AreLegs(p: Position, ts: seq<Trade>) {
    && ProfitOf(ts, p.positionId) == LegsPnl(p.side, p.entryPrice, LegsOf(ts, p.positionId), p.feePct)
    && TotalQty(LegsOf(ts, p.positionId)) == LegQty(ts, p.positionId)
  }

  lemma LegsOfMore(p: Position, ts: seq<Trade>, tr: Trade)
    requires AreLegs(p, ts) && LegOf(p, tr)
    ensures AreLegs(p, ts + [tr])
  {
    hide LegPnl;
    var more, legs := ts + [tr], LegsOf(ts, p.positionId);
    assert more[..|more| - 1] == ts;
    if tr.positionId == p.positionId {
      var leg := (tr.qty, tr.exitPrice);
      assert LegsOf(more, p.positionId) == legs + [leg] && (legs + [leg])[..|legs|] == legs;
    }
  }

  lemma {:induction false} LegQtySplits(a: seq<Trade>, b: seq<Trade>, id: Key)
    ensures LegQty(a + b, id) == LegQty(a, id) + LegQty(b, id)
    ensures ProfitOf(a + b, id) == ProfitOf(a, id) + ProfitOf(b, id)
    decreases |b|
  {
    if b == [] {
      assert a + b == a;
    } else {
      assert (a + b)[..|a + b| - 1] == a + b[..|b| - 1];
      LegQtySplits(a, b[..|b| - 1], id);
    }
  }

  /** Over any run of operations, from any moment at which the position is open until it is closed: every trade
      booked for it is a leg at the side, entry price and fee it had at that moment. */
  lemma {:induction false} LifeIsLegs(t: Tables, ops: seq<Op>, id: Key, settings: Settings)
    requires UniqueIds(t.positions) && StillOpen(t, id)
    requires forall n :: 0 <= n < |ops| ==> StillOpen(RunOps(t, ops[..n], settings), id)
    ensures var u := RunOps(t, ops, settings);
      && UniqueIds(u.positions)
      && t.trades <= u.trades && AreLegs(Row(t, id), u.trades[|t.trades|..])
      && (StillOpen(u, id) ==> SameTrade(Row(t, id), Row(u, id)))
    decreases |ops|
  {
    hide After, UniqueIds, AreLegs, AddsLegs, SameTrade, RowOf;
    if ops == [] {
      assert t.trades[|t.trades|..] == [];
      NoLegs(Row(t, id));
    } else {
      var before := ops[..|ops| - 1];
      assert forall n :: 0 <= n < |before| ==> before[..n] == ops[..n];
      assert StillOpen(RunOps(t, ops[..|ops| - 1], settings), id);
      LifeIsLegs(t, before, id, settings);
      var u, v := RunOps(t, before, settings), RunOps(t, ops, settings);
      StepBooksLeg(u, ops[|ops| - 1], id, settings);
      StepMovesQty(u, ops[|ops| - 1], id, settings);
      OneMoreLeg(Row(t, id), Row(u, id), t.trades, u.trades, v.trades);
      if StillOpen(v, id) {
        SameThroughout(Row(t, id), Row(u, id), Row(v, id));
      }
    }
  }

  lemma OneMoreLeg(p: Position, q: Position, from: seq<Trade>, mid: seq<Trade>, to: seq<Trade>)
    requires from <= mid && AreLegs(p, mid[|from|..]) && SameTrade(p, q) && AddsLegs(q, mid, to)
    ensures from <= to && AreLegs(p, to[|from|..])
  {
    hide AreLegs;
    if mid != to {
      LegsOfMore(p, mid[|from|..], to[|to| - 1]);
      assert to == mid + [to[|to| - 1]];
      assert to[|from|..] == mid[|from|..] + [to[|to| - 1]];
    }
  }

  lemma NoLegs(p: Position)
    ensures AreLegs(p, []) && SameTrade(p, p)
  {
  }

  lemma SameThroughout(p: Position, q: Position, r: Position)
    requires SameTrade(p, q) && SameTrade(q, r)
    ensures SameTrade(p, r)
  {
  }

  /** So what a position earned over such a run is one close of everything closed, at the quantity-weighted exit. */
  lemma LifeNetsToOneClose(t: Tables, ops: seq<Op>, id: Key, settings: Settings)
    requires UniqueIds(t.positions) && StillOpen(t, id)
    requires forall n :: 0 <= n < |ops| ==> StillOpen(RunOps(t, ops[..n], settings), id)
    requires LegQty(RunOps(t, ops, settings).trades, id) != LegQty(t.trades, id)
    ensures var u, p := RunOps(t, ops, settings), Row(t, id);
      var qty := LegQty(u.trades, id) - LegQty(t.trades, id);
      && |t.trades| <= |u.trades|
      && ProfitOf(u.trades, id) - ProfitOf(t.trades, id) ==
         LegPnl(p.side, p.entryPrice, Notional(LegsOf(u.trades[|t.trades|..], id)) / qty, qty, p.feePct)
  {
    hide LegPnl, LegQty, RunOps, Notional, TotalQty, LegsPnl, UniqueIds;
    var p, u := Row(t, id), RunOps(t, ops, settings);
    LifeIsLegs(t, ops, id, settings);
    var legs := u.trades[|t.trades|..];
    assert u.trades == t.trades + legs;
    LegQtySplits(t.trades, legs, id);
    LegsNetToOneClose(p.side, p.entryPrice, LegsOf(legs, id), p.feePct);
  }
}
