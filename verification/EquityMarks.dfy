/** Equity snapshots: capital plus realised plus unrealised profit per alpha, and why closing
    at the mark leaves it where it was. */
module EquityMarks {
  import opened WorkerLedger

  /** Mark prices by symbol; a symbol without one contributes nothing. */
  type Prices = map<Key, real>

  /** `_compute_position_pnl`, in the snapshot's own terms. */
  function MarkPnl(p: Position, price: real): real {
    var gross := (price - p.entryPrice) * p.qty * if p.side == Long then 1.0 else -1.0;
    var fee := (p.entryPrice + price) * p.qty * p.feePct;
    gross - fee
  }

  /** A mark is what closing the whole position at that price would net: the two sides of the worker agree. */
  lemma MarkIsLegPnl(p: Position, price: real)
    ensures MarkPnl(p, price) == LegPnl(p.side, p.entryPrice, price, p.qty, p.feePct)
  {
  }

  function Contribution(p: Position, alpha: Key, prices: Prices): real {
    if p.alphaId == alpha && p.symbol in prices then MarkPnl(p, prices[p.symbol]) else 0.0
  }

  function Unrealised(ps: seq<Position>, alpha: Key, prices: Prices): real {
    if ps == [] then 0.0 else Unrealised(ps[..|ps| - 1], alpha, prices) + Contribution(ps[|ps| - 1], alpha, prices)
  }

  function Realised(ts: seq<Trade>, alpha: Key): real {
    if ts == [] then 0.0
    else Realised(ts[..|ts| - 1], alpha) + if ts[|ts| - 1].alphaId == alpha then ts[|ts| - 1].pnl else 0.0
  }

  function Equity(capital: real, t: Tables, alpha: Key, prices: Prices): real {
    capital + Realised(t.trades, alpha) + Unrealised(t.positions, alpha, prices)
  }

  // -------------------------------------------------------------------- arithmetic of legs

  /** Profit is linear in the quantity. */
  lemma LegPnlAdds(side: Side, entry: real, exit: real, q1: real, q2: real, feePct: real)
    ensures LegPnl(side, entry, exit, q1 + q2, feePct) ==
      LegPnl(side, entry, exit, q1, feePct) + LegPnl(side, entry, exit, q2, feePct)
  {
  }

  /** A leg nets what its sale brings in less what its purchase costs, each after its fee. */
  lemma LegPnlIsCashFlow(entry: real, exit: real, qty: real, feePct: real)
    ensures LegPnl(Long, entry, exit, qty, feePct) == exit * qty * (1.0 - feePct) - entry * qty * (1.0 + feePct)
    ensures LegPnl(Short, entry, exit, qty, feePct) == entry * qty * (1.0 - feePct) - exit * qty * (1.0 + feePct)
  {
  }

  /** Opening and closing at one reference price costs the slip twice; but a side that is LONG only after
      upper-casing is filled as a long and booked as a short, and then slippage pays. */
  lemma TripAtOnePrice(side: Side, price: real, qty: real, slippage: real)
    ensures var open, close := FixedPctFill(price, side, slippage, false), FixedPctFill(price, side, slippage, true);
      LegPnl(side, open, close, qty, 0.0) ==
      (if side.OtherSide? && side.upperIsLong then 2.0 else -2.0) * (price * (slippage / 1000.0)) * qty
  {
  }

  /** Profit in terms of quantity and of quantity times exit price. */
  lemma LegPnlByNotional(side: Side, entry: real, exit: real, qty: real, feePct: real)
    ensures LegPnl(side, entry, exit, qty, feePct) ==
      (qty * exit) * (Direction(side) - feePct) - qty * (entry * (Direction(side) + feePct))
  {
  }

  /** Partial closes of one position, as (quantity, exit price). */
  function LegsPnl(side: Side, entry: real, legs: seq<(real, real)>, feePct: real): real {
    if legs == [] then 0.0
    else
      LegsPnl(side, entry, legs[..|legs| - 1], feePct) +
      LegPnl(side, entry, legs[|legs| - 1].1, legs[|legs| - 1].0, feePct)
  }

  function TotalQty(legs: seq<(real, real)>): real {
    if legs == [] then 0.0 else TotalQty(legs[..|legs| - 1]) + legs[|legs| - 1].0
  }

  function Notional(legs: seq<(real, real)>): real {
    if legs == [] then 0.0 else Notional(legs[..|legs| - 1]) + legs[|legs| - 1].0 * legs[|legs| - 1].1
  }

  lemma {:induction false} LegsPnlByNotional(side: Side, entry: real, legs: seq<(real, real)>, feePct: real)
    ensures LegsPnl(side, entry, legs, feePct) ==
      Notional(legs) * (Direction(side) - feePct) - TotalQty(legs) * (entry * (Direction(side) + feePct))
  {
    var a, b := Direction(side) - feePct, entry * (Direction(side) + feePct);
    if legs == [] {
      assert 0.0 * a - 0.0 * b == 0.0;
    } else {
      var init, leg := legs[..|legs| - 1], legs[|legs| - 1];
      LegsPnlByNotional(side, entry, init, feePct);
      LegPnlByNotional(side, entry, leg.1, leg.0, feePct);
      Distribute(Notional(init), leg.0 * leg.1, a);
      Distribute(TotalQty(init), leg.0, b);
    }
  }

  lemma Distribute(x: real, y: real, z: real)
    ensures (x + y) * z == x * z + y * z
  {
  }

  /** However a position is closed in legs, the net profit is that of one close of the total
      at the quantity-weighted exit price. */
  lemma LegsNetToOneClose(side: Side, entry: real, legs: seq<(real, real)>, feePct: real)
    requires TotalQty(legs) != 0.0
    ensures LegsPnl(side, entry, legs, feePct) ==
      LegPnl(side, entry, Notional(legs) / TotalQty(legs), TotalQty(legs), feePct)
  {
    hide LegPnl, LegsPnl, TotalQty, Notional;
    var q := TotalQty(legs);
    var average := Notional(legs) / q;
    assert q * average == Notional(legs);
    LegsPnlByNotional(side, entry, legs, feePct);
    LegPnlByNotional(side, entry, average, q, feePct);
  }

  // ------------------------------------------------------------------ equity under a close

  lemma {:induction false} UnrealisedSplit(a: seq<Position>, b: seq<Position>, alpha: Key, prices: Prices)
    ensures Unrealised(a + b, alpha, prices) == Unrealised(a, alpha, prices) + Unrealised(b, alpha, prices)
    decreases |b|
  {
    if b == [] {
      assert a + b == a;
    } else {
      UnrealisedSplit(a, b[..|b| - 1], alpha, prices);
      assert (a + b)[..|a + b| - 1] == a + b[..|b| - 1];
    }
  }

  lemma UnrealisedOfRow(ps: seq<Position>, i: nat, alpha: Key, prices: Prices)
    requires i < |ps|
    ensures Unrealised(ps, alpha, prices) ==
      Unrealised(ps[..i], alpha, prices) + Contribution(ps[i], alpha, prices) + Unrealised(ps[i + 1..], alpha, prices)
  {
    assert ps == ps[..i] + ([ps[i]] + ps[i + 1..]);
    UnrealisedSplit(ps[..i], [ps[i]] + ps[i + 1..], alpha, prices);
    UnrealisedSplit([ps[i]], ps[i + 1..], alpha, prices);
    assert [ps[i]][..0] == [];
  }

  lemma UnrealisedAfterRemoval(ps: seq<Position>, i: nat, alpha: Key, prices: Prices)
    requires i < |ps|
    ensures Unrealised(Without(ps, i), alpha, prices) ==
      Unrealised(ps, alpha, prices) - Contribution(ps[i], alpha, prices)
  {
    UnrealisedOfRow(ps, i, alpha, prices);
    UnrealisedSplit(ps[..i], ps[i + 1..], alpha, prices);
  }

  lemma UnrealisedAfterUpdate(ps: seq<Position>, i: nat, p: Position, alpha: Key, prices: Prices)
    requires i < |ps|
    ensures Unrealised(ps[i := p], alpha, prices) ==
      Unrealised(ps, alpha, prices) - Contribution(ps[i], alpha, prices) + Contribution(p, alpha, prices)
  {
    var qs := ps[i := p];
    UnrealisedOfRow(ps, i, alpha, prices);
    UnrealisedOfRow(qs, i, alpha, prices);
    assert qs[..i] == ps[..i] && qs[i + 1..] == ps[i + 1..];
  }

  /** The close hits its position at the mark, or hits nothing. */
  predicate AtMark(t: Tables, c: CloseRequest, prices: Prices) {
    Has(t.positions, c.positionId) ==>
      var p := t.positions[RowOf(t.positions, c.positionId)];
      p.symbol in prices && c.exit == prices[p.symbol]
  }

  /** The profit that goes missing with the dust a full close drops. */
  function DustPnl(t: Tables, c: CloseRequest, alpha: Key): real {
    if !Has(t.positions, c.positionId) then 0.0
    else
      var p := t.positions[RowOf(t.positions, c.positionId)];
      if p.alphaId == alpha && ClosedQty(p, c.qty) > 0.0 && FullyClosed(p, c.qty)
      then LegPnl(p.side, p.entryPrice, c.exit, Remaining(p, c.qty), p.feePct) else 0.0
  }

  /** Closing any part of a position at the mark moves profit from unrealised to realised and
      changes the equity by the dust alone. */
  lemma CloseAtMarkKeepsEquity(t: Tables, c: CloseRequest, alpha: Key, capital: real, prices: Prices)
    requires AtMark(t, c, prices) && Close(t, c).Ok?
    ensures Equity(capital, Close(t, c).value, alpha, prices) ==
      Equity(capital, t, alpha, prices) - DustPnl(t, c, alpha)
  {
    hide LegPnl, MarkPnl;
    var i := RowOf(t.positions, c.positionId);
    if i < |t.positions| && ClosedQty(t.positions[i], c.qty) > 0.0 {
      var p := t.positions[i];
      MarkIsLegPnl(p, c.exit);
      MarkIsLegPnl(p.(qty := Remaining(p, c.qty)), c.exit);
      var qty, rest := ClosedQty(p, c.qty), Remaining(p, c.qty);
      assert p.qty == qty + rest;
      LegPnlAdds(p.side, p.entryPrice, c.exit, qty, rest, p.feePct);
      var u := Close(t, c).value;
      assert u.trades[..|u.trades| - 1] == t.trades;
      if FullyClosed(p, c.qty) {
        UnrealisedAfterRemoval(t.positions, i, alpha, prices);
      } else {
        UnrealisedAfterUpdate(t.positions, i, p.(qty := rest), alpha, prices);
      }
    }
  }

  /** Closes one after another, refused ones leaving the tables alone. */
  function RunCloses(t: Tables, cs: seq<CloseRequest>): Tables {
    if cs == [] then t
    else
      var u := RunCloses(t, cs[..|cs| - 1]);
      match Close(u, cs[|cs| - 1]) case Ok(v) => v case Err(_) => u
  }

  function DustPnlOver(t: Tables, cs: seq<CloseRequest>, alpha: Key): real {
    if cs == [] then 0.0
    else
      var u, c := RunCloses(t, cs[..|cs| - 1]), cs[|cs| - 1];
      DustPnlOver(t, cs[..|cs| - 1], alpha) + if Close(u, c).Ok? then DustPnl(u, c, alpha) else 0.0
  }

  predicate AllAtMark(t: Tables, cs: seq<CloseRequest>, prices: Prices) {
    cs == [] || (AllAtMark(t, cs[..|cs| - 1], prices) && AtMark(RunCloses(t, cs[..|cs| - 1]), cs[|cs| - 1], prices))
  }

  /** Equity neutrality over every run of closes at the marks, for every alpha. */
  lemma {:induction false} RunAtMarkKeepsEquity(t: Tables, cs: seq<CloseRequest>, alpha: Key, capital: real,
                                                prices: Prices)
    requires AllAtMark(t, cs, prices)
    ensures Equity(capital, RunCloses(t, cs), alpha, prices) ==
      Equity(capital, t, alpha, prices) - DustPnlOver(t, cs, alpha)
    decreases |cs|
  {
    if cs != [] {
      hide Equity, DustPnl, Close, AtMark;
      var before := cs[..|cs| - 1];
      RunAtMarkKeepsEquity(t, before, alpha, capital, prices);
      var u := RunCloses(t, before);
      if Close(u, cs[|cs| - 1]).Ok? {
        CloseAtMarkKeepsEquity(u, cs[|cs| - 1], alpha, capital, prices);
      }
    }
  }

  // ------------------------------------------------------------------- the snapshot itself

  function Get(m: map<Key, real>, k: Key): real { if k in m then m[k] else 0.0 }

  /** The rows with a usable quantity and entry price; the others count as nothing. */
  function Markable(ps: seq<Position>, unmarkable: set<Key>): seq<Position> {
    if ps == [] then []
    else
      var before, p := Markable(ps[..|ps| - 1], unmarkable), ps[|ps| - 1];
      if p.positionId in unmarkable then before else before + [p]
  }

  lemma MarkableOfMore(ps: seq<Position>, i: nat, unmarkable: set<Key>, alpha: Key, prices: Prices)
    requires i < |ps|
    ensures Unrealised(Markable(ps[..i + 1], unmarkable), alpha, prices) ==
      Unrealised(Markable(ps[..i], unmarkable), alpha, prices) +
      if ps[i].positionId in unmarkable then 0.0 else Contribution(ps[i], alpha, prices)
  {
    hide Contribution;
    var upto, before := ps[..i + 1], Markable(ps[..i], unmarkable);
    assert upto[..|upto| - 1] == ps[..i] && upto[|upto| - 1] == ps[i];
    assert (before + [ps[i]])[..|before|] == before;
  }

  /** The alphas with a position that has a price. */
  function PricedAlphas(ps: seq<Position>, prices: Prices): set<Key> {
    set p | p in ps && p.symbol in prices :: p.alphaId
  }

  function TradedAlphas(ts: seq<Trade>): set<Key> { set tr | tr in ts :: tr.alphaId }

  lemma PricedOfMore(ps: seq<Position>, i: nat, unmarkable: set<Key>, prices: Prices)
    requires i < |ps|
    ensures PricedAlphas(Markable(ps[..i + 1], unmarkable), prices) ==
      PricedAlphas(Markable(ps[..i], unmarkable), prices) +
      if ps[i].positionId !in unmarkable && ps[i].symbol in prices then {ps[i].alphaId} else {}
  {
    var upto, before := ps[..i + 1], Markable(ps[..i], unmarkable);
    assert upto[..|upto| - 1] == ps[..i] && upto[|upto| - 1] == ps[i];
    var after := Markable(upto, unmarkable);
    assert after == before || after == before + [ps[i]];
    hide Markable;
    assert forall p :: p in after <==> p in before || (p == ps[i] && p.positionId !in unmarkable);
  }

  method UnrealisedByAlpha(ps: seq<Position>, unmarkable: set<Key>, prices: Prices) returns (m: map<Key, real>)
    ensures forall alpha ::
      Unrealised(Markable(ps, unmarkable), alpha, prices) == if alpha in m then m[alpha] else 0.0
    ensures m.Keys == PricedAlphas(Markable(ps, unmarkable), prices)
  {
    m := map[];
    for i := 0 to |ps|
      invariant m.Keys == PricedAlphas(Markable(ps[..i], unmarkable), prices)
      invariant forall alpha :: Get(m, alpha) == Unrealised(Markable(ps[..i], unmarkable), alpha, prices)
    {
      hide MarkPnl, Markable, Unrealised, PricedAlphas;
      var p := ps[i];
      PricedOfMore(ps, i, unmarkable, prices);
      forall alpha { MarkableOfMore(ps, i, unmarkable, alpha, prices); }
      if p.positionId !in unmarkable && p.symbol in prices {
        m := m[p.alphaId := Get(m, p.alphaId) + MarkPnl(p, prices[p.symbol])];
      }
    }
    assert ps[..|ps|] == ps;
  }

  method RealisedByAlpha(ts: seq<Trade>) returns (m: map<Key, real>)
    ensures forall alpha :: Realised(ts, alpha) == if alpha in m then m[alpha] else 0.0
    ensures m.Keys == TradedAlphas(ts)
  {
    m := map[];
    for i := 0 to |ts|
      invariant m.Keys == TradedAlphas(ts[..i])
      invariant forall alpha :: Get(m, alpha) == Realised(ts[..i], alpha)
    {
      ghost var upto := ts[..i + 1];
      assert upto[..|upto| - 1] == ts[..i] && upto[|upto| - 1] == ts[i];
      m := m[ts[i].alphaId := Get(m, ts[i].alphaId) + ts[i].pnl];
    }
    assert ts[..|ts|] == ts;
  }

  datatype SnapshotRow = SnapshotRow(alphaId: Key, balance: real, unrealised: real, realised: real)

  const DEFAULT_CAPITAL := 10000.0

  const TOTAL_KEY: Key := "__TOTAL__"

  function CapitalOf(capitals: map<Key, real>, alpha: Key): real {
    if alpha in capitals then capitals[alpha] else DEFAULT_CAPITAL
  }

  function TotalBalance(rows: seq<SnapshotRow>): real {
    if rows == [] then 0.0 else TotalBalance(rows[..|rows| - 1]) + rows[|rows| - 1].balance
  }

  function AlphasOf(rows: seq<SnapshotRow>): set<Key> {
    if rows == [] then {} else AlphasOf(rows[..|rows| - 1]) + {rows[|rows| - 1].alphaId}
  }

  /** Every row carries its alpha's equity, and no alpha has two rows. */
  predicate Balanced(rows: seq<SnapshotRow>, t: Tables, capitals: map<Key, real>, prices: Prices) {
    rows == [] ||
    (Balanced(rows[..|rows| - 1], t, capitals, prices) && RowBalanced(rows[|rows| - 1], t, capitals, prices)
     && rows[|rows| - 1].alphaId !in AlphasOf(rows[..|rows| - 1]))
  }

  predicate RowBalanced(row: SnapshotRow, t: Tables, capitals: map<Key, real>, prices: Prices) {
    && row.unrealised == Unrealised(t.positions, row.alphaId, prices) && row.realised == Realised(t.trades, row.alphaId)
    && row.balance == Equity(CapitalOf(capitals, row.alphaId), t, row.alphaId, prices)
  }

  function TotalUnrealised(rows: seq<SnapshotRow>): real {
    if rows == [] then 0.0 else TotalUnrealised(rows[..|rows| - 1]) + rows[|rows| - 1].unrealised
  }

  function TotalRealised(rows: seq<SnapshotRow>): real {
    if rows == [] then 0.0 else TotalRealised(rows[..|rows| - 1]) + rows[|rows| - 1].realised
  }

  function TotalCapital(rows: seq<SnapshotRow>, capitals: map<Key, real>): real {
    if rows == [] then 0.0
    else TotalCapital(rows[..|rows| - 1], capitals) + CapitalOf(capitals, rows[|rows| - 1].alphaId)
  }

  /** The total row adds up as each alpha's row does. */
  lemma {:induction false} TotalAddsUp(rows: seq<SnapshotRow>, t: Tables, capitals: map<Key, real>, prices: Prices)
    requires Balanced(rows, t, capitals, prices)
    ensures TotalBalance(rows) == TotalCapital(rows, capitals) + TotalRealised(rows) + TotalUnrealised(rows)
    decreases |rows|
  {
    if rows != [] {
      TotalAddsUp(rows[..|rows| - 1], t, capitals, prices);
    }
  }

  /** One row per alpha that is registered, has traded or holds a priced position, sleeves
      apart, and the totals of those rows. */
  method SnapshotOnce(t: Tables, unmarkable: set<Key>, registered: set<Key>, shadow: set<Key>, capitals: map<Key, real>,
                      prices: Prices)
    returns (rows: seq<SnapshotRow>, total: SnapshotRow)
    ensures Balanced(rows, t.(positions := Markable(t.positions, unmarkable)), capitals, prices)
    ensures total == SnapshotRow(TOTAL_KEY, TotalBalance(rows), TotalUnrealised(rows), TotalRealised(rows))
    ensures total.alphaId == "__TOTAL__"
    ensures AlphasOf(rows) ==
      registered + TradedAlphas(t.trades) + PricedAlphas(Markable(t.positions, unmarkable), prices) - shadow
  {
    hide Unrealised, Realised, Markable, TradedAlphas, PricedAlphas;
    var unrealised := UnrealisedByAlpha(t.positions, unmarkable, prices);
    var realised := RealisedByAlpha(t.trades);
    var todo := registered + realised.Keys + unrealised.Keys - shadow;
    ghost var all, marked := todo, t.(positions := Markable(t.positions, unmarkable));
    rows, total := [], SnapshotRow(TOTAL_KEY, 0.0, 0.0, 0.0);
    while todo != {}
      invariant todo <= all && AlphasOf(rows) == all - todo && Balanced(rows, marked, capitals, prices)
      invariant total == SnapshotRow(TOTAL_KEY, TotalBalance(rows), TotalUnrealised(rows), TotalRealised(rows))
      decreases todo
    {
      var alpha :| alpha in todo;
      var gained, unreal := Get(realised, alpha), Get(unrealised, alpha);
      var row := SnapshotRow(alpha, CapitalOf(capitals, alpha) + gained + unreal, unreal, gained);
      total := SnapshotRow(TOTAL_KEY, total.balance + row.balance, total.unrealised + unreal, total.realised + gained);
      assert (rows + [row])[..|rows|] == rows;
      rows := rows + [row];
      todo := todo - {alpha};
    }
  }

  // ------------------------------------------------------------------------ shadow sleeves

  /** A sleeve's net asset value as its runner last published it, and the prices it was marked at. */
  datatype Nav = Nav(balance: real, capital: real, prices: Prices)

  /** What one position's profit moved by, if both prices are known. */
  function MoveOf(p: Position, from: Prices, to: Prices): real {
    if p.symbol in from && p.symbol in to then MarkPnl(p, to[p.symbol]) - MarkPnl(p, from[p.symbol]) else 0.0
  }

  function Moved(ps: seq<Position>, alpha: Key, from: Prices, to: Prices): real {
    if ps == [] then 0.0
    else
      var last := ps[|ps| - 1];
      Moved(ps[..|ps| - 1], alpha, from, to) + if last.alphaId == alpha then MoveOf(last, from, to) else 0.0
  }

  /** A sleeve's row: the published value moved on to the live prices; whatever is neither capital nor realised is
      unrealised. */
  predicate SleeveRow(row: SnapshotRow, nav: Nav, ps: seq<Position>, ts: seq<Trade>, live: Prices) {
    && row.balance == nav.balance + Moved(ps, row.alphaId, nav.prices, live)
    && row.realised == Realised(ts, row.alphaId)
    && row.balance == nav.capital + row.realised + row.unrealised
  }

  predicate AllPriced(ps: seq<Position>, prices: Prices) { forall p :: p in ps ==> p.symbol in prices }

  /** Between two snapshots of one published value, a sleeve's balance moves by what the prices moved its
      positions, wherever the value was anchored. */
  lemma {:induction false} SleeveMovesWithPrices(ps: seq<Position>, alpha: Key, anchor: Prices, a: Prices, b: Prices)
    requires AllPriced(ps, anchor) && AllPriced(ps, a) && AllPriced(ps, b)
    ensures Moved(ps, alpha, anchor, b) - Moved(ps, alpha, anchor, a) == Moved(ps, alpha, a, b)
    decreases |ps|
  {
    if ps != [] {
      hide MarkPnl;
      assert forall p :: p in ps[..|ps| - 1] ==> p in ps;
      assert ps[|ps| - 1] in ps;
      SleeveMovesWithPrices(ps[..|ps| - 1], alpha, anchor, a, b);
    }
  }

  lemma MovedOfMore(ps: seq<Position>, i: nat, unmarkable: set<Key>, alpha: Key, from: Prices, to: Prices)
    requires i < |ps|
    ensures Moved(Markable(ps[..i + 1], unmarkable), alpha, from, to) ==
      Moved(Markable(ps[..i], unmarkable), alpha, from, to) +
      if ps[i].alphaId == alpha && ps[i].positionId !in unmarkable then MoveOf(ps[i], from, to) else 0.0
  {
    hide MoveOf;
    var upto, before := ps[..i + 1], Markable(ps[..i], unmarkable);
    assert upto[..|upto| - 1] == ps[..i] && upto[|upto| - 1] == ps[i];
    assert (before + [ps[i]])[..|before|] == before;
  }

  method MarkSleeve(alpha: Key, nav: Nav, ps: seq<Position>, unmarkable: set<Key>, live: Prices) returns (balance: real)
    ensures balance == nav.balance + Moved(Markable(ps, unmarkable), alpha, nav.prices, live)
  {
    var delta := 0.0;
    for i := 0 to |ps|
      invariant delta == Moved(Markable(ps[..i], unmarkable), alpha, nav.prices, live)
    {
      hide MarkPnl, Markable, Moved;
      var p := ps[i];
      MovedOfMore(ps, i, unmarkable, alpha, nav.prices, live);
      if p.alphaId == alpha && p.positionId !in unmarkable && p.symbol in nav.prices && p.symbol in live {
        delta := delta + (MarkPnl(p, live[p.symbol]) - MarkPnl(p, nav.prices[p.symbol]));
      }
    }
    assert ps[..|ps|] == ps;
    balance := nav.balance + delta;
  }

  predicate SleeveRows(rows: seq<SnapshotRow>, navs: map<Key, Nav>, ps: seq<Position>, ts: seq<Trade>, live: Prices) {
    rows == [] ||
    (SleeveRows(rows[..|rows| - 1], navs, ps, ts, live) && rows[|rows| - 1].alphaId in navs
     && SleeveRow(rows[|rows| - 1], navs[rows[|rows| - 1].alphaId], ps, ts, live)
     && rows[|rows| - 1].alphaId !in AlphasOf(rows[..|rows| - 1]))
  }

  /** One row per published sleeve; they are not part of the total. */
  method SnapshotSleeves(navs: map<Key, Nav>, ps: seq<Position>, unmarkable: set<Key>, ts: seq<Trade>, live: Prices)
    returns (rows: seq<SnapshotRow>)
    ensures SleeveRows(rows, navs, Markable(ps, unmarkable), ts, live) && AlphasOf(rows) == navs.Keys
  {
    hide Moved, Realised, Markable;
    var realised := RealisedByAlpha(ts);
    var todo := navs.Keys;
    rows := [];
    while todo != {}
      invariant todo <= navs.Keys && AlphasOf(rows) == navs.Keys - todo
      invariant SleeveRows(rows, navs, Markable(ps, unmarkable), ts, live)
      decreases todo
    {
      var alpha :| alpha in todo;
      var balance := MarkSleeve(alpha, navs[alpha], ps, unmarkable, live);
      var gained := Get(realised, alpha);
      var row := SnapshotRow(alpha, balance, balance - navs[alpha].capital - gained, gained);
      assert (rows + [row])[..|rows|] == rows;
      rows := rows + [row];
      todo := todo - {alpha};
    }
  }
}
