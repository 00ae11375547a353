/** What an equity snapshot says of each alpha: its capital, what its trades netted and what its open positions
    would net now, added up from the rows of the ledger. */
module EquityRows {
  import opened WorkerLedger
  import opened EquityMarks

  /** What the trades of an alpha netted. */
  function Netted(ts: seq<Trade>, alpha: Key): real {
    if ts == [] then 0.0 else (if ts[0].alphaId == alpha then ts[0].pnl else 0.0) + Netted(ts[1..], alpha)
  }

  /** What a position would net at a price, after a fee on both fills. */
  function WouldNet(p: Position, price: real): real {
    (if p.side == Long then price - p.entryPrice else p.entryPrice - price) * p.qty -
    (p.entryPrice + price) * p.qty * p.feePct
  }

  /** What the priced positions of an alpha would net. */
  function Marked(ps: seq<Position>, alpha: Key, prices: Prices): real {
    if ps == [] then 0.0
    else
      var p := ps[0];
      (if p.alphaId == alpha && p.symbol in prices then WouldNet(p, prices[p.symbol]) else 0.0) +
      Marked(ps[1..], alpha, prices)
  }

  lemma {:induction false} RealisedFromFront(ts: seq<Trade>, alpha: Key)
    requires ts != []
    ensures Realised(ts, alpha) == (if ts[0].alphaId == alpha then ts[0].pnl else 0.0) + Realised(ts[1..], alpha)
    decreases |ts|
  {
    if |ts| > 1 {
      RealisedFromFront(ts[..|ts| - 1], alpha);
      assert ts[1..][..|ts| - 2] == ts[..|ts| - 1][1..];
    }
  }

  lemma {:induction false} RealisedIsNetted(ts: seq<Trade>, alpha: Key)
    ensures Realised(ts, alpha) == Netted(ts, alpha)
    decreases |ts|
  {
    if ts != [] {
      RealisedFromFront(ts, alpha);
      RealisedIsNetted(ts[1..], alpha);
    }
  }

  lemma MarkNets(p: Position, price: real)
    ensures MarkPnl(p, price) == WouldNet(p, price)
  {
  }

  lemma {:induction false} UnrealisedIsMarked(ps: seq<Position>, alpha: Key, prices: Prices)
    ensures Unrealised(ps, alpha, prices) == Marked(ps, alpha, prices)
    decreases |ps|
  {
    if ps != [] {
      UnrealisedSplit([ps[0]], ps[1..], alpha, prices);
      assert [ps[0]] + ps[1..] == ps && [ps[0]][..0] == [];
      UnrealisedIsMarked(ps[1..], alpha, prices);
      if ps[0].symbol in prices {
        MarkNets(ps[0], prices[ps[0].symbol]);
      }
      hide MarkPnl, WouldNet;
    }
  }

  /** The rows whose position can be marked. */
  lemma {:induction false} MarkableMeans(ps: seq<Position>, unmarkable: set<Key>)
    ensures forall p ::
      multiset(Markable(ps, unmarkable))[p] == if p.positionId in unmarkable then 0 else multiset(ps)[p]
    decreases |ps|
  {
    if ps != [] {
      var init, last := ps[..|ps| - 1], ps[|ps| - 1];
      MarkableMeans(init, unmarkable);
      assert ps == init + [last];
    }
  }

  /** An alpha's row: its configured capital, or ten thousand, and its two profits. */
  predicate RowSays(row: SnapshotRow, t: Tables, capitals: map<Key, real>, prices: Prices) {
    && row.realised == Netted(t.trades, row.alphaId) && row.unrealised == Marked(t.positions, row.alphaId, prices)
    && row.balance ==
       (if row.alphaId in capitals then capitals[row.alphaId] else 10000.0) + row.realised + row.unrealised
  }

  lemma {:induction false} AlphasMean(rows: seq<SnapshotRow>)
    ensures forall alpha :: alpha in AlphasOf(rows) <==> exists k :: 0 <= k < |rows| && rows[k].alphaId == alpha
    decreases |rows|
  {
    if rows != [] {
      var init, last := rows[..|rows| - 1], rows[|rows| - 1];
      AlphasMean(init);
      forall alpha ensures alpha in AlphasOf(rows) <==> exists k :: 0 <= k < |rows| && rows[k].alphaId == alpha {
        if alpha in AlphasOf(init) {
          var k :| 0 <= k < |init| && init[k].alphaId == alpha;
          assert rows[k] == init[k];
        }
        assert rows[|rows| - 1].alphaId == last.alphaId;
        if k :| 0 <= k < |rows| && rows[k].alphaId == alpha {
          assert k < |init| ==> init[k].alphaId == alpha;
        }
      }
    }
  }

  /** Every row of a snapshot says what its alpha's rows of the ledger come to, and no alpha has two. */
  lemma {:induction false} SnapshotMeans(rows: seq<SnapshotRow>, t: Tables, capitals: map<Key, real>, prices: Prices)
    requires Balanced(rows, t, capitals, prices)
    ensures forall k :: 0 <= k < |rows| ==> RowSays(rows[k], t, capitals, prices)
    ensures forall i, j :: 0 <= i < j < |rows| ==> rows[i].alphaId != rows[j].alphaId
    decreases |rows|
  {
    if rows != [] {
      var init, last := rows[..|rows| - 1], rows[|rows| - 1];
      SnapshotMeans(init, t, capitals, prices);
      RealisedIsNetted(t.trades, last.alphaId);
      UnrealisedIsMarked(t.positions, last.alphaId, prices);
      AlphasMean(init);
      assert forall k :: 0 <= k < |init| ==> init[k] == rows[k];
    }
  }

  /** The alphas that are given a row: registered, with a trade, or with a position that has a price. */
  lemma AlphasListed(t: Tables, prices: Prices, alpha: Key)
    ensures alpha in TradedAlphas(t.trades) <==> exists k :: 0 <= k < |t.trades| && t.trades[k].alphaId == alpha
    ensures alpha in PricedAlphas(t.positions, prices) <==>
      exists k :: 0 <= k < |t.positions| && t.positions[k].alphaId == alpha && t.positions[k].symbol in prices
  {
  }

  // ------------------------------------------------------------------------ shadow sleeves

  /** What the positions of a sleeve gained from one set of prices to another, where both have one. */
  function Gained(ps: seq<Position>, alpha: Key, from: Prices, to: Prices): real {
    if ps == [] then 0.0
    else
      var p := ps[0];
      (if p.alphaId == alpha && p.symbol in from && p.symbol in to
       then WouldNet(p, to[p.symbol]) - WouldNet(p, from[p.symbol]) else 0.0) + Gained(ps[1..], alpha, from, to)
  }

  lemma {:induction false} MovedFromFront(ps: seq<Position>, alpha: Key, from: Prices, to: Prices)
    requires ps != []
    ensures Moved(ps, alpha, from, to) ==
      (if ps[0].alphaId == alpha then MoveOf(ps[0], from, to) else 0.0) + Moved(ps[1..], alpha, from, to)
    decreases |ps|
  {
    hide MoveOf;
    if |ps| > 1 {
      MovedFromFront(ps[..|ps| - 1], alpha, from, to);
      assert ps[1..][..|ps| - 2] == ps[..|ps| - 1][1..];
    }
  }

  /** A sleeve's balance moves on from its published value by what its positions gained since. */
  lemma {:induction false} MovedIsGained(ps: seq<Position>, alpha: Key, from: Prices, to: Prices)
    ensures Moved(ps, alpha, from, to) == Gained(ps, alpha, from, to)
    decreases |ps|
  {
    if ps != [] {
      MovedFromFront(ps, alpha, from, to);
      MovedIsGained(ps[1..], alpha, from, to);
      var p := ps[0];
      if p.symbol in from && p.symbol in to {
        MarkNets(p, from[p.symbol]);
        MarkNets(p, to[p.symbol]);
      }
      hide MarkPnl, WouldNet;
    }
  }

  predicate SleeveSays(row: SnapshotRow, nav: Nav, ps: seq<Position>, ts: seq<Trade>, live: Prices) {
    && row.balance == nav.balance + Gained(ps, row.alphaId, nav.prices, live)
    && row.realised == Netted(ts, row.alphaId) && row.unrealised == row.balance - nav.capital - row.realised
  }

  /** Every sleeve's row, in those terms; each published sleeve has one. */
  lemma {:induction false} SleevesMean(rows: seq<SnapshotRow>, navs: map<Key, Nav>, ps: seq<Position>, ts: seq<Trade>,
                                       live: Prices)
    requires SleeveRows(rows, navs, ps, ts, live)
    ensures forall k :: 0 <= k < |rows| ==>
      rows[k].alphaId in navs && SleeveSays(rows[k], navs[rows[k].alphaId], ps, ts, live)
    decreases |rows|
  {
    if rows != [] {
      var init, last := rows[..|rows| - 1], rows[|rows| - 1];
      SleevesMean(init, navs, ps, ts, live);
      MovedIsGained(ps, last.alphaId, navs[last.alphaId].prices, live);
      RealisedIsNetted(ts, last.alphaId);
      assert forall k :: 0 <= k < |init| ==> init[k] == rows[k];
    }
  }
}
