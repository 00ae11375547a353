/** What a published rebalance comes to in the consumer's tables, row by row: the positions it closes and opens,
    the trades it books with their prices and profits, and the events it records. */
module VirtualTrips {
  import opened Wrappers
  import opened VirtualLedger
  import opened VirtualPublisher
  import SessionClock
  import SortedKeys

  predicate Priced(r: Rebalance, s: Symbol) { s in r.prices && r.prices[s] > 0.0 }

  predicate Wanted(r: Rebalance, s: Symbol) { s in r.weights && r.weights[s] != 0.0 && Priced(r, s) }

  /** The position is a holding of one of these symbols that has a price now. */
  predicate ClosedId(book: Book, r: Rebalance, cs: set<Symbol>, p: Id) {
    p.PositionId? && p.symbol in cs && p.symbol in book && book[p.symbol].positionId == p && Priced(r, p.symbol)
  }

  predicate OpenedId(me: Identity, r: Rebalance, os: set<Symbol>, p: Id) {
    p.PositionId? && p.alpha == me.alpha && p.candle == r.candle && p.symbol in os && Wanted(r, p.symbol)
  }

  /** The trade of a holding that this rebalance closes. */
  predicate IsTrip(me: Identity, h: Holding, s: Symbol, r: Rebalance, x: VTrade)
    requires s in r.prices
  {
    var direction := if h.side == Long then 1.0 else -1.0;
    && x.tradeId == h.positionId && x.signalId == CloseId(h.positionId, r.candle)
    && x.alphaId == me.alpha && x.symbol == s && x.side == h.side && x.exchange == me.exchange
    && x.entryPrice == h.entryPrice && x.exitPrice == r.prices[s] && x.qty == h.qty
    && x.pnl == (r.prices[s] - h.entryPrice) * h.qty * direction
    && (h.entryPrice > 0.0 && h.qty > 0.0 ==> x.pnlPercent == (r.prices[s] / h.entryPrice - 1.0) * 100.0 * direction)
    && x.reason == r.reason && x.closeCandle == r.candle && x.openMetadata == h.metadata
    && x.openedAt == At(h.openedAt) && x.closedAt == At(r.at)
    && x.durationHours == SessionClock.DurationHours(h.openedAt, r.at, me.exchange == Tcbs)
  }

  /** The position of a symbol that this rebalance opens: its weight's share of the capital at the price now. */
  predicate IsOpening(me: Identity, s: Symbol, r: Rebalance, p: VPosition)
    requires Wanted(r, s)
  {
    var w, price := r.weights[s], r.prices[s];
    && p.positionId == PositionId(me.alpha, s, r.candle) && p.signalId == OpenId(p.positionId)
    && p.alphaId == me.alpha && p.symbol == s && p.exchange == me.exchange && p.metadata == r.metadata
    && p.side == (if w > 0.0 then Long else Short)
    && p.entryPrice == price && p.qty == me.capital * (if w > 0.0 then w else -w) / price
    && p.openedAt == At(r.at)
  }

  predicate IsCloseEvent(me: Identity, h: Holding, s: Symbol, r: Rebalance, e: Event)
    requires s in r.prices
  {
    && e.eventId == CloseId(h.positionId, r.candle) && e.kind == VirtualClose && e.positionId == h.positionId
    && e.alphaId == me.alpha && e.symbol == s && e.side == h.side && e.exchange == me.exchange
    && e.price == r.prices[s] && e.qty == h.qty && e.timestamp == At(r.at) && e.candle == r.candle
    && e.reason == r.reason && e.metadata == ""
  }

  predicate IsOpenEvent(me: Identity, s: Symbol, r: Rebalance, e: Event)
    requires Wanted(r, s)
  {
    var w, price := r.weights[s], r.prices[s];
    && e.positionId == PositionId(me.alpha, s, r.candle) && e.eventId == OpenId(e.positionId) && e.kind == VirtualOpen
    && e.alphaId == me.alpha && e.symbol == s && e.side == (if w > 0.0 then Long else Short)
    && e.exchange == me.exchange && e.price == price && e.qty == me.capital * (if w > 0.0 then w else -w) / price
    && e.timestamp == At(r.at) && e.candle == r.candle && e.metadata == r.metadata && e.reason == "VIRTUAL_REBALANCE"
  }

  ghost predicate PositionsMove(me: Identity, book: Book, r: Rebalance, cs: set<Symbol>, os: set<Symbol>,
                                before: map<Id, VPosition>, after: map<Id, VPosition>)
  {
    && (forall p :: p in after <==> (p in before && !ClosedId(book, r, cs, p)) || OpenedId(me, r, os, p))
    && (forall p :: p in after ==> if OpenedId(me, r, os, p) then IsOpening(me, p.symbol, r, after[p])
                                   else p in before && after[p] == before[p])
  }

  ghost predicate TradesMove(me: Identity, book: Book, r: Rebalance, cs: set<Symbol>,
                             before: map<Id, VTrade>, after: map<Id, VTrade>)
  {
    && (forall p :: p in after <==> p in before || ClosedId(book, r, cs, p))
    && (forall p :: p in after ==> if ClosedId(book, r, cs, p) then IsTrip(me, book[p.symbol], p.symbol, r, after[p])
                                   else p in before && after[p] == before[p])
  }

  predicate NewEvent(me: Identity, book: Book, r: Rebalance, cs: set<Symbol>, os: set<Symbol>, id: Id) {
    || (id.CloseId? && id.candle == r.candle && ClosedId(book, r, cs, id.position))
    || (id.OpenId? && OpenedId(me, r, os, id.position))
  }

  ghost predicate EventsMove(me: Identity, book: Book, r: Rebalance, cs: set<Symbol>, os: set<Symbol>,
                             before: map<Id, Event>, after: map<Id, Event>)
  {
    && (forall id :: id in after <==> id in before || NewEvent(me, book, r, cs, os, id))
    && (forall id :: id in after ==>
          if !NewEvent(me, book, r, cs, os, id) then id in before && after[id] == before[id]
          else if id.CloseId?
          then IsCloseEvent(me, book[id.position.symbol], id.position.symbol, r, after[id])
          else IsOpenEvent(me, id.position.symbol, r, after[id]))
  }

  /** The tables before and after the closes of some symbols and the opens of some. */
  ghost predicate Moves(me: Identity, book: Book, r: Rebalance, cs: set<Symbol>, os: set<Symbol>, t: Tables, u: Tables)
  {
    && PositionsMove(me, book, r, cs, os, t.positions, u.positions)
    && TradesMove(me, book, r, cs, t.trades, u.trades)
    && EventsMove(me, book, r, cs, os, t.events, u.events)
  }

  // ------------------------------------------------------------------------------ the closes

  lemma TripOfClose(me: Identity, s: Symbol, h: Holding, r: Rebalance)
    requires Priced(r, s)
    ensures var p, e := AsPosition(me, s, h), CloseEvent(me, s, h, r);
      IsTrip(me, h, s, r, ClosedTrade(p, e)) && IsCloseEvent(me, h, s, r, e)
  {
    var p, e := AsPosition(me, s, h), CloseEvent(me, s, h, r);
    if h.entryPrice > 0.0 && h.qty > 0.0 {
      PercentIsPriceMove(h.entryPrice, r.prices[s], h.qty, if h.side == Long then 1.0 else -1.0);
    }
  }

  lemma PercentIsPriceMove(entry: real, exit: real, qty: real, direction: real)
    requires entry > 0.0 && qty > 0.0
    ensures entry * qty != 0.0
    ensures (exit - entry) * qty * direction / (entry * qty) * 100.0 == (exit / entry - 1.0) * 100.0 * direction
  {
    var ratio := exit / entry;
    assert exit == ratio * entry;
    assert (exit - entry) * qty * direction == (ratio - 1.0) * direction * (entry * qty);
    OverItself((ratio - 1.0) * direction, entry * qty);
  }

  lemma OverItself(x: real, y: real)
    requires y > 0.0
    ensures x * y / y == x
  {
  }

  lemma NothingMoves(me: Identity, book: Book, r: Rebalance, t: Tables)
    ensures Moves(me, book, r, {}, {}, t, t)
  {
  }

  lemma NothingToClose(me: Identity, book: Book, r: Rebalance, cs: set<Symbol>, s: Symbol, t: Tables, u: Tables)
    requires Moves(me, book, r, cs, {}, t, u) && !(s in book && Priced(r, s))
    ensures Moves(me, book, r, cs + {s}, {}, t, u)
  {
    hide IsTrip, IsOpening, IsCloseEvent, IsOpenEvent;
    assert forall p :: ClosedId(book, r, cs + {s}, p) <==> ClosedId(book, r, cs, p);
  }

  lemma OneMoreClosed(book: Book, r: Rebalance, cs: set<Symbol>, s: Symbol)
    requires s in book && Priced(r, s)
    requires book[s].positionId.PositionId? && book[s].positionId.symbol == s
    ensures forall p :: ClosedId(book, r, cs + {s}, p) <==> ClosedId(book, r, cs, p) || p == book[s].positionId
  {
  }

  lemma CloseTakesPosition(me: Identity, book: Book, r: Rebalance, cs: set<Symbol>, s: Symbol,
                           before: map<Id, VPosition>, after: map<Id, VPosition>)
    requires s in book && PositionsMove(me, book, r, cs, {}, before, after)
    requires forall p :: ClosedId(book, r, cs + {s}, p) <==> ClosedId(book, r, cs, p) || p == book[s].positionId
    ensures PositionsMove(me, book, r, cs + {s}, {}, before, after - {book[s].positionId})
  {
    hide ClosedId, IsOpening;
  }

  lemma CloseAddsTrade(me: Identity, book: Book, r: Rebalance, cs: set<Symbol>, s: Symbol,
                       before: map<Id, VTrade>, after: map<Id, VTrade>, x: VTrade)
    requires s in book && Priced(r, s) && book[s].positionId.PositionId? && book[s].positionId.symbol == s
    requires TradesMove(me, book, r, cs, before, after) && IsTrip(me, book[s], s, r, x)
    requires forall p :: ClosedId(book, r, cs + {s}, p) <==> ClosedId(book, r, cs, p) || p == book[s].positionId
    ensures TradesMove(me, book, r, cs + {s}, before, after[book[s].positionId := x])
  {
    hide IsTrip;
  }

  lemma CloseAddsEvent(me: Identity, book: Book, r: Rebalance, cs: set<Symbol>, s: Symbol,
                       before: map<Id, Event>, after: map<Id, Event>, e: Event)
    requires s in book && Priced(r, s) && book[s].positionId.PositionId? && book[s].positionId.symbol == s
    requires EventsMove(me, book, r, cs, {}, before, after) && IsCloseEvent(me, book[s], s, r, e)
    requires forall p :: ClosedId(book, r, cs + {s}, p) <==> ClosedId(book, r, cs, p) || p == book[s].positionId
    ensures EventsMove(me, book, r, cs + {s}, {}, before, after[CloseId(book[s].positionId, r.candle) := e])
  {
    hide IsCloseEvent, IsOpenEvent;
    var added := CloseId(book[s].positionId, r.candle);
    assert forall id :: NewEvent(me, book, r, cs + {s}, {}, id) <==> NewEvent(me, book, r, cs, {}, id) || id == added;
  }

  lemma CloseMoves(me: Identity, book: Book, r: Rebalance, cs: set<Symbol>, s: Symbol, t: Tables, u: Tables)
    requires Moves(me, book, r, cs, {}, t, u) && s in book && Priced(r, s)
    requires book[s].positionId.PositionId? && book[s].positionId.symbol == s && book[s].positionId in u.positions
    requires u.positions[book[s].positionId] == AsPosition(me, s, book[s])
    requires CloseId(book[s].positionId, r.candle) !in u.events && Apply(u, CloseEvent(me, s, book[s], r)).Ok?
    ensures Moves(me, book, r, cs + {s}, {}, t, Apply(u, CloseEvent(me, s, book[s], r)).value)
  {
    hide IsTrip, IsCloseEvent, ClosedTrade, PositionsMove, TradesMove, EventsMove;
    var h, e := book[s], CloseEvent(me, s, book[s], r);
    TripOfClose(me, s, h, r);
    OneMoreClosed(book, r, cs, s);
    CloseTakesPosition(me, book, r, cs, s, t.positions, u.positions);
    CloseAddsTrade(me, book, r, cs, s, t.trades, u.trades, ClosedTrade(AsPosition(me, s, h), e));
    CloseAddsEvent(me, book, r, cs, s, t.events, u.events, e);
  }

  lemma {:induction false} ClosesMove(me: Identity, keys: seq<Symbol>, book: Book, t: Tables, r: Rebalance, last: int)
    requires Mirrors(me, book, t) && Unused(me, book, t, r.candle, {}) && UpTo(me, t, last) && last <= r.candle
    requires SortedKeys.Ascending(keys) && forall s :: s in book ==> book[s].entryCandle != r.candle
    ensures Replay(t, Closes(me, keys, book, r)).Ok?
    ensures Moves(me, book, r, SetOf(keys), {}, t, Replay(t, Closes(me, keys, book, r)).value)
    decreases |keys|
  {
    hide Moves, IsFresh, CloseEvent, Apply;
    if keys == [] {
      NothingMoves(me, book, r, t);
    } else {
      var init, s := keys[..|keys| - 1], keys[|keys| - 1];
      ClosesMove(me, init, book, t, r, last);
      ReplayOfCloses(me, init, book, t, r, last);
      RestKeeps(init, book, r);
      var u := Replay(t, Closes(me, init, book, r)).value;
      if s in book && PriceOf(r.prices, s) > 0.0 {
        assert s in Rest(init, book, r) && Rest(init, book, r)[s] == book[s];
        CloseStep(me, Rest(init, book, r), u, s, r, r.candle);
        ReplayAppend(t, Closes(me, init, book, r), CloseEvent(me, s, book[s], r));
        CloseMoves(me, book, r, SetOf(init), s, t, u);
      } else {
        NothingToClose(me, book, r, SetOf(init), s, t, u);
      }
    }
  }

  // ------------------------------------------------------------------------------- the opens

  lemma OpeningOfOpen(me: Identity, s: Symbol, r: Rebalance)
    requires Wanted(r, s)
    ensures var e := OpenEvent(me, s, NewHolding(me, s, r.weights[s], r), r);
      IsOpening(me, s, r, OpenedPosition(e)) && IsOpenEvent(me, s, r, e)
  {
  }

  lemma NothingToOpen(me: Identity, book: Book, r: Rebalance, cs: set<Symbol>, os: set<Symbol>, s: Symbol, t: Tables,
                      u: Tables)
    requires Moves(me, book, r, cs, os, t, u) && !Wanted(r, s)
    ensures Moves(me, book, r, cs, os + {s}, t, u)
  {
    hide IsTrip, IsOpening, IsCloseEvent, IsOpenEvent;
    assert forall p :: OpenedId(me, r, os + {s}, p) <==> OpenedId(me, r, os, p);
  }

  lemma OneMoreOpened(me: Identity, r: Rebalance, os: set<Symbol>, s: Symbol)
    requires Wanted(r, s)
    ensures forall p :: OpenedId(me, r, os + {s}, p) <==>
      OpenedId(me, r, os, p) || p == PositionId(me.alpha, s, r.candle)
  {
  }

  lemma OpenAddsPosition(me: Identity, book: Book, r: Rebalance, cs: set<Symbol>, os: set<Symbol>, s: Symbol,
                         before: map<Id, VPosition>, after: map<Id, VPosition>, x: VPosition)
    requires PositionsMove(me, book, r, cs, os, before, after) && Wanted(r, s) && IsOpening(me, s, r, x)
    requires PositionId(me.alpha, s, r.candle) !in after
    requires forall p :: OpenedId(me, r, os + {s}, p) <==>
      OpenedId(me, r, os, p) || p == PositionId(me.alpha, s, r.candle)
    ensures PositionsMove(me, book, r, cs, os + {s}, before, after[PositionId(me.alpha, s, r.candle) := x])
  {
    hide IsOpening, ClosedId;
  }

  lemma OpenAddsEvent(me: Identity, book: Book, r: Rebalance, cs: set<Symbol>, os: set<Symbol>, s: Symbol,
                      before: map<Id, Event>, after: map<Id, Event>, e: Event)
    requires EventsMove(me, book, r, cs, os, before, after) && Wanted(r, s) && IsOpenEvent(me, s, r, e)
    requires forall p :: OpenedId(me, r, os + {s}, p) <==>
      OpenedId(me, r, os, p) || p == PositionId(me.alpha, s, r.candle)
    ensures EventsMove(me, book, r, cs, os + {s}, before, after[OpenId(PositionId(me.alpha, s, r.candle)) := e])
  {
    hide IsCloseEvent, IsOpenEvent;
    var added := OpenId(PositionId(me.alpha, s, r.candle));
    assert forall id :: NewEvent(me, book, r, cs, os + {s}, id) <==> NewEvent(me, book, r, cs, os, id) || id == added;
  }

  lemma OpenMoves(me: Identity, book: Book, r: Rebalance, cs: set<Symbol>, os: set<Symbol>, s: Symbol, t: Tables,
                  u: Tables)
    requires Moves(me, book, r, cs, os, t, u) && Wanted(r, s)
    requires PositionId(me.alpha, s, r.candle) !in u.positions && OpenId(PositionId(me.alpha, s, r.candle)) !in u.events
    ensures var e := OpenEvent(me, s, NewHolding(me, s, r.weights[s], r), r);
      Apply(u, e).Ok? && Moves(me, book, r, cs, os + {s}, t, Apply(u, e).value)
  {
    hide IsOpening, IsOpenEvent, PositionsMove, EventsMove, TradesMove;
    var e := OpenEvent(me, s, NewHolding(me, s, r.weights[s], r), r);
    OpeningOfOpen(me, s, r);
    OneMoreOpened(me, r, os, s);
    OpenAddsPosition(me, book, r, cs, os, s, t.positions, u.positions, OpenedPosition(e));
    OpenAddsEvent(me, book, r, cs, os, s, t.events, u.events, e);
  }

  lemma {:induction false} OpensMove(me: Identity, keys: seq<Symbol>, book: Book, kept: Book, t: Tables, u: Tables,
                                     r: Rebalance, cs: set<Symbol>)
    requires me.capital > 0.0 && Mirrors(me, kept, u) && Unused(me, map[], u, r.candle, {}) && UpTo(me, u, r.candle)
    requires SortedKeys.Ascending(keys) && forall s :: s in kept ==> !Priced(r, s)
    requires Moves(me, book, r, cs, {}, t, u)
    ensures Replay(u, Opens(me, keys, kept, r)).Ok?
    ensures Moves(me, book, r, cs, SetOf(keys), t, Replay(u, Opens(me, keys, kept, r)).value)
    ensures forall s :: s in Opened(me, keys, kept, r) ==> s in kept || s in SetOf(keys)
    decreases |keys|
  {
    hide Moves, IsFresh, OpenEvent, Apply, Mirrors, UpTo, NewHolding;
    if keys != [] {
      var init, s := keys[..|keys| - 1], keys[|keys| - 1];
      OpensMove(me, init, book, kept, t, u, r, cs);
      ReplayOfOpens(me, init, kept, u, r);
      SetOfHolds(init);
      assert s !in SetOf(init);
      var before, v := Opened(me, init, kept, r), Replay(u, Opens(me, init, kept, r)).value;
      if Wanted(r, s) {
        OpenMoves(me, book, r, cs, SetOf(init), s, t, v);
        ReplayAppend(u, Opens(me, init, kept, r), OpenEvent(me, s, NewHolding(me, s, r.weights[s], r), r));
      } else {
        NothingToOpen(me, book, r, cs, SetOf(init), s, t, v);
      }
    }
  }

  // ----------------------------------------------------------------------------- a rebalance

  /** What a whole rebalance does to the three tables. */
  ghost predicate Rebalanced(me: Identity, book: Book, r: Rebalance, t: Tables, u: Tables) {
    Moves(me, book, r, book.Keys, r.weights.Keys, t, u)
  }

  lemma SetOfSorted(keys: set<Symbol>)
    ensures SetOf(SortedKeys.Sorted(keys)) == keys
  {
    SortedKeys.SortedHasAll(keys);
    SetOfHolds(SortedKeys.Sorted(keys));
  }

  /** At a candle later than everything before: the holdings that have a price are gone from the positions and are
      trades at that price, the wanted symbols are positions at theirs, their events are recorded, and no other row
      of any table moves. */
  lemma RebalanceMoves(me: Identity, book: Book, t: Tables, r: Rebalance, last: int)
    requires me.capital > 0.0 && Mirrors(me, book, t) && UpTo(me, t, last) && last < r.candle
    ensures Replay(t, Events(me, book, r)).Ok? && Rebalanced(me, book, r, t, Replay(t, Events(me, book, r)).value)
  {
    FreshCandle(me, book, t, last, r.candle);
    KeptIsUnpriced(book, r);
    hide Mirrors, UpTo, Unused, Closes, Opens, Opened, Replay, Rest, AllFresh, Moves, Kept, Priced;
    var keys, wanted := SortedKeys.Sorted(book.Keys), SortedKeys.Sorted(r.weights.Keys);
    SortedKeys.SortedIsAscending(book.Keys);
    SortedKeys.SortedIsAscending(r.weights.Keys);
    SetOfSorted(book.Keys);
    SetOfSorted(r.weights.Keys);
    ReplayOfCloses(me, keys, book, t, r, last);
    ClosesMove(me, keys, book, t, r, last);
    KeptIsRest(book, r);
    var closes := Closes(me, keys, book, r);
    var u := Replay(t, closes).value;
    UnusedWithoutBook(me, Kept(book, r), u, r.candle);
    OpensMove(me, wanted, book, Kept(book, r), t, u, r, book.Keys);
    ReplayConcat(t, closes, Opens(me, wanted, Kept(book, r), r));
  }

  lemma KeptIsUnpriced(book: Book, r: Rebalance)
    ensures forall s :: s in Kept(book, r) ==> !Priced(r, s)
  {
    RetainedKeeps(SortedKeys.Sorted(book.Keys), book, r);
  }

  /** Candles rise from the start through the run. */
  lemma {:induction false} LaterIsRising(rs: seq<Rebalance>, start: int)
    ensures Later(rs, start) <==>
      (forall i :: 0 <= i < |rs| ==> start < rs[i].candle) &&
      (forall i, j :: 0 <= i < j < |rs| ==> rs[i].candle < rs[j].candle)
    decreases |rs|
  {
    if rs != [] {
      var init, n := rs[..|rs| - 1], |rs| - 1;
      LaterIsRising(init, start);
      assert forall i :: 0 <= i < n ==> init[i] == rs[i];
    }
  }

  /** The same of every rebalance of a run: each moves exactly these rows of what the earlier ones left. */
  lemma {:induction false} RunMoves(me: Identity, rs: seq<Rebalance>, t: Tables, start: int, k: nat)
    requires me.capital > 0.0 && Later(rs, start) && Unheard(me, t) && k < |rs|
    ensures Replay(t, RunStream(me, rs[..k])).Ok? && Replay(t, RunStream(me, rs[..k + 1])).Ok?
    ensures Rebalanced(me, RunBook(me, rs[..k]), rs[k], Replay(t, RunStream(me, rs[..k])).value,
                       Replay(t, RunStream(me, rs[..k + 1])).value)
    decreases |rs|
  {
    hide Rebalanced, Replay, Events, NextBook, Mirrors, UpTo, AllFresh;
    var init, r := rs[..|rs| - 1], rs[|rs| - 1];
    if k < |init| {
      RunMoves(me, init, t, start, k);
      assert init[..k] == rs[..k] && init[..k + 1] == rs[..k + 1];
    } else {
      assert rs[..k] == init && rs[..k + 1] == rs;
      StreamRebuildsBook(me, init, t, start);
      var u := Replay(t, RunStream(me, init)).value;
      RebalanceMoves(me, RunBook(me, init), u, r, LastCandle(init, start));
      ReplayConcat(t, RunStream(me, init), Events(me, RunBook(me, init), r));
    }
  }

  // ------------------------------------------------------------- what all trades come to

  /** The profit of a rebalance: its priced holdings, each from its entry to the price now. */
  predicate IsHoldingTrade(me: Identity, rs: seq<Rebalance>, k: nat, p: Id, x: VTrade)
    requires k < |rs|
  {
    var book := RunBook(me, rs[..k]);
    ClosedId(book, rs[k], book.Keys, p) && IsTrip(me, book[p.symbol], p.symbol, rs[k], x)
  }

  /** The trade row of an id is one the tables had before, or a holding's of some rebalance of the run. */
  ghost predicate Accounted(me: Identity, rs: seq<Rebalance>, t: Tables, u: Tables, p: Id) {
    && (p in t.trades ==> p in u.trades && u.trades[p] == t.trades[p])
    && (p in u.trades && p !in t.trades ==> exists k: nat :: k < |rs| && IsHoldingTrade(me, rs, k, p, u.trades[p]))
  }

  lemma AccountedNext(me: Identity, rs: seq<Rebalance>, t: Tables, u: Tables, v: Tables, p: Id)
    requires rs != [] && Accounted(me, rs[..|rs| - 1], t, u, p) && Unheard(me, t)
    requires var book, r := RunBook(me, rs[..|rs| - 1]), rs[|rs| - 1];
      Mirrors(me, book, u) && TradesMove(me, book, r, book.Keys, u.trades, v.trades)
    ensures Accounted(me, rs, t, v, p)
  {
    hide IsTrip, RunBook;
    var init, n := rs[..|rs| - 1], |rs| - 1;
    if ClosedId(RunBook(me, init), rs[n], RunBook(me, init).Keys, p) {
      assert Own(me, p);
      assert IsHoldingTrade(me, rs, n, p, v.trades[p]);
    } else if p in v.trades && p !in t.trades {
      var k: nat :| k < |init| && IsHoldingTrade(me, init, k, p, u.trades[p]);
      assert init[..k] == rs[..k];
      assert IsHoldingTrade(me, rs, k, p, v.trades[p]);
    }
  }

  /** Every trade a run adds is a holding of some rebalance's book, from its entry to that rebalance's price, and no
      trade that was there changes. */
  lemma {:induction false} EveryTradeIsATrip(me: Identity, rs: seq<Rebalance>, t: Tables, start: int, p: Id)
    requires me.capital > 0.0 && Later(rs, start) && Unheard(me, t)
    ensures Replay(t, RunStream(me, rs)).Ok?
    ensures Accounted(me, rs, t, Replay(t, RunStream(me, rs)).value, p)
    decreases |rs|
  {
    if rs != [] {
      hide Accounted, Replay, RunBook, RunStream, PositionsMove, TradesMove, EventsMove, Mirrors, AllFresh, UpTo;
      hide Unheard;
      var init, n := rs[..|rs| - 1], |rs| - 1;
      EveryTradeIsATrip(me, init, t, start, p);
      RunMoves(me, rs, t, start, n);
      StreamRebuildsBook(me, init, t, start);
      assert rs[..n + 1] == rs;
      AccountedNext(me, rs, t, Replay(t, RunStream(me, init)).value, Replay(t, RunStream(me, rs)).value, p);
    }
  }
}
