/** The publisher that turns a shadow strategy's rebalances into OPEN and CLOSE events, and
    why the consumer's tables end up holding exactly the publisher's own book. */
module VirtualPublisher {
  import opened Wrappers
  import opened Reals
  import opened VirtualLedger
  import C = VirtualConsumer
  import SortedKeys

  datatype Holding = Holding(
    positionId: Id, side: Side, entryPrice: real, qty: real, weight: real, openedAt: int, entryCandle: int,
    metadata: string)

  type Book = map<Symbol, Holding>

  /** One call of `rebalance`; `at` is its event time. */
  datatype Rebalance = Rebalance(weights: map<Symbol, real>, prices: map<Symbol, real>, candle: int, at: int,
                                 reason: string, metadata: string)

  datatype Identity = Identity(alpha: string, capital: real, exchange: Exchange)

  function PriceOf(prices: map<Symbol, real>, s: Symbol): real { if s in prices then prices[s] else 0.0 }

  function CloseEvent(me: Identity, s: Symbol, h: Holding, r: Rebalance): Event {
    Event(CloseId(h.positionId, r.candle), VirtualClose, h.positionId, me.alpha, s, h.side, PriceOf(r.prices, s), h.qty,
          At(r.at), r.candle, me.exchange, r.reason, "")
  }

  function OpenEvent(me: Identity, s: Symbol, h: Holding, r: Rebalance): Event {
    Event(OpenId(h.positionId), VirtualOpen, h.positionId, me.alpha, s, h.side, h.entryPrice, h.qty,
          At(r.at), r.candle, me.exchange, "VIRTUAL_REBALANCE", h.metadata)
  }

  function NewHolding(me: Identity, s: Symbol, weight: real, r: Rebalance): Holding
    requires PriceOf(r.prices, s) > 0.0
  {
    var price := PriceOf(r.prices, s);
    Holding(PositionId(me.alpha, s, r.candle), if weight > 0.0 then Long else Short, price,
            me.capital * Abs(weight) / price, weight, r.at, r.candle, r.metadata)
  }

  /** A new holding is worth its weight's share of the capital, on the weight's side. */
  lemma HoldingHasItsNotional(me: Identity, s: Symbol, weight: real, r: Rebalance)
    requires PriceOf(r.prices, s) > 0.0
    ensures var h := NewHolding(me, s, weight, r);
      && h.qty * h.entryPrice == me.capital * Abs(weight)
      && (weight != 0.0 ==> (h.side == Long <==> weight > 0.0))
  {
  }

  // -------------------------------------------------- what one rebalance publishes and keeps

  /** The CLOSE events, in symbol order: a holding with no price now is not closed. */
  function Closes(me: Identity, keys: seq<Symbol>, book: Book, r: Rebalance): seq<Event> {
    if keys == [] then []
    else
      var s := keys[|keys| - 1];
      var before := Closes(me, keys[..|keys| - 1], book, r);
      if s in book && PriceOf(r.prices, s) > 0.0 then before + [CloseEvent(me, s, book[s], r)] else before
  }

  function Retained(keys: seq<Symbol>, book: Book, r: Rebalance): Book {
    if keys == [] then map[]
    else
      var s := keys[|keys| - 1];
      var before := Retained(keys[..|keys| - 1], book, r);
      if s in book && PriceOf(r.prices, s) <= 0.0 then before[s := book[s]] else before
  }

  predicate Skipped(s: Symbol, next: Book, r: Rebalance) {
    s !in r.weights || r.weights[s] == 0.0 || PriceOf(r.prices, s) <= 0.0 || s in next
  }

  /** The book after opening the symbols of `keys`, in order, on top of what was retained. */
  function Opened(me: Identity, keys: seq<Symbol>, kept: Book, r: Rebalance): Book {
    if keys == [] then kept
    else
      var s := keys[|keys| - 1];
      var before := Opened(me, keys[..|keys| - 1], kept, r);
      if Skipped(s, before, r) then before else before[s := NewHolding(me, s, r.weights[s], r)]
  }

  function Opens(me: Identity, keys: seq<Symbol>, kept: Book, r: Rebalance): seq<Event> {
    if keys == [] then []
    else
      var s := keys[|keys| - 1];
      var before := Opens(me, keys[..|keys| - 1], kept, r);
      if Skipped(s, Opened(me, keys[..|keys| - 1], kept, r), r) then before
      else before + [OpenEvent(me, s, NewHolding(me, s, r.weights[s], r), r)]
  }

  function Kept(book: Book, r: Rebalance): Book { Retained(SortedKeys.Sorted(book.Keys), book, r) }

  function NextBook(me: Identity, book: Book, r: Rebalance): Book {
    Opened(me, SortedKeys.Sorted(r.weights.Keys), Kept(book, r), r)
  }

  function Events(me: Identity, book: Book, r: Rebalance): seq<Event> {
    Closes(me, SortedKeys.Sorted(book.Keys), book, r) + Opens(me, SortedKeys.Sorted(r.weights.Keys), Kept(book, r), r)
  }

  // ------------------------------------------------------------------- the publisher object

  /** What the transactional pipeline did as seen by the caller. */
  datatype Outcome = Delivered | ReplyLost | NotExecuted

  /** The two keys the publisher uses: its stream and its restart-safe state. */
  class Redis {
    var stream: seq<Raw>
    var state: Option<Book>

    constructor ()
      ensures stream == [] && state == None
    {
      stream, state := [], None;
    }
  }

  function Messages(events: seq<Event>): (r: seq<Raw>)
    ensures |r| == |events| && forall i :: 0 <= i < |r| ==> r[i] == Message(events[i])
  {
    seq(|events|, i requires 0 <= i < |events| => Message(events[i]))
  }

  class Publisher {
    const me: Identity
    const redis: Redis
    var positions: Book

    /** State that can be read is loaded.  If there is none, or it cannot be read, the current target book, if
        there is one, is opened as a first rebalance; when that fails, the publisher starts with no positions. */
    constructor (me: Identity, redis: Redis, readable: bool, target: Option<Rebalance>, outcome: Outcome)
      modifies redis
      ensures this.me == me && this.redis == redis
      ensures readable && old(redis.state).Some? ==> positions == old(redis.state).value
      ensures !readable || old(redis.state).None? ==>
        positions == if target.Some? && outcome.Delivered? then NextBook(me, map[], target.value) else map[]
      ensures (readable && old(redis.state).Some?) || target.None? || outcome.NotExecuted? ==>
        redis.stream == old(redis.stream) && redis.state == old(redis.state)
      ensures (!readable || old(redis.state).None?) && target.Some? && !outcome.NotExecuted? ==>
        redis.stream == old(redis.stream) + Messages(Events(me, map[], target.value)) &&
        redis.state == Some(NextBook(me, map[], target.value))
    {
      this.me, this.redis := me, redis;
      positions := if readable && redis.state.Some? then redis.state.value else map[];
      new;
      if (!readable || redis.state.None?) && target.Some? {
        var _ := Rebalance(target.value, outcome);
      }
    }

    method CloseLoop(book: Book, r: Rebalance) returns (events: seq<Event>, next: Book)
      ensures events == Closes(me, SortedKeys.Sorted(book.Keys), book, r) && next == Kept(book, r)
    {
      hide CloseEvent, PriceOf;
      events, next := [], map[];
      var keys := SortedKeys.Sorted(book.Keys);
      SortedKeys.SortedHasAll(book.Keys);
      for i := 0 to |keys|
        invariant events == Closes(me, keys[..i], book, r)
        invariant next == Retained(keys[..i], book, r)
      {
        var s := keys[i];
        ghost var upto := keys[..i + 1];
        assert upto[..|upto| - 1] == keys[..i] && upto[|upto| - 1] == s && s in book.Keys;
        if PriceOf(r.prices, s) <= 0.0 {
          next := next[s := book[s]];
        } else {
          events := events + [CloseEvent(me, s, book[s], r)];
        }
      }
      assert keys[..|keys|] == keys;
    }

    method OpenLoop(kept: Book, r: Rebalance) returns (events: seq<Event>, next: Book)
      ensures events == Opens(me, SortedKeys.Sorted(r.weights.Keys), kept, r)
      ensures next == Opened(me, SortedKeys.Sorted(r.weights.Keys), kept, r)
    {
      hide NewHolding, OpenEvent, PriceOf;
      events, next := [], kept;
      var keys := SortedKeys.Sorted(r.weights.Keys);
      for i := 0 to |keys|
        invariant events == Opens(me, keys[..i], kept, r)
        invariant next == Opened(me, keys[..i], kept, r)
      {
        var s := keys[i];
        ghost var upto := keys[..i + 1];
        assert upto[..|upto| - 1] == keys[..i] && upto[|upto| - 1] == s;
        if !Skipped(s, next, r) {
          var h := NewHolding(me, s, r.weights[s], r);
          next := next[s := h];
          events := events + [OpenEvent(me, s, h, r)];
        }
      }
      assert keys[..|keys|] == keys;
    }

    /** Build the events and the next book in two loops, publish both in one pipeline, and
        only then adopt the new book. */
    method Rebalance(r: Rebalance, outcome: Outcome) returns (ok: bool)
      modifies this, redis
      ensures ok == outcome.Delivered?
      ensures outcome.NotExecuted? ==>
        redis.stream == old(redis.stream) && redis.state == old(redis.state) && positions == old(positions)
      ensures !outcome.NotExecuted? ==>
        redis.stream == old(redis.stream) + Messages(Events(me, old(positions), r)) &&
        redis.state == Some(NextBook(me, old(positions), r))
      ensures outcome.Delivered? ==> positions == NextBook(me, old(positions), r)
      ensures outcome.ReplyLost? ==> positions == old(positions)
    {
      var closes, kept := CloseLoop(positions, r);
      var opens, next := OpenLoop(kept, r);
      var events := closes + opens;
      if outcome.NotExecuted? {
        return false;
      }
      redis.stream := redis.stream + Messages(events);
      redis.state := Some(next);
      if outcome.ReplyLost? {
        return false;
      }
      positions := next;
      ok := true;
    }
  }

  // ------------------------------------------------------ the book and the consumer's tables

  predicate Own(me: Identity, p: Id) { p.PositionId? && p.alpha == me.alpha }

  function AsPosition(me: Identity, s: Symbol, h: Holding): VPosition {
    VPosition(h.positionId, me.alpha, OpenId(h.positionId), s, h.side, h.entryPrice, h.qty, At(h.openedAt), h.metadata,
              me.exchange)
  }

  predicate SoundHolding(me: Identity, s: Symbol, h: Holding) {
    h.positionId == PositionId(me.alpha, s, h.entryCandle) && h.entryPrice > 0.0 && h.qty > 0.0
  }

  /** The tables hold the book: every holding, at its own content, and no other position of
      this publisher. */
  ghost predicate Mirrors(me: Identity, book: Book, t: Tables) {
    && (forall s :: s in book ==>
          SoundHolding(me, s, book[s]) && book[s].positionId in t.positions && book[s].positionId !in t.trades)
    && (forall s :: s in book ==>
          book[s].positionId in t.positions && t.positions[book[s].positionId] == AsPosition(me, s, book[s]))
    && (forall p :: p in t.positions && Own(me, p) ==> p.symbol in book && book[p.symbol].positionId == p)
  }

  /** Ids derived at `candle` for symbols not opened yet, and for holdings not closed yet,
      are unused. */
  ghost predicate Unused(me: Identity, book: Book, t: Tables, candle: int, done: set<Symbol>) {
    && (forall s :: s in book && book[s].entryCandle != candle ==> CloseId(book[s].positionId, candle) !in t.events)
    && (forall s :: s !in done ==>
          OpenId(PositionId(me.alpha, s, candle)) !in t.events && PositionId(me.alpha, s, candle) !in t.positions &&
          PositionId(me.alpha, s, candle) !in t.trades)
  }

  /** Nothing of this publisher dates from after `last`. */
  ghost predicate UpTo(me: Identity, t: Tables, last: int) {
    && (forall p :: Own(me, p) && (p in t.positions || p in t.trades || OpenId(p) in t.events) ==> p.candle <= last)
    && (forall p, c :: Own(me, p) && CloseId(p, c) in t.events ==> c <= last)
  }

  /** An event of this publisher that passes the consumer's checks under a new id. */
  predicate IsFresh(me: Identity, t: Tables, e: Event) {
    && e.eventId !in t.events && e.price > 0.0 && e.qty > 0.0 && Own(me, e.positionId)
    && (e.kind.VirtualOpen? ==> e.eventId == OpenId(e.positionId))
  }

  /** Every event of a log is fresh when its turn comes. */
  predicate AllFresh(me: Identity, t: Tables, log: seq<Event>)
    decreases |log|
  {
    log == [] ||
    (AllFresh(me, t, log[..|log| - 1]) && Replay(t, log[..|log| - 1]).Ok? &&
     IsFresh(me, Replay(t, log[..|log| - 1]).value, log[|log| - 1]))
  }

  lemma FreshAppend(me: Identity, t: Tables, log: seq<Event>, e: Event)
    requires AllFresh(me, t, log) && Replay(t, log).Ok? && IsFresh(me, Replay(t, log).value, e)
    ensures AllFresh(me, t, log + [e])
  {
  }

  lemma {:induction false} FreshConcat(me: Identity, t: Tables, a: seq<Event>, b: seq<Event>)
    requires AllFresh(me, t, a) && Replay(t, a).Ok? && AllFresh(me, Replay(t, a).value, b)
    ensures AllFresh(me, t, a + b)
    decreases |b|
  {
    if b == [] {
      assert a + b == a;
    } else {
      hide IsFresh, Apply, Replay;
      var init, last, all := b[..|b| - 1], b[|b| - 1], a + b;
      FreshConcat(me, t, a, init);
      ReplayConcat(t, a, init);
      assert all[..|all| - 1] == a + init && all[|all| - 1] == last;
    }
  }

  lemma CloseStep(me: Identity, book: Book, t: Tables, s: Symbol, r: Rebalance, last: int)
    requires Mirrors(me, book, t) && Unused(me, book, t, r.candle, {}) && UpTo(me, t, last) && last <= r.candle
    requires s in book && book[s].entryCandle != r.candle && PriceOf(r.prices, s) > 0.0
    ensures Apply(t, CloseEvent(me, s, book[s], r)).Ok? && IsFresh(me, t, CloseEvent(me, s, book[s], r))
    ensures var t' := Apply(t, CloseEvent(me, s, book[s], r)).value;
      Mirrors(me, book - {s}, t') && Unused(me, book - {s}, t', r.candle, {}) && UpTo(me, t', r.candle)
  {
  }

  lemma QuantityIsPositive(capital: real, weight: real, price: real)
    requires capital > 0.0 && weight != 0.0 && price > 0.0
    ensures capital * Abs(weight) / price > 0.0
  {
  }

  lemma OpenStep(me: Identity, book: Book, t: Tables, s: Symbol, r: Rebalance, done: set<Symbol>)
    requires me.capital > 0.0 && Mirrors(me, book, t) && Unused(me, map[], t, r.candle, done) && UpTo(me, t, r.candle)
    requires s in r.weights && s !in done && !Skipped(s, book, r)
    ensures var h := NewHolding(me, s, r.weights[s], r); var e := OpenEvent(me, s, h, r);
      && Apply(t, e).Ok? && IsFresh(me, t, e)
      && Mirrors(me, book[s := h], Apply(t, e).value) && Unused(me, map[], Apply(t, e).value, r.candle, done + {s})
      && UpTo(me, Apply(t, e).value, r.candle)
  {
    QuantityIsPositive(me.capital, r.weights[s], PriceOf(r.prices, s));
  }

  // --------------------------------------------------------------- a rebalance, replayed

  /** The book without the holdings that a prefix of the CLOSE loop has closed. */
  function Rest(keys: seq<Symbol>, book: Book, r: Rebalance): Book {
    if keys == [] then book
    else
      var s := keys[|keys| - 1];
      var before := Rest(keys[..|keys| - 1], book, r);
      if s in book && PriceOf(r.prices, s) > 0.0 then before - {s} else before
  }

  lemma {:induction false} RestKeeps(keys: seq<Symbol>, book: Book, r: Rebalance)
    ensures forall s :: s in Rest(keys, book, r) <==> s in book && (s in keys ==> PriceOf(r.prices, s) <= 0.0)
    ensures forall s :: s in Rest(keys, book, r) ==> Rest(keys, book, r)[s] == book[s]
    decreases |keys|
  {
    if keys != [] {
      RestKeeps(keys[..|keys| - 1], book, r);
      assert keys == keys[..|keys| - 1] + [keys[|keys| - 1]];
    }
  }

  lemma {:induction false} RetainedKeeps(keys: seq<Symbol>, book: Book, r: Rebalance)
    ensures forall s :: s in Retained(keys, book, r) <==> s in book && s in keys && PriceOf(r.prices, s) <= 0.0
    ensures forall s :: s in Retained(keys, book, r) ==> Retained(keys, book, r)[s] == book[s]
    decreases |keys|
  {
    if keys != [] {
      RetainedKeeps(keys[..|keys| - 1], book, r);
      assert keys == keys[..|keys| - 1] + [keys[|keys| - 1]];
    }
  }

  lemma KeptIsRest(book: Book, r: Rebalance)
    ensures Kept(book, r) == Rest(SortedKeys.Sorted(book.Keys), book, r)
  {
    var keys := SortedKeys.Sorted(book.Keys);
    SortedKeys.SortedHasAll(book.Keys);
    RetainedKeeps(keys, book, r);
    RestKeeps(keys, book, r);
    SameBook(Kept(book, r), Rest(keys, book, r), book);
  }

  lemma SameBook(a: Book, b: Book, book: Book)
    requires forall s :: s in a <==> s in b
    requires forall s :: s in a ==> s in book && a[s] == book[s]
    requires forall s :: s in b ==> s in book && b[s] == book[s]
    ensures a == b
  {
  }

  lemma {:induction false} ReplayOfCloses(me: Identity, keys: seq<Symbol>, book: Book, t: Tables, r: Rebalance,
                                          last: int)
    requires Mirrors(me, book, t) && Unused(me, book, t, r.candle, {}) && UpTo(me, t, last) && last <= r.candle
    requires SortedKeys.Ascending(keys) && forall s :: s in book ==> book[s].entryCandle != r.candle
    ensures Replay(t, Closes(me, keys, book, r)).Ok? && AllFresh(me, t, Closes(me, keys, book, r))
    ensures Mirrors(me, Rest(keys, book, r), Replay(t, Closes(me, keys, book, r)).value)
    ensures Unused(me, Rest(keys, book, r), Replay(t, Closes(me, keys, book, r)).value, r.candle, {})
    ensures UpTo(me, Replay(t, Closes(me, keys, book, r)).value, r.candle)
    decreases |keys|
  {
    if keys != [] {
      var init, s := keys[..|keys| - 1], keys[|keys| - 1];
      ReplayOfCloses(me, init, book, t, r, last);
      if s in book && PriceOf(r.prices, s) > 0.0 {
        RestKeeps(init, book, r);
        var rest, u := Rest(init, book, r), Replay(t, Closes(me, init, book, r)).value;
        hide Mirrors, Unused, UpTo, Apply, CloseEvent, IsFresh;
        assert s in rest && rest[s] == book[s];
        CloseStep(me, rest, u, s, r, r.candle);
        ReplayAppend(t, Closes(me, init, book, r), CloseEvent(me, s, book[s], r));
        FreshAppend(me, t, Closes(me, init, book, r), CloseEvent(me, s, book[s], r));
      }
    } else {
      Relax(me, t, last, r.candle);
    }
  }

  lemma Relax(me: Identity, t: Tables, last: int, later: int)
    requires UpTo(me, t, last) && last <= later
    ensures UpTo(me, t, later)
  {
  }

  function SetOf(keys: seq<Symbol>): set<Symbol> {
    if keys == [] then {} else SetOf(keys[..|keys| - 1]) + {keys[|keys| - 1]}
  }

  lemma {:induction false} SetOfHolds(keys: seq<Symbol>)
    ensures forall s :: s in SetOf(keys) <==> s in keys
  {
    if keys != [] {
      SetOfHolds(keys[..|keys| - 1]);
      assert keys == keys[..|keys| - 1] + [keys[|keys| - 1]];
    }
  }

  lemma {:induction false} ReplayOfOpens(me: Identity, keys: seq<Symbol>, kept: Book, t: Tables, r: Rebalance)
    requires me.capital > 0.0 && Mirrors(me, kept, t) && Unused(me, map[], t, r.candle, {}) && UpTo(me, t, r.candle)
    requires SortedKeys.Ascending(keys)
    ensures Replay(t, Opens(me, keys, kept, r)).Ok? && AllFresh(me, t, Opens(me, keys, kept, r))
    ensures Mirrors(me, Opened(me, keys, kept, r), Replay(t, Opens(me, keys, kept, r)).value)
    ensures UpTo(me, Replay(t, Opens(me, keys, kept, r)).value, r.candle)
    ensures Unused(me, map[], Replay(t, Opens(me, keys, kept, r)).value, r.candle, SetOf(keys))
    decreases |keys|
  {
    if keys != [] {
      var init, s := keys[..|keys| - 1], keys[|keys| - 1];
      ReplayOfOpens(me, init, kept, t, r);
      var before, u := Opened(me, init, kept, r), Replay(t, Opens(me, init, kept, r)).value;
      if !Skipped(s, before, r) {
        SetOfHolds(init);
        hide Mirrors, Unused, UpTo, Apply, OpenEvent, IsFresh;
        assert s !in SetOf(init);
        OpenStep(me, before, u, s, r, SetOf(init));
        ReplayAppend(t, Opens(me, init, kept, r), OpenEvent(me, s, NewHolding(me, s, r.weights[s], r), r));
        FreshAppend(me, t, Opens(me, init, kept, r), OpenEvent(me, s, NewHolding(me, s, r.weights[s], r), r));
      }
    }
  }

  lemma UnusedWithoutBook(me: Identity, book: Book, t: Tables, candle: int)
    requires Unused(me, book, t, candle, {})
    ensures Unused(me, map[], t, candle, {})
  {
  }

  /** One rebalance at a candle later than everything before: every CLOSE finds its position,
      every OPEN is new, and the tables mirror the next book. */
  lemma RebalanceIsMirrored(me: Identity, book: Book, t: Tables, r: Rebalance, last: int)
    requires me.capital > 0.0 && Mirrors(me, book, t) && UpTo(me, t, last) && last < r.candle
    ensures Replay(t, Events(me, book, r)).Ok? && AllFresh(me, t, Events(me, book, r))
    ensures Mirrors(me, NextBook(me, book, r), Replay(t, Events(me, book, r)).value)
    ensures UpTo(me, Replay(t, Events(me, book, r)).value, r.candle)
  {
    FreshCandle(me, book, t, last, r.candle);
    hide Mirrors, UpTo, Unused, Closes, Opens, Opened, Replay, Rest, AllFresh;
    var keys, wanted := SortedKeys.Sorted(book.Keys), SortedKeys.Sorted(r.weights.Keys);
    SortedKeys.SortedIsAscending(book.Keys);
    SortedKeys.SortedIsAscending(r.weights.Keys);
    ReplayOfCloses(me, keys, book, t, r, last);
    KeptIsRest(book, r);
    var closes := Closes(me, keys, book, r);
    var u := Replay(t, closes).value;
    UnusedWithoutBook(me, Kept(book, r), u, r.candle);
    ReplayOfOpens(me, wanted, Kept(book, r), u, r);
    ReplayConcat(t, closes, Opens(me, wanted, Kept(book, r), r));
    FreshConcat(me, t, closes, Opens(me, wanted, Kept(book, r), r));
  }

  /** A candle later than everything seen has only unused ids. */
  lemma FreshCandle(me: Identity, book: Book, t: Tables, last: int, candle: int)
    requires Mirrors(me, book, t) && UpTo(me, t, last) && last < candle
    ensures Unused(me, book, t, candle, {})
    ensures forall s :: s in book ==> book[s].entryCandle != candle
  {
  }

  // -------------------------------------------------------------- every run of rebalances

  function RunBook(me: Identity, rs: seq<Rebalance>): Book {
    if rs == [] then map[] else NextBook(me, RunBook(me, rs[..|rs| - 1]), rs[|rs| - 1])
  }

  function RunStream(me: Identity, rs: seq<Rebalance>): seq<Event> {
    if rs == [] then []
    else RunStream(me, rs[..|rs| - 1]) + Events(me, RunBook(me, rs[..|rs| - 1]), rs[|rs| - 1])
  }

  predicate Later(rs: seq<Rebalance>, start: int) {
    rs == [] || (Later(rs[..|rs| - 1], start) &&
                 (if |rs| == 1 then start else rs[|rs| - 2].candle) < rs[|rs| - 1].candle)
  }

  function LastCandle(rs: seq<Rebalance>, start: int): int { if rs == [] then start else rs[|rs| - 1].candle }

  /** Tables that have never heard of this publisher. */
  ghost predicate Unheard(me: Identity, t: Tables) {
    && (forall p :: Own(me, p) ==> p !in t.positions && p !in t.trades && OpenId(p) !in t.events)
    && (forall p, c :: Own(me, p) ==> CloseId(p, c) !in t.events)
  }

  /** The main result.  For every sequence of rebalances with rising candle times and positive
      capital, replaying the stream rebuilds exactly the publisher's book, whatever other
      publishers have already put in the tables. */
  lemma {:induction false} StreamRebuildsBook(me: Identity, rs: seq<Rebalance>, t: Tables, start: int)
    requires me.capital > 0.0 && Later(rs, start) && Unheard(me, t)
    ensures Replay(t, RunStream(me, rs)).Ok? && AllFresh(me, t, RunStream(me, rs))
    ensures Mirrors(me, RunBook(me, rs), Replay(t, RunStream(me, rs)).value)
    ensures UpTo(me, Replay(t, RunStream(me, rs)).value, LastCandle(rs, start))
    decreases |rs|
  {
    if rs != [] {
      var init, r := rs[..|rs| - 1], rs[|rs| - 1];
      StreamRebuildsBook(me, init, t, start);
      var book := RunBook(me, init);
      RebalanceIsMirrored(me, book, Replay(t, RunStream(me, init)).value, r, LastCandle(init, start));
      ReplayConcat(t, RunStream(me, init), Events(me, book, r));
      FreshConcat(me, t, RunStream(me, init), Events(me, book, r));
    }
  }

  // ---------------------------------------------- any delivery of the published stream

  /** What the event table says of this publisher's OPENs and CLOSEs. */
  ghost predicate Ledgered(t: Tables) {
    && (forall p :: p in t.positions ==> t.positions[p].positionId == p)
    && (forall id :: id in t.events ==> t.events[id].eventId == id)
    && (forall id :: id in t.events && t.events[id].kind.VirtualOpen? ==> id == OpenId(t.events[id].positionId))
    && (forall id :: id in t.events && t.events[id].kind.VirtualClose? ==>
          t.events[id].positionId in t.trades && t.trades[t.events[id].positionId].signalId == id)
  }

  lemma FreshKeepsLedgered(me: Identity, t: Tables, e: Event)
    requires Ledgered(t) && IsFresh(me, t, e) && Apply(t, e).Ok?
    ensures Ledgered(Apply(t, e).value)
  {
  }

  ghost predicate AllRecorded(t: Tables, log: seq<Event>) { forall i :: 0 <= i < |log| ==> Recorded(t, log[i]) }

  lemma FreshKeepsRecorded(me: Identity, t: Tables, log: seq<Event>, e: Event)
    requires AllRecorded(t, log) && IsFresh(me, t, e) && Apply(t, e).Ok?
    ensures AllRecorded(Apply(t, e).value, log + [e])
  {
  }

  lemma {:induction false} FreshLogIsLedgered(me: Identity, log: seq<Event>)
    requires AllFresh(me, EMPTY, log) && Replay(EMPTY, log).Ok?
    ensures Ledgered(Replay(EMPTY, log).value) && AllRecorded(Replay(EMPTY, log).value, log)
    decreases |log|
  {
    if log != [] {
      hide Ledgered, AllRecorded, Apply, IsFresh;
      var init, e := log[..|log| - 1], log[|log| - 1];
      FreshLogIsLedgered(me, init);
      assert log == init + [e];
      ReplayAppend(EMPTY, init, e);
      FreshKeepsLedgered(me, Replay(EMPTY, init).value, e);
      FreshKeepsRecorded(me, Replay(EMPTY, init).value, init, e);
    }
  }

  lemma {:induction false} FreshLogIsPositive(me: Identity, log: seq<Event>)
    requires AllFresh(me, EMPTY, log)
    ensures forall i :: 0 <= i < |log| ==> log[i].price > 0.0 && log[i].qty > 0.0
    decreases |log|
  {
    if log != [] {
      FreshLogIsPositive(me, log[..|log| - 1]);
      assert forall i :: 0 <= i < |log| - 1 ==> log[i] == log[..|log| - 1][i];
    }
  }

  lemma FreshLogIsDistinct(me: Identity, log: seq<Event>)
    requires AllFresh(me, EMPTY, log) && Replay(EMPTY, log).Ok?
    ensures Distinct(EventsOf(log))
  {
    FreshLogIsLedgered(me, log);
    var t := Replay(EMPTY, log).value;
    assert forall e :: e in EventsOf(log) ==> Recorded(t, e);
  }

  /** The publisher and the consumer together: whatever the schedule of deliveries, failures
      and lost acks, once every message is acked the tables hold the publisher's book. */
  lemma AnyDeliveryMirrorsTheBook(me: Identity, rs: seq<Rebalance>, start: int, steps: seq<C.Step>)
    requires me.capital > 0.0 && Later(rs, start)
    requires C.IsRun(C.INITIAL, Messages(RunStream(me, rs)), steps)
    requires forall i :: 0 <= i < |RunStream(me, rs)| ==>
      i in C.Run(C.INITIAL, Messages(RunStream(me, rs)), steps).acked
    ensures Mirrors(me, RunBook(me, rs), C.Run(C.INITIAL, Messages(RunStream(me, rs)), steps).tables)
    ensures Replay(EMPTY, RunStream(me, rs)) == Ok(C.Run(C.INITIAL, Messages(RunStream(me, rs)), steps).tables)
  {
    var stream := RunStream(me, rs);
    var log := Messages(stream);
    StreamRebuildsBook(me, rs, EMPTY, start);
    FreshLogIsPositive(me, stream);
    FreshLogIsDistinct(me, stream);
    hide Mirrors, Distinct, Replay, AllFresh, UpTo, RunStream, RunBook;
    forall i | 0 <= i < |log| ensures Validate(log[i]) == Ok(stream[i]) {
      MessageRoundTrip(stream[i]);
    }
    assert C.AllValid(log);
    assert C.Decoded(log) == stream;
    C.DecodedEvents(log);
    C.ScheduleDoesNotMatter(log, steps);
  }

  // -------------------------------------------------------------- a reply that got lost

  lemma {:induction false} ClosesKeepIds(me: Identity, keys: seq<Symbol>, book: Book, r: Rebalance, at: int)
    ensures |Closes(me, keys, book, r.(at := at))| == |Closes(me, keys, book, r)|
    ensures forall i :: 0 <= i < |Closes(me, keys, book, r)| ==>
      Closes(me, keys, book, r.(at := at))[i].eventId == Closes(me, keys, book, r)[i].eventId
    decreases |keys|
  {
    if keys != [] {
      ClosesKeepIds(me, keys[..|keys| - 1], book, r, at);
    }
  }

  lemma {:induction false} OpensKeepIds(me: Identity, keys: seq<Symbol>, kept: Book, r: Rebalance, at: int)
    ensures Opened(me, keys, kept, r.(at := at)).Keys == Opened(me, keys, kept, r).Keys
    ensures |Opens(me, keys, kept, r.(at := at))| == |Opens(me, keys, kept, r)|
    ensures forall i :: 0 <= i < |Opens(me, keys, kept, r)| ==>
      Opens(me, keys, kept, r.(at := at))[i].eventId == Opens(me, keys, kept, r)[i].eventId
    decreases |keys|
  {
    if keys != [] {
      OpensKeepIds(me, keys[..|keys| - 1], kept, r, at);
    }
  }

  lemma {:induction false} RetainedIgnoresTime(keys: seq<Symbol>, book: Book, r: Rebalance, at: int)
    ensures Retained(keys, book, r.(at := at)) == Retained(keys, book, r)
    decreases |keys|
  {
    if keys != [] {
      RetainedIgnoresTime(keys[..|keys| - 1], book, r, at);
    }
  }

  lemma {:induction false} ReplayRecordsIds(t: Tables, log: seq<Event>)
    requires Replay(t, log).Ok?
    ensures forall id :: id in t.events ==> id in Replay(t, log).value.events
    ensures forall i :: 0 <= i < |log| ==> log[i].eventId in Replay(t, log).value.events
    decreases |log|
  {
    if log != [] {
      ReplayRecordsIds(Apply(t, log[0]).value, log[1..]);
      forall i | 0 <= i < |log| ensures log[i].eventId in Replay(t, log).value.events {
        assert i > 0 ==> log[i] == log[1..][i - 1];
      }
    }
  }

  /** Trying the same rebalance again from the same book, even at a later clock time,
      publishes only ids the consumer knows, and leaves its tables alone. */
  lemma RepeatAfterLostReply(me: Identity, book: Book, t: Tables, r: Rebalance, at: int)
    requires Replay(t, Events(me, book, r)).Ok?
    ensures var t' := Replay(t, Events(me, book, r)).value;
      Replay(t', Events(me, book, r.(at := at))) == Ok(t')
  {
    var again := r.(at := at);
    var keys, wanted := SortedKeys.Sorted(book.Keys), SortedKeys.Sorted(r.weights.Keys);
    var t' := Replay(t, Events(me, book, r)).value;
    ReplayRecordsIds(t, Events(me, book, r));
    RetainedIgnoresTime(keys, book, r, at);
    ClosesKeepIds(me, keys, book, r, at);
    OpensKeepIds(me, wanted, Kept(book, r), r, at);
    var events, repeated := Events(me, book, r), Events(me, book, again);
    forall i | 0 <= i < |repeated| ensures repeated[i].eventId in t'.events {
      assert repeated[i].eventId == events[i].eventId;
    }
    ReplayOfKnown(t', repeated);
  }

  lemma {:induction false} OpenedIsKeptOrNew(me: Identity, keys: seq<Symbol>, kept: Book, r: Rebalance)
    ensures forall s :: s in Opened(me, keys, kept, r) ==>
      (s in kept && Opened(me, keys, kept, r)[s] == kept[s]) ||
      Opened(me, keys, kept, r)[s].positionId == PositionId(me.alpha, s, r.candle)
    decreases |keys|
  {
    if keys != [] {
      OpenedIsKeptOrNew(me, keys[..|keys| - 1], kept, r);
    }
  }

  /** But going on to the next candle from the stale book does not work: its CLOSE of a
      holding that the lost rebalance already closed is refused. */
  lemma StaleBookIsRefused(me: Identity, book: Book, t: Tables, r: Rebalance, last: int, s: Symbol, next: Rebalance)
    requires me.capital > 0.0 && Mirrors(me, book, t) && UpTo(me, t, last) && last < r.candle < next.candle
    requires s in book && PriceOf(r.prices, s) > 0.0
    ensures Replay(t, Events(me, book, r)).Ok?
    ensures Apply(Replay(t, Events(me, book, r)).value, CloseEvent(me, s, book[s], next)) == Err(PositionNotFound)
  {
    RebalanceIsMirrored(me, book, t, r, last);
    var p, keys := book[s].positionId, SortedKeys.Sorted(book.Keys);
    assert Own(me, p) && p.candle <= last;
    RetainedKeeps(keys, book, r);
    OpenedIsKeptOrNew(me, SortedKeys.Sorted(r.weights.Keys), Kept(book, r), r);
  }

  // ------------------------------------------------------- two rebalances at one candle

  lemma SortedOfOne(s: nat)
    ensures SortedKeys.Sorted({s}) == [s]
  {
  }

  /** Rising candle times are needed.  A second rebalance at the candle that opened a holding
      reuses its ids: the consumer closes the position and ignores the OPEN. */
  lemma SameCandleDiverges(me: Identity, t: Tables, s: Symbol, h: Holding, r: Rebalance)
    requires me.capital > 0.0 && Mirrors(me, map[s := h], t)
    requires h.entryCandle == r.candle && OpenId(h.positionId) in t.events
    requires CloseId(h.positionId, r.candle) !in t.events
    requires PriceOf(r.prices, s) > 0.0 && r.weights.Keys == {s} && r.weights[s] != 0.0
    ensures Replay(t, Events(me, map[s := h], r)).Ok?
    ensures !Mirrors(me, NextBook(me, map[s := h], r), Replay(t, Events(me, map[s := h], r)).value)
  {
    OneSymbolEvents(me, s, h, r);
    var c, o := CloseEvent(me, s, h, r), OpenEvent(me, s, NewHolding(me, s, r.weights[s], r), r);
    var u := Apply(t, c).value;
    assert Apply(u, o) == Ok(u);
    ReplayOfTwo(t, c, o);
  }

  lemma ReplayOfTwo(t: Tables, c: Event, o: Event)
    requires Apply(t, c).Ok?
    ensures Replay(t, [c, o]) == Apply(Apply(t, c).value, o)
  {
    hide Apply;
    var log := [c] + [o];
    assert [c, o] == log && [c][1..] == [];
    ReplayAppend(t, [c], o);
  }

  /** A book and a target of the same one priced symbol: one CLOSE and one OPEN. */
  lemma OneSymbolEvents(me: Identity, s: Symbol, h: Holding, r: Rebalance)
    requires PriceOf(r.prices, s) > 0.0 && r.weights.Keys == {s} && r.weights[s] != 0.0
    ensures Events(me, map[s := h], r) ==
      [CloseEvent(me, s, h, r), OpenEvent(me, s, NewHolding(me, s, r.weights[s], r), r)]
    ensures NextBook(me, map[s := h], r) == map[s := NewHolding(me, s, r.weights[s], r)]
  {
    hide CloseEvent, OpenEvent, NewHolding;
    var book: Book := map[s := h];
    assert book.Keys == {s};
    SortedOfOne(s);
    var one := [s];
    assert one[..0] == [] && SortedKeys.Sorted(book.Keys) == one && SortedKeys.Sorted(r.weights.Keys) == one;
    assert Retained(one, book, r) == Retained([], book, r) == map[];
    assert Closes(me, one, book, r) == [CloseEvent(me, s, h, r)];
    assert Opens(me, one, map[], r) == [OpenEvent(me, s, NewHolding(me, s, r.weights[s], r), r)];
  }
}
