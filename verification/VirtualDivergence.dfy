/** When a publisher and the consumer's tables come apart: after a rebalance whose reply was
    lost, and when two rebalances share a candle.  In both cases the condition is exact and
    can be read off before the rebalance is published. */
module VirtualDivergence {
  import opened VirtualLedger
  import opened VirtualPublisher
  import SortedKeys

  // ------------------------------------------------------ what one rebalance does, in full

  predicate Wanted(s: Symbol, r: Rebalance) {
    s in r.weights && r.weights[s] != 0.0 && PriceOf(r.prices, s) > 0.0
  }

  lemma {:induction false} OpenedExactly(me: Identity, keys: seq<Symbol>, kept: Book, r: Rebalance)
    ensures forall s :: s in Opened(me, keys, kept, r) <==> s in kept || (s in keys && Wanted(s, r))
    ensures forall s :: s in kept ==> Opened(me, keys, kept, r)[s] == kept[s]
    ensures forall s :: s in Opened(me, keys, kept, r) && s !in kept ==>
      Wanted(s, r) && Opened(me, keys, kept, r)[s] == NewHolding(me, s, r.weights[s], r)
    decreases |keys|
  {
    if keys != [] {
      hide NewHolding, PriceOf;
      var init, s := keys[..|keys| - 1], keys[|keys| - 1];
      OpenedExactly(me, init, kept, r);
      assert keys == init + [s];
    }
  }

  /** The next book: the holdings without a price now, and a new holding for each other wanted symbol. */
  lemma NextBookIs(me: Identity, book: Book, r: Rebalance)
    ensures forall s :: s in NextBook(me, book, r) <==> (s in book && PriceOf(r.prices, s) <= 0.0) || Wanted(s, r)
    ensures forall s :: s in book && PriceOf(r.prices, s) <= 0.0 ==>
      s in NextBook(me, book, r) && NextBook(me, book, r)[s] == book[s]
    ensures forall s :: s in NextBook(me, book, r) && PriceOf(r.prices, s) > 0.0 ==>
      s in r.weights && NextBook(me, book, r)[s] == NewHolding(me, s, r.weights[s], r)
    ensures forall s :: s in Kept(book, r) <==> s in book && PriceOf(r.prices, s) <= 0.0
    ensures forall s :: s in Kept(book, r) ==> Kept(book, r)[s] == book[s]
  {
    var keys, wanted := SortedKeys.Sorted(book.Keys), SortedKeys.Sorted(r.weights.Keys);
    SortedKeys.SortedHasAll(book.Keys);
    SortedKeys.SortedHasAll(r.weights.Keys);
    RetainedKeeps(keys, book, r);
    OpenedExactly(me, wanted, Kept(book, r), r);
  }

  predicate IsCloseOf(me: Identity, book: Book, r: Rebalance, e: Event) {
    exists s :: s in book && PriceOf(r.prices, s) > 0.0 && e == CloseEvent(me, s, book[s], r)
  }

  predicate IsOpenOf(me: Identity, r: Rebalance, e: Event) {
    exists s :: s in r.weights && Wanted(s, r) && e == OpenEvent(me, s, NewHolding(me, s, r.weights[s], r), r)
  }

  lemma {:induction false} ClosesAre(me: Identity, keys: seq<Symbol>, book: Book, r: Rebalance)
    ensures forall i :: 0 <= i < |Closes(me, keys, book, r)| ==> IsCloseOf(me, book, r, Closes(me, keys, book, r)[i])
    ensures forall s :: s in keys && s in book && PriceOf(r.prices, s) > 0.0 ==>
      CloseEvent(me, s, book[s], r) in Closes(me, keys, book, r)
    decreases |keys|
  {
    if keys != [] {
      hide CloseEvent, PriceOf;
      ClosesAre(me, keys[..|keys| - 1], book, r);
      assert keys == keys[..|keys| - 1] + [keys[|keys| - 1]];
    }
  }

  lemma {:induction false} OpensAre(me: Identity, keys: seq<Symbol>, kept: Book, r: Rebalance)
    ensures forall i :: 0 <= i < |Opens(me, keys, kept, r)| ==> IsOpenOf(me, r, Opens(me, keys, kept, r)[i])
    ensures forall s :: s in keys && s in r.weights && Wanted(s, r) && s !in kept ==>
      OpenEvent(me, s, NewHolding(me, s, r.weights[s], r), r) in Opens(me, keys, kept, r)
    decreases |keys|
  {
    if keys != [] {
      hide NewHolding, OpenEvent, PriceOf;
      var init, s := keys[..|keys| - 1], keys[|keys| - 1];
      OpensAre(me, init, kept, r);
      OpenedExactly(me, init, kept, r);
      assert keys == init + [s];
    }
  }

  lemma OpensAreOpens(me: Identity, keys: seq<Symbol>, kept: Book, r: Rebalance)
    ensures OnlyOpens(Opens(me, keys, kept, r))
  {
    OpensAre(me, keys, kept, r);
  }

  // ------------------------------------------------- a rebalance on tables of any age

  /** None of the holdings has been closed at this candle. */
  ghost predicate ClosesUnused(me: Identity, book: Book, t: Tables, candle: int) {
    forall s :: s in book ==> CloseId(book[s].positionId, candle) !in t.events
  }

  /** Every position of this publisher, open or closed, has its OPEN recorded. */
  ghost predicate Rooted(me: Identity, t: Tables) {
    forall p :: Own(me, p) && (p in t.positions || p in t.trades) ==> OpenId(p) in t.events
  }

  ghost predicate SameOpens(t: Tables, u: Tables) { forall p :: OpenId(p) in t.events <==> OpenId(p) in u.events }

  lemma CloseAtAnyCandle(me: Identity, book: Book, t: Tables, s: Symbol, r: Rebalance)
    requires Mirrors(me, book, t) && ClosesUnused(me, book, t, r.candle) && Rooted(me, t)
    requires s in book && PriceOf(r.prices, s) > 0.0
    ensures var applied := Apply(t, CloseEvent(me, s, book[s], r));
      && applied.Ok? && Mirrors(me, book - {s}, applied.value) && ClosesUnused(me, book - {s}, applied.value, r.candle)
      && Rooted(me, applied.value) && SameOpens(t, applied.value)
  {
  }

  lemma OpenOfNewPosition(me: Identity, book: Book, t: Tables, s: Symbol, r: Rebalance)
    requires me.capital > 0.0 && Mirrors(me, book, t) && Rooted(me, t) && !Skipped(s, book, r)
    requires OpenId(PositionId(me.alpha, s, r.candle)) !in t.events
    ensures var h := NewHolding(me, s, r.weights[s], r); var applied := Apply(t, OpenEvent(me, s, h, r));
      && applied.Ok? && Mirrors(me, book[s := h], applied.value) && Rooted(me, applied.value)
      && forall p :: OpenId(p) in applied.value.events ==>
           OpenId(p) in t.events || p == PositionId(me.alpha, s, r.candle)
  {
    QuantityIsPositive(me.capital, r.weights[s], PriceOf(r.prices, s));
  }

  lemma {:induction false} ClosesAtAnyCandle(me: Identity, keys: seq<Symbol>, book: Book, t: Tables, r: Rebalance)
    requires Mirrors(me, book, t) && ClosesUnused(me, book, t, r.candle) && Rooted(me, t) && SortedKeys.Ascending(keys)
    ensures Replay(t, Closes(me, keys, book, r)).Ok?
    ensures var u := Replay(t, Closes(me, keys, book, r)).value;
      && Mirrors(me, Rest(keys, book, r), u) && ClosesUnused(me, Rest(keys, book, r), u, r.candle)
      && Rooted(me, u) && SameOpens(t, u)
    decreases |keys|
  {
    if keys != [] {
      var init, s := keys[..|keys| - 1], keys[|keys| - 1];
      ClosesAtAnyCandle(me, init, book, t, r);
      if s in book && PriceOf(r.prices, s) > 0.0 {
        RestKeeps(init, book, r);
        var rest, u := Rest(init, book, r), Replay(t, Closes(me, init, book, r)).value;
        hide Mirrors, ClosesUnused, Rooted, Apply, CloseEvent;
        assert s in rest && rest[s] == book[s];
        CloseAtAnyCandle(me, rest, u, s, r);
        ReplayAppend(t, Closes(me, init, book, r), CloseEvent(me, s, book[s], r));
      }
    }
  }

  /** The OPEN ids that a rebalance would use, for the symbols it wants. */
  ghost predicate OpensUnused(me: Identity, keys: seq<Symbol>, t: Tables, r: Rebalance) {
    forall s :: s in keys && Wanted(s, r) ==> OpenId(PositionId(me.alpha, s, r.candle)) !in t.events
  }

  lemma {:induction false} OpensOfNewPositions(me: Identity, keys: seq<Symbol>, kept: Book, t: Tables, r: Rebalance)
    requires me.capital > 0.0 && Mirrors(me, kept, t) && Rooted(me, t)
    requires SortedKeys.Ascending(keys) && OpensUnused(me, keys, t, r)
    ensures Replay(t, Opens(me, keys, kept, r)).Ok?
    ensures var u := Replay(t, Opens(me, keys, kept, r)).value;
      && Mirrors(me, Opened(me, keys, kept, r), u) && Rooted(me, u)
      && forall p :: OpenId(p) in u.events ==> OpenId(p) in t.events || (p.PositionId? && p.symbol in keys)
    decreases |keys|
  {
    if keys != [] {
      var init, s := keys[..|keys| - 1], keys[|keys| - 1];
      assert forall x :: x in init ==> x in keys;
      OpensOfNewPositions(me, init, kept, t, r);
      var before, u := Opened(me, init, kept, r), Replay(t, Opens(me, init, kept, r)).value;
      if !Skipped(s, before, r) {
        hide Mirrors, Rooted, Apply, OpenEvent, NewHolding, PriceOf;
        assert s !in init;
        OpenOfNewPosition(me, before, u, s, r);
        ReplayAppend(t, Opens(me, init, kept, r), OpenEvent(me, s, NewHolding(me, s, r.weights[s], r), r));
      }
    }
  }

  // -------------------------------------------------------------- two rebalances at one candle

  /** Some symbol that the rebalance opens had its OPEN for that candle recorded before. */
  ghost predicate ReusesAnOpen(me: Identity, t: Tables, r: Rebalance) {
    exists s :: Wanted(s, r) && OpenId(PositionId(me.alpha, s, r.candle)) in t.events
  }

  lemma AfterTheCloses(me: Identity, book: Book, t: Tables, r: Rebalance)
    requires Mirrors(me, book, t) && Rooted(me, t) && ClosesUnused(me, book, t, r.candle)
    ensures var closes := Closes(me, SortedKeys.Sorted(book.Keys), book, r);
      && Replay(t, closes).Ok? && Mirrors(me, Kept(book, r), Replay(t, closes).value)
      && Rooted(me, Replay(t, closes).value) && SameOpens(t, Replay(t, closes).value)
  {
    SortedKeys.SortedIsAscending(book.Keys);
    ClosesAtAnyCandle(me, SortedKeys.Sorted(book.Keys), book, t, r);
    KeptIsRest(book, r);
  }

  lemma NewOpensMirror(me: Identity, kept: Book, u: Tables, r: Rebalance)
    requires me.capital > 0.0 && Mirrors(me, kept, u) && Rooted(me, u) && !ReusesAnOpen(me, u, r)
    ensures var opens := Opens(me, SortedKeys.Sorted(r.weights.Keys), kept, r);
      && Replay(u, opens).Ok?
      && Mirrors(me, Opened(me, SortedKeys.Sorted(r.weights.Keys), kept, r), Replay(u, opens).value)
  {
    SortedKeys.SortedIsAscending(r.weights.Keys);
    OpensOfNewPositions(me, SortedKeys.Sorted(r.weights.Keys), kept, u, r);
  }

  lemma KnownOpenLeavesNoPosition(me: Identity, book: Book, u: Tables, r: Rebalance)
    requires Mirrors(me, Kept(book, r), u) && ReusesAnOpen(me, u, r)
    requires Replay(u, Opens(me, SortedKeys.Sorted(r.weights.Keys), Kept(book, r), r)).Ok?
    ensures var opens := Opens(me, SortedKeys.Sorted(r.weights.Keys), Kept(book, r), r);
      !Mirrors(me, NextBook(me, book, r), Replay(u, opens).value)
  {
    var opens := Opens(me, SortedKeys.Sorted(r.weights.Keys), Kept(book, r), r);
    var s :| Wanted(s, r) && OpenId(PositionId(me.alpha, s, r.candle)) in u.events;
    var p := PositionId(me.alpha, s, r.candle);
    NextBookIs(me, book, r);
    OpensAre(me, SortedKeys.Sorted(r.weights.Keys), Kept(book, r), r);
    assert s !in Kept(book, r) && p !in u.positions;
    assert NoNewOpen(u, opens, p);
    AbsentUnlessOpened(u, opens, p);
    assert NextBook(me, book, r)[s].positionId == p;
  }

  /** A rebalance whose candle has closed none of the holdings always replays.  The tables then mirror the next
      book exactly if none of the symbols it opens has already been opened at that candle. */
  lemma SameCandleIff(me: Identity, book: Book, t: Tables, r: Rebalance)
    requires me.capital > 0.0 && Mirrors(me, book, t) && Rooted(me, t) && ClosesUnused(me, book, t, r.candle)
    ensures Replay(t, Events(me, book, r)).Ok?
    ensures Mirrors(me, NextBook(me, book, r), Replay(t, Events(me, book, r)).value) <==> !ReusesAnOpen(me, t, r)
  {
    var closes := Closes(me, SortedKeys.Sorted(book.Keys), book, r);
    var opens := Opens(me, SortedKeys.Sorted(r.weights.Keys), Kept(book, r), r);
    AfterTheCloses(me, book, t, r);
    var u := Replay(t, closes).value;
    OpensAreOpens(me, SortedKeys.Sorted(r.weights.Keys), Kept(book, r), r);
    OpensNeverFail(u, opens);
    ReplayConcat(t, closes, opens);
    hide Mirrors, Rooted, Replay, Closes, Opens, Opened, Kept, ClosesUnused;
    assert ReusesAnOpen(me, t, r) <==> ReusesAnOpen(me, u, r);
    if ReusesAnOpen(me, u, r) {
      KnownOpenLeavesNoPosition(me, book, u, r);
    } else {
      NewOpensMirror(me, Kept(book, r), u, r);
    }
  }

  // ---------------------------------------------------------------- going on from a stale book

  /** Some holding has a price in both rebalances. */
  predicate PricedInBoth(book: Book, r: Rebalance, next: Rebalance) {
    exists s :: s in book && PriceOf(r.prices, s) > 0.0 && PriceOf(next.prices, s) > 0.0
  }

  lemma {:induction false} SameCloses(me: Identity, keys: seq<Symbol>, a: Book, b: Book, r: Rebalance)
    requires forall s :: s in keys && PriceOf(r.prices, s) > 0.0 ==> (s in a <==> s in b) && (s in a ==> a[s] == b[s])
    ensures Closes(me, keys, a, r) == Closes(me, keys, b, r)
    decreases |keys|
  {
    if keys != [] {
      assert keys == keys[..|keys| - 1] + [keys[|keys| - 1]];
      SameCloses(me, keys[..|keys| - 1], a, b, r);
    }
  }

  lemma EventsAre(me: Identity, book: Book, r: Rebalance)
    ensures forall i :: 0 <= i < |Events(me, book, r)| ==>
      IsCloseOf(me, book, r, Events(me, book, r)[i]) || IsOpenOf(me, r, Events(me, book, r)[i])
    ensures forall s :: s in book && PriceOf(r.prices, s) > 0.0 ==> CloseEvent(me, s, book[s], r) in Events(me, book, r)
    ensures forall s :: s in r.weights && Wanted(s, r) ==>
      OpenEvent(me, s, NewHolding(me, s, r.weights[s], r), r) in Events(me, book, r)
  {
    SortedKeys.SortedHasAll(book.Keys);
    SortedKeys.SortedHasAll(r.weights.Keys);
    NextBookIs(me, book, r);
    ClosesAre(me, SortedKeys.Sorted(book.Keys), book, r);
    OpensAre(me, SortedKeys.Sorted(r.weights.Keys), Kept(book, r), r);
  }

  /** Nothing to close and nothing to open. */
  predicate Idle(book: Book, r: Rebalance) {
    && (forall s :: s in book ==> PriceOf(r.prices, s) <= 0.0)
    && (forall s :: s in r.weights ==> !Wanted(s, r))
  }

  lemma IdleIff(me: Identity, book: Book, r: Rebalance)
    ensures Events(me, book, r) == [] <==> Idle(book, r)
  {
    EventsAre(me, book, r);
    hide Events, CloseEvent, OpenEvent, NewHolding;
    if Events(me, book, r) != [] {
      assert IsCloseOf(me, book, r, Events(me, book, r)[0]) || IsOpenOf(me, r, Events(me, book, r)[0]);
    }
  }

  /** A holding's position after a rebalance: there exactly if the holding had no price. */
  lemma ClosedByRebalance(me: Identity, book: Book, t: Tables, r: Rebalance, last: int, s: Symbol)
    requires me.capital > 0.0 && Mirrors(me, book, t) && UpTo(me, t, last) && last < r.candle
    requires s in book && PriceOf(r.prices, s) > 0.0
    ensures Replay(t, Events(me, book, r)).Ok?
    ensures book[s].positionId !in Replay(t, Events(me, book, r)).value.positions
    ensures book[s].entryCandle <= last
  {
    RebalanceIsMirrored(me, book, t, r, last);
    NextBookIs(me, book, r);
    assert Own(me, book[s].positionId);
  }

  ghost predicate SoundBook(me: Identity, book: Book) {
    forall s :: s in book ==> book[s].positionId == PositionId(me.alpha, s, book[s].entryCandle)
  }

  lemma StaleLog(me: Identity, book: Book, u: Tables, next: Rebalance, s: Symbol)
    requires SoundBook(me, book) && s in book && book[s].entryCandle != next.candle
    ensures NoNewOpen(u, Events(me, book, next), book[s].positionId)
    ensures PriceOf(next.prices, s) > 0.0 ==>
      && HasId(Events(me, book, next), CloseId(book[s].positionId, next.candle))
      && OnlyClosesOf(Events(me, book, next), CloseId(book[s].positionId, next.candle), book[s].positionId)
  {
    EventsAre(me, book, next);
    hide Events, PriceOf;
  }

  /** The CLOSE of a holding that the lost rebalance closed already stops the replay. */
  lemma PricedInBothFails(me: Identity, book: Book, t: Tables, r: Rebalance, last: int, next: Rebalance)
    requires me.capital > 0.0 && Mirrors(me, book, t) && UpTo(me, t, last) && last < r.candle < next.candle
    requires PricedInBoth(book, r, next)
    ensures Replay(t, Events(me, book, r)).Ok?
    ensures Replay(Replay(t, Events(me, book, r)).value, Events(me, book, next)).Err?
  {
    RebalanceIsMirrored(me, book, t, r, last);
    var u, log := Replay(t, Events(me, book, r)).value, Events(me, book, next);
    var s :| s in book && PriceOf(r.prices, s) > 0.0 && PriceOf(next.prices, s) > 0.0;
    var p := book[s].positionId;
    ClosedByRebalance(me, book, t, r, last, s);
    StaleLog(me, book, u, next, s);
    assert Own(me, p) && CloseId(p, next.candle) !in u.events;
    CloseOfAbsentFails(u, log, CloseId(p, next.candle), p);
  }

  /** Otherwise the stale book closes only what is still there. */
  lemma StaleClosesWork(me: Identity, book: Book, t: Tables, r: Rebalance, last: int, next: Rebalance)
    requires me.capital > 0.0 && Mirrors(me, book, t) && UpTo(me, t, last) && last < r.candle < next.candle
    requires !PricedInBoth(book, r, next)
    ensures Replay(t, Events(me, book, r)).Ok?
    ensures var u, keys := Replay(t, Events(me, book, r)).value, SortedKeys.Sorted(book.Keys);
      && Replay(u, Closes(me, keys, book, next)).Ok?
      && Mirrors(me, Rest(keys, NextBook(me, book, r), next), Replay(u, Closes(me, keys, book, next)).value)
  {
    RebalanceIsMirrored(me, book, t, r, last);
    NextBookIs(me, book, r);
    var u, keys, now := Replay(t, Events(me, book, r)).value, SortedKeys.Sorted(book.Keys), NextBook(me, book, r);
    SortedKeys.SortedIsAscending(book.Keys);
    SortedKeys.SortedHasAll(book.Keys);
    hide Mirrors, UpTo, NextBook, Replay, Events, NewHolding, Unused;
    SameCloses(me, keys, book, now, next);
    FreshCandle(me, now, u, r.candle, next.candle);
    ReplayOfCloses(me, keys, now, u, next, r.candle);
  }

  /** After a lost reply, going on from the stale book is accepted exactly if no holding has a price both in the
      lost rebalance and in the next one. */
  lemma StaleBookIff(me: Identity, book: Book, t: Tables, r: Rebalance, last: int, next: Rebalance)
    requires me.capital > 0.0 && Mirrors(me, book, t) && UpTo(me, t, last) && last < r.candle < next.candle
    ensures Replay(t, Events(me, book, r)).Ok?
    ensures Replay(Replay(t, Events(me, book, r)).value, Events(me, book, next)).Ok? <==> !PricedInBoth(book, r, next)
  {
    RebalanceIsMirrored(me, book, t, r, last);
    if PricedInBoth(book, r, next) {
      PricedInBothFails(me, book, t, r, last, next);
    } else {
      var keys, wanted := SortedKeys.Sorted(book.Keys), SortedKeys.Sorted(next.weights.Keys);
      var u, closes := Replay(t, Events(me, book, r)).value, Closes(me, keys, book, next);
      StaleClosesWork(me, book, t, r, last, next);
      OpensAreOpens(me, wanted, Kept(book, next), next);
      OpensNeverFail(Replay(u, closes).value, Opens(me, wanted, Kept(book, next), next));
      ReplayConcat(u, closes, Opens(me, wanted, Kept(book, next), next));
    }
  }

  /** A holding closed by the lost rebalance stays in the stale publisher's book, or stops the replay. */
  lemma LostCloseDiverges(me: Identity, book: Book, t: Tables, r: Rebalance, last: int, next: Rebalance, s: Symbol)
    requires me.capital > 0.0 && Mirrors(me, book, t) && UpTo(me, t, last) && last < r.candle < next.candle
    requires s in book && PriceOf(r.prices, s) > 0.0 && !PricedInBoth(book, r, next)
    requires Replay(t, Events(me, book, r)).Ok?
    requires Replay(Replay(t, Events(me, book, r)).value, Events(me, book, next)).Ok?
    ensures var u := Replay(t, Events(me, book, r)).value;
      !Mirrors(me, NextBook(me, book, next), Replay(u, Events(me, book, next)).value)
  {
    var u, log := Replay(t, Events(me, book, r)).value, Events(me, book, next);
    ClosedByRebalance(me, book, t, r, last, s);
    StaleLog(me, book, u, next, s);
    AbsentUnlessOpened(u, log, book[s].positionId);
    NextBookIs(me, book, next);
    hide Replay, Events, NextBook;
    assert NextBook(me, book, next)[s] == book[s];
  }

  /** A position opened by the lost rebalance stays in the tables, unknown to the stale publisher. */
  lemma LostOpenDiverges(me: Identity, book: Book, t: Tables, r: Rebalance, last: int, next: Rebalance, s: Symbol)
    requires me.capital > 0.0 && Mirrors(me, book, t) && UpTo(me, t, last) && last < r.candle < next.candle
    requires s !in book && Wanted(s, r) && !PricedInBoth(book, r, next)
    requires Replay(t, Events(me, book, r)).Ok?
    requires Replay(Replay(t, Events(me, book, r)).value, Events(me, book, next)).Ok?
    ensures var u := Replay(t, Events(me, book, r)).value;
      !Mirrors(me, NextBook(me, book, next), Replay(u, Events(me, book, next)).value)
  {
    var keys, wanted := SortedKeys.Sorted(book.Keys), SortedKeys.Sorted(next.weights.Keys);
    var u, closes := Replay(t, Events(me, book, r)).value, Closes(me, keys, book, next);
    var opens, p := Opens(me, wanted, Kept(book, next), next), PositionId(me.alpha, s, r.candle);
    StaleClosesWork(me, book, t, r, last, next);
    NextBookIs(me, book, r);
    NextBookIs(me, book, next);
    SortedKeys.SortedHasAll(book.Keys);
    RestKeeps(keys, NextBook(me, book, r), next);
    ReplayConcat(u, closes, opens);
    OpensAreOpens(me, wanted, Kept(book, next), next);
    hide Replay, Events, NextBook, Closes, Opens, Kept, PriceOf;
    assert p in Replay(u, closes).value.positions;
    OpensKeepPositions(Replay(u, closes).value, opens, p);
    assert Own(me, p);
  }

  /** And it is right, the tables mirroring the next book, exactly if the lost rebalance had nothing to publish. */
  lemma StaleBookMirrorsIff(me: Identity, book: Book, t: Tables, r: Rebalance, last: int, next: Rebalance)
    requires me.capital > 0.0 && Mirrors(me, book, t) && UpTo(me, t, last) && last < r.candle < next.candle
    ensures Replay(t, Events(me, book, r)).Ok?
    ensures var after := Replay(Replay(t, Events(me, book, r)).value, Events(me, book, next));
      (after.Ok? && Mirrors(me, NextBook(me, book, next), after.value)) <==> Idle(book, r)
  {
    StaleBookIff(me, book, t, r, last, next);
    IdleIff(me, book, r);
    hide Mirrors, UpTo, NextBook;
    if Idle(book, r) {
      RebalanceIsMirrored(me, book, t, next, last);
    } else if !PricedInBoth(book, r, next) {
      if s :| s in book && PriceOf(r.prices, s) > 0.0 {
        LostCloseDiverges(me, book, t, r, last, next, s);
      } else {
        var s :| s in r.weights && Wanted(s, r);
        LostOpenDiverges(me, book, t, r, last, next, s);
      }
    }
  }

  // --------------------------------------------------- the same, after a run of rebalances

  lemma FreshRebalanceIsRooted(me: Identity, book: Book, t: Tables, r: Rebalance, last: int)
    requires me.capital > 0.0 && Mirrors(me, book, t) && UpTo(me, t, last) && last < r.candle && Rooted(me, t)
    ensures Replay(t, Events(me, book, r)).Ok? && Rooted(me, Replay(t, Events(me, book, r)).value)
  {
    var keys, wanted := SortedKeys.Sorted(book.Keys), SortedKeys.Sorted(r.weights.Keys);
    assert ClosesUnused(me, book, t, r.candle) by { assert forall s :: s in book ==> Own(me, book[s].positionId); }
    AfterTheCloses(me, book, t, r);
    var u := Replay(t, Closes(me, keys, book, r)).value;
    assert OpensUnused(me, wanted, u, r) by {
      assert forall s :: Own(me, PositionId(me.alpha, s, r.candle));
    }
    SortedKeys.SortedIsAscending(r.weights.Keys);
    hide Mirrors, Rooted, Closes, Opens, Kept;
    OpensOfNewPositions(me, wanted, Kept(book, r), u, r);
    ReplayConcat(t, Closes(me, keys, book, r), Opens(me, wanted, Kept(book, r), r));
  }

  lemma {:induction false} RunIsRooted(me: Identity, rs: seq<Rebalance>, t: Tables, start: int)
    requires me.capital > 0.0 && Later(rs, start) && Unheard(me, t)
    ensures Replay(t, RunStream(me, rs)).Ok? && Rooted(me, Replay(t, RunStream(me, rs)).value)
    decreases |rs|
  {
    if rs != [] {
      var init, r := rs[..|rs| - 1], rs[|rs| - 1];
      RunIsRooted(me, init, t, start);
      StreamRebuildsBook(me, init, t, start);
      hide Mirrors, UpTo, Rooted, Unheard, Events;
      FreshRebalanceIsRooted(me, RunBook(me, init), Replay(t, RunStream(me, init)).value, r, LastCandle(init, start));
      ReplayConcat(t, RunStream(me, init), Events(me, RunBook(me, init), r));
    }
  }

  /** What a rebalance at a new candle leaves under that candle: no CLOSE of a position still held, and the
      OPENs of its new holdings. */
  lemma IdsOfTheCandle(me: Identity, book: Book, t: Tables, r: Rebalance, last: int)
    requires me.capital > 0.0 && Mirrors(me, book, t) && UpTo(me, t, last) && last < r.candle && Rooted(me, t)
    ensures Replay(t, Events(me, book, r)).Ok?
    ensures var u, next := Replay(t, Events(me, book, r)).value, NextBook(me, book, r);
      && ClosesUnused(me, next, u, r.candle)
      && forall s :: OpenId(PositionId(me.alpha, s, r.candle)) in u.events <==>
           s in next && next[s].entryCandle == r.candle
  {
    RebalanceIsMirrored(me, book, t, r, last);
    var u, next := Replay(t, Events(me, book, r)).value, NextBook(me, book, r);
    forall s | s in next ensures CloseId(next[s].positionId, r.candle) !in u.events {
      NoCloseOfHeld(me, book, t, r, last, s);
    }
    forall s
      ensures OpenId(PositionId(me.alpha, s, r.candle)) in u.events <==> s in next && next[s].entryCandle == r.candle
    {
      OpenOfHeld(me, book, t, r, last, s);
    }
  }

  lemma NoCloseOfHeld(me: Identity, book: Book, t: Tables, r: Rebalance, last: int, s: Symbol)
    requires me.capital > 0.0 && Mirrors(me, book, t) && UpTo(me, t, last) && last < r.candle
    requires s in NextBook(me, book, r) && Replay(t, Events(me, book, r)).Ok?
    ensures CloseId(NextBook(me, book, r)[s].positionId, r.candle) !in Replay(t, Events(me, book, r)).value.events
  {
    RebalanceIsMirrored(me, book, t, r, last);
    var u, p := Replay(t, Events(me, book, r)).value, NextBook(me, book, r)[s].positionId;
    var id := CloseId(p, r.candle);
    assert Own(me, p) && id !in t.events;
    if id in u.events {
      RecordedFromLog(t, Events(me, book, r), id);
      EventsAre(me, book, r);
      hide Events, NewHolding;
      var i :| 0 <= i < |Events(me, book, r)| && Events(me, book, r)[i].eventId == id;
      assert IsCloseOf(me, book, r, Events(me, book, r)[i]);
      var x :| x in book && PriceOf(r.prices, x) > 0.0 && Events(me, book, r)[i] == CloseEvent(me, x, book[x], r);
      ClosedByRebalance(me, book, t, r, last, x);
      assert false;
    }
  }

  lemma OpenOfHeld(me: Identity, book: Book, t: Tables, r: Rebalance, last: int, s: Symbol)
    requires me.capital > 0.0 && Mirrors(me, book, t) && UpTo(me, t, last) && last < r.candle && Rooted(me, t)
    requires Replay(t, Events(me, book, r)).Ok?
    ensures OpenId(PositionId(me.alpha, s, r.candle)) in Replay(t, Events(me, book, r)).value.events <==>
      s in NextBook(me, book, r) && NextBook(me, book, r)[s].entryCandle == r.candle
  {
    RebalanceIsMirrored(me, book, t, r, last);
    FreshRebalanceIsRooted(me, book, t, r, last);
    var u, p, next := Replay(t, Events(me, book, r)).value, PositionId(me.alpha, s, r.candle), NextBook(me, book, r);
    NextBookIs(me, book, r);
    assert Own(me, p) && OpenId(p) !in t.events;
    if OpenId(p) in u.events {
      RecordedFromLog(t, Events(me, book, r), OpenId(p));
      EventsAre(me, book, r);
      hide Events, Replay, Mirrors, UpTo, Rooted, NextBook;
      var i :| 0 <= i < |Events(me, book, r)| && Events(me, book, r)[i].eventId == OpenId(p);
      assert IsOpenOf(me, r, Events(me, book, r)[i]);
    }
  }

  /** The ids of the last candle after a run: see `IdsOfTheCandle`. */
  lemma IdsOfLastCandle(me: Identity, rs: seq<Rebalance>, t: Tables, start: int)
    requires me.capital > 0.0 && Later(rs, start) && Unheard(me, t) && rs != []
    ensures Replay(t, RunStream(me, rs)).Ok?
    ensures var v, book, candle := Replay(t, RunStream(me, rs)).value, RunBook(me, rs), LastCandle(rs, start);
      && ClosesUnused(me, book, v, candle)
      && forall s :: OpenId(PositionId(me.alpha, s, candle)) in v.events <==> s in book && book[s].entryCandle == candle
  {
    var init, r := rs[..|rs| - 1], rs[|rs| - 1];
    var book := RunBook(me, init);
    StreamRebuildsBook(me, init, t, start);
    RunIsRooted(me, init, t, start);
    hide Mirrors, UpTo, Rooted, Unheard, Events, ClosesUnused, NextBook;
    var u := Replay(t, RunStream(me, init)).value;
    IdsOfTheCandle(me, book, u, r, LastCandle(init, start));
    ReplayConcat(t, RunStream(me, init), Events(me, book, r));
  }

  /** Rising candles and then one more rebalance at the last candle: the stream replays, and the tables mirror
      the publisher's book exactly if the rebalance does not open a symbol opened at that candle before. */
  lemma RepeatedCandleIff(me: Identity, rs: seq<Rebalance>, t: Tables, start: int, r: Rebalance)
    requires me.capital > 0.0 && Later(rs, start) && Unheard(me, t) && rs != [] && r.candle == LastCandle(rs, start)
    ensures Replay(t, RunStream(me, rs + [r])).Ok?
    ensures Mirrors(me, RunBook(me, rs + [r]), Replay(t, RunStream(me, rs + [r])).value) <==>
      forall s :: s in RunBook(me, rs) && RunBook(me, rs)[s].entryCandle == r.candle ==> !Wanted(s, r)
  {
    StreamRebuildsBook(me, rs, t, start);
    RunIsRooted(me, rs, t, start);
    IdsOfLastCandle(me, rs, t, start);
    OneMore(me, rs, r);
    hide Mirrors, UpTo, Rooted, Unheard, Events, ClosesUnused, RunStream, RunBook;
    SameCandleIff(me, RunBook(me, rs), Replay(t, RunStream(me, rs)).value, r);
    ReplayConcat(t, RunStream(me, rs), Events(me, RunBook(me, rs), r));
  }

  lemma OneMore(me: Identity, rs: seq<Rebalance>, r: Rebalance)
    ensures RunBook(me, rs + [r]) == NextBook(me, RunBook(me, rs), r)
    ensures RunStream(me, rs + [r]) == RunStream(me, rs) + Events(me, RunBook(me, rs), r)
  {
    assert (rs + [r])[..|rs|] == rs;
  }

  // ---------------------------------------------------------------- starting from no state

  /** A publisher that could not read its state opens the target book on top of whatever is held: at a new candle
      that always replays, and is right exactly if nothing was held. */
  lemma ForgottenBookIff(me: Identity, book: Book, t: Tables, last: int, target: Rebalance)
    requires me.capital > 0.0 && Mirrors(me, book, t) && UpTo(me, t, last) && last < target.candle
    ensures Replay(t, Events(me, map[], target)).Ok?
    ensures Mirrors(me, NextBook(me, map[], target), Replay(t, Events(me, map[], target)).value) <==> book == map[]
  {
    var nothing: Book := map[];
    var opens := Opens(me, SortedKeys.Sorted(target.weights.Keys), Kept(nothing, target), target);
    assert Closes(me, SortedKeys.Sorted(nothing.Keys), nothing, target) == [];
    assert Events(me, nothing, target) == opens;
    OpensAreOpens(me, SortedKeys.Sorted(target.weights.Keys), Kept(nothing, target), target);
    OpensNeverFail(t, opens);
    if book == nothing {
      RebalanceIsMirrored(me, nothing, t, target, last);
    } else {
      var s :| s in book;
      OpensKeepPositions(t, opens, book[s].positionId);
      NextBookIs(me, nothing, target);
      hide Replay, Opens, NextBook, Events;
      assert Own(me, book[s].positionId);
    }
  }

  // ------------------------------------------------------------------------------ an instance

  const MOMENTUM: Identity := Identity("momentum", 100.0, Binance)

  /** The whole capital long in one symbol at price 10. */
  function AllIn(candle: int): Rebalance { Rebalance(map[0 := 1.0], map[0 := 10.0], candle, candle, "", "") }

  /** Three equal rebalances, the reply to the second lost: the consumer stops at the third. */
  lemma LostReplyStopsTheConsumer()
    ensures var book := NextBook(MOMENTUM, map[], AllIn(1));
      var two := Events(MOMENTUM, map[], AllIn(1)) + Events(MOMENTUM, book, AllIn(2));
      Replay(EMPTY, two).Ok? && Replay(EMPTY, two + Events(MOMENTUM, book, AllIn(3))).Err?
  {
    var book, one := NextBook(MOMENTUM, map[], AllIn(1)), Events(MOMENTUM, map[], AllIn(1));
    RebalanceIsMirrored(MOMENTUM, map[], EMPTY, AllIn(1), 0);
    NextBookIs(MOMENTUM, map[], AllIn(1));
    assert Wanted(0, AllIn(1));
    StaleBookIff(MOMENTUM, book, Replay(EMPTY, one).value, AllIn(2), 1, AllIn(3));
    hide Mirrors, UpTo, NextBook, Events;
    assert PricedInBoth(book, AllIn(2), AllIn(3));
    ReplayConcat(EMPTY, one, Events(MOMENTUM, book, AllIn(2)));
    ReplayConcat(EMPTY, one + Events(MOMENTUM, book, AllIn(2)), Events(MOMENTUM, book, AllIn(3)));
  }
}
