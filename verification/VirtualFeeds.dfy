/** Many publishers on one stream, each repeating rebalances as often as it likes.

    Each publisher's events touch only its own part of the tables, so that the parts evolve
    on their own; a repeated rebalance repeats known ids.  Hence, whatever the interleaving,
    the repeats and the schedule of deliveries, everybody's book is mirrored. */
module VirtualFeeds {
  import opened VirtualLedger
  import opened VirtualPublisher
  import opened VirtualTimeless
  import C = VirtualConsumer
  import SortedKeys

  // ----------------------------------------------------------------- one publisher's part

  function AlphaOf(id: Id): string {
    match id
    case PositionId(alpha, _, _) => alpha
    case OpenId(p) => AlphaOf(p)
    case CloseId(p, _) => AlphaOf(p)
    case OtherId(_) => ""
  }

  function Part<T>(m: map<Id, T>, alpha: string): map<Id, T> { map id | id in m && AlphaOf(id) == alpha :: m[id] }

  function PartOf(t: Tables, alpha: string): Tables {
    Tables(Part(t.positions, alpha), Part(t.trades, alpha), Part(t.events, alpha))
  }

  /** An event whose id is derived from its position's. */
  predicate Derived(e: Event) {
    && e.positionId.PositionId?
    && (e.kind.VirtualOpen? ==> e.eventId == OpenId(e.positionId))
    && (e.kind.VirtualClose? ==> e.eventId.CloseId? && e.eventId.position == e.positionId)
  }

  predicate Keyed(t: Tables) { forall p :: p in t.positions ==> t.positions[p].positionId == p }

  lemma InPart<T>(m: map<Id, T>, id: Id, alpha: string)
    ensures id in Part(m, alpha) <==> id in m && AlphaOf(id) == alpha
    ensures id in Part(m, alpha) ==> Part(m, alpha)[id] == m[id]
  {
  }

  lemma PartPut<T>(m: map<Id, T>, id: Id, x: T, alpha: string)
    ensures Part(m[id := x], alpha) == if AlphaOf(id) == alpha then Part(m, alpha)[id := x] else Part(m, alpha)
  {
    var put, part := m[id := x], Part(m, alpha);
    var expected := if AlphaOf(id) == alpha then part[id := x] else part;
    assert Part(put, alpha).Keys == expected.Keys;
    assert forall k :: k in expected ==> Part(put, alpha)[k] == expected[k];
  }

  lemma PartRemove<T>(m: map<Id, T>, id: Id, alpha: string)
    ensures Part(m - {id}, alpha) == if AlphaOf(id) == alpha then Part(m, alpha) - {id} else Part(m, alpha)
  {
    var part := Part(m, alpha);
    var expected := if AlphaOf(id) == alpha then part - {id} else part;
    assert Part(m - {id}, alpha).Keys == expected.Keys;
  }

  /** An event works on its own publisher's part alone. */
  lemma ApplyInPart(t: Tables, e: Event, alpha: string)
    requires Keyed(t) && Derived(e)
    ensures AlphaOf(e.positionId) == alpha ==> Apply(t, e).Ok? == Apply(PartOf(t, alpha), e).Ok?
    ensures Apply(t, e).Ok? ==> Keyed(Apply(t, e).value)
    ensures Apply(t, e).Ok? && AlphaOf(e.positionId) == alpha ==>
      PartOf(Apply(t, e).value, alpha) == Apply(PartOf(t, alpha), e).value
    ensures Apply(t, e).Ok? && AlphaOf(e.positionId) != alpha ==> PartOf(Apply(t, e).value, alpha) == PartOf(t, alpha)
  {
    InPart(t.events, e.eventId, alpha);
    InPart(t.positions, e.positionId, alpha);
    InPart(t.trades, e.positionId, alpha);
    PartPut(t.events, e.eventId, e, alpha);
    PartPut(t.positions, e.positionId, OpenedPosition(e), alpha);
    PartRemove(t.positions, e.positionId, alpha);
    if e.positionId in t.positions {
      var p := t.positions[e.positionId];
      if p.openedAt.At? && e.timestamp.At? {
        PartPut(t.trades, e.positionId, ClosedTrade(p, e), alpha);
      }
    }
    hide Part, ClosedTrade;
    assert AlphaOf(e.eventId) == AlphaOf(e.positionId);
  }

  function Only(log: seq<Event>, alpha: string): seq<Event> {
    if log == [] then []
    else
      var e, before := log[|log| - 1], Only(log[..|log| - 1], alpha);
      if AlphaOf(e.positionId) == alpha then before + [e] else before
  }

  predicate AllDerived(log: seq<Event>) { forall i :: 0 <= i < |log| ==> Derived(log[i]) }

  lemma {:induction false} OnlyHolds(log: seq<Event>, alpha: string)
    ensures forall e :: e in Only(log, alpha) <==> e in log && AlphaOf(e.positionId) == alpha
    decreases |log|
  {
    if log != [] {
      OnlyHolds(log[..|log| - 1], alpha);
      assert log == log[..|log| - 1] + [log[|log| - 1]];
    }
  }

  lemma {:induction false} OnlyOfNobody(log: seq<Event>, alpha: string)
    requires forall i :: 0 <= i < |log| ==> AlphaOf(log[i].positionId) != alpha
    ensures Only(log, alpha) == []
    decreases |log|
  {
    if log != [] {
      OnlyOfNobody(log[..|log| - 1], alpha);
    }
  }

  lemma PrefixIsOk(t: Tables, log: seq<Event>, e: Event)
    requires Replay(t, log + [e]).Ok?
    ensures Replay(t, log).Ok?
  {
    ReplayAppend(t, log, e);
  }

  ghost predicate EachPartReplays(log: seq<Event>) { forall alpha :: Replay(EMPTY, Only(log, alpha)).Ok? }

  ghost predicate InParts(log: seq<Event>, t: Tables) {
    forall alpha :: Replay(EMPTY, Only(log, alpha)).Ok? && Replay(EMPTY, Only(log, alpha)).value == PartOf(t, alpha)
  }

  /** An interleaving replays if every publisher's events do, and leaves in each part what they alone leave. */
  lemma {:induction false} ReplayInParts(log: seq<Event>)
    requires AllDerived(log) && EachPartReplays(log)
    ensures Replay(EMPTY, log).Ok? && Keyed(Replay(EMPTY, log).value) && InParts(log, Replay(EMPTY, log).value)
    decreases |log|
  {
    if log == [] {
      assert forall alpha :: PartOf(EMPTY, alpha) == EMPTY;
    } else {
      var init, e := log[..|log| - 1], log[|log| - 1];
      forall alpha ensures Replay(EMPTY, Only(init, alpha)).Ok? {
        if AlphaOf(e.positionId) == alpha {
          assert Only(log, alpha) == Only(init, alpha) + [e];
          PrefixIsOk(EMPTY, Only(init, alpha), e);
        } else {
          assert Only(init, alpha) == Only(log, alpha);
        }
      }
      ReplayInParts(init);
      assert log == init + [e];
      ReplayAppend(EMPTY, init, e);
      LastInParts(log, init, e);
    }
  }

  lemma LastInParts(log: seq<Event>, init: seq<Event>, e: Event)
    requires log == init + [e] && Derived(e) && EachPartReplays(log)
    requires Replay(EMPTY, init).Ok? && Keyed(Replay(EMPTY, init).value) && InParts(init, Replay(EMPTY, init).value)
    ensures Apply(Replay(EMPTY, init).value, e).Ok? && Keyed(Apply(Replay(EMPTY, init).value, e).value)
    ensures InParts(log, Apply(Replay(EMPTY, init).value, e).value)
  {
    var t, own := Replay(EMPTY, init).value, AlphaOf(e.positionId);
    assert log[..|init|] == init && log[|init|] == e;
    hide Apply, PartOf, Replay, Keyed;
    assert Only(log, own) == Only(init, own) + [e];
    ReplayAppend(EMPTY, Only(init, own), e);
    ApplyInPart(t, e, own);
    forall alpha
      ensures Replay(EMPTY, Only(log, alpha)).Ok?
      ensures Replay(EMPTY, Only(log, alpha)).value == PartOf(Apply(t, e).value, alpha)
    {
      ApplyInPart(t, e, alpha);
      assert alpha != own ==> Only(log, alpha) == Only(init, alpha);
    }
  }

  /** A publisher's book is mirrored in the tables if it is in its own part. */
  lemma MirroredInPart(me: Identity, book: Book, t: Tables)
    requires Mirrors(me, book, PartOf(t, me.alpha))
    ensures Mirrors(me, book, t)
  {
    forall p | p in t.positions && Own(me, p) ensures p.symbol in book && book[p.symbol].positionId == p {
      InPart(t.positions, p, me.alpha);
    }
    forall s | s in book
      ensures book[s].positionId in t.positions && t.positions[book[s].positionId] == AsPosition(me, s, book[s])
      ensures book[s].positionId !in t.trades
    {
      InPart(t.positions, book[s].positionId, me.alpha);
      InPart(t.trades, book[s].positionId, me.alpha);
    }
  }

  // ------------------------------------------------------------------ repeated rebalances

  /** A rebalance, published once and then again at each of the given times. */
  datatype Attempts = Attempts(first: Rebalance, again: seq<int>)

  /** The attempt whose book the publisher goes on with: the last one. */
  function LastOf(a: Attempts): Rebalance {
    if a.again == [] then a.first else a.first.(at := a.again[|a.again| - 1])
  }

  function AttemptEvents(me: Identity, book: Book, a: Attempts): seq<Event>
    decreases |a.again|
  {
    if a.again == [] then Events(me, book, a.first)
    else AttemptEvents(me, book, a.(again := a.again[..|a.again| - 1])) + Events(me, book, LastOf(a))
  }

  function FeedBook(me: Identity, feed: seq<Attempts>): Book {
    if feed == [] then map[] else NextBook(me, FeedBook(me, feed[..|feed| - 1]), LastOf(feed[|feed| - 1]))
  }

  function FeedStream(me: Identity, feed: seq<Attempts>): seq<Event> {
    if feed == [] then []
    else FeedStream(me, feed[..|feed| - 1]) + AttemptEvents(me, FeedBook(me, feed[..|feed| - 1]), feed[|feed| - 1])
  }

  /** Each rebalance once, at no particular time. */
  function Plain(feed: seq<Attempts>): (rs: seq<Rebalance>)
    ensures |rs| == |feed|
  {
    if feed == [] then [] else Plain(feed[..|feed| - 1]) + [feed[|feed| - 1].first.(at := 0)]
  }

  function ErasedBook(book: Book): Book { map s | s in book :: book[s].(openedAt := 0) }

  lemma ErasedConcat(a: seq<Event>, b: seq<Event>)
    ensures ErasedEvents(a + b) == ErasedEvents(a) + ErasedEvents(b)
  {
  }

  lemma {:induction false} ClosesErase(me: Identity, keys: seq<Symbol>, book: Book, r: Rebalance)
    ensures ErasedEvents(Closes(me, keys, book, r)) == Closes(me, keys, ErasedBook(book), r.(at := 0))
    decreases |keys|
  {
    if keys != [] {
      ClosesErase(me, keys[..|keys| - 1], book, r);
    }
  }

  lemma {:induction false} RetainedErases(keys: seq<Symbol>, book: Book, r: Rebalance)
    ensures ErasedBook(Retained(keys, book, r)) == Retained(keys, ErasedBook(book), r.(at := 0))
    decreases |keys|
  {
    if keys != [] {
      RetainedErases(keys[..|keys| - 1], book, r);
    }
  }

  lemma {:induction false} OpensErase(me: Identity, keys: seq<Symbol>, kept: Book, r: Rebalance)
    ensures ErasedEvents(Opens(me, keys, kept, r)) == Opens(me, keys, ErasedBook(kept), r.(at := 0))
    ensures ErasedBook(Opened(me, keys, kept, r)) == Opened(me, keys, ErasedBook(kept), r.(at := 0))
    decreases |keys|
  {
    if keys != [] {
      OpensErase(me, keys[..|keys| - 1], kept, r);
    }
  }

  lemma RebalanceErases(me: Identity, book: Book, r: Rebalance)
    ensures ErasedEvents(Events(me, book, r)) == Events(me, ErasedBook(book), r.(at := 0))
    ensures ErasedBook(NextBook(me, book, r)) == NextBook(me, ErasedBook(book), r.(at := 0))
  {
    var keys, wanted := SortedKeys.Sorted(book.Keys), SortedKeys.Sorted(r.weights.Keys);
    assert ErasedBook(book).Keys == book.Keys;
    ClosesErase(me, keys, book, r);
    RetainedErases(keys, book, r);
    OpensErase(me, wanted, Kept(book, r), r);
    ErasedConcat(Closes(me, keys, book, r), Opens(me, wanted, Kept(book, r), r));
  }

  /** Applying the log, from t on, does what applying `once` does. */
  ghost predicate Copies(t: Tables, log: seq<Event>, once: seq<Event>) {
    Replay(t, log) == Replay(t, once) && EventsOf(log) == EventsOf(once)
  }

  lemma OneMoreCopy(t: Tables, before: seq<Event>, once: seq<Event>)
    requires Replay(t, once).Ok? && Copies(t, before, once)
    ensures Copies(t, before + once, once)
  {
    ReplayConcat(t, before, once);
    ReplayRecordsIds(t, once);
    ReplayOfKnown(Replay(t, once).value, once);
    EventsOfConcat(before, once);
  }

  function Shorter(a: Attempts): Attempts
    requires a.again != []
  {
    a.(again := a.again[..|a.again| - 1])
  }

  lemma LastAttemptErases(me: Identity, book: Book, a: Attempts)
    ensures var once := Events(me, ErasedBook(book), a.first.(at := 0));
      ErasedEvents(AttemptEvents(me, book, a)) ==
      if a.again == [] then once else ErasedEvents(AttemptEvents(me, book, Shorter(a))) + once
  {
    RebalanceErases(me, book, LastOf(a));
    assert LastOf(a).(at := 0) == a.first.(at := 0);
    hide Events, ErasedEvents, ErasedBook;
    if a.again != [] {
      ErasedConcat(AttemptEvents(me, book, Shorter(a)), Events(me, book, LastOf(a)));
    }
  }

  /** Up to times, every attempt at a rebalance publishes the same events. */
  lemma {:induction false} AttemptsAreCopies(me: Identity, book: Book, a: Attempts, t: Tables)
    requires Replay(t, Events(me, ErasedBook(book), a.first.(at := 0))).Ok?
    ensures Copies(t, ErasedEvents(AttemptEvents(me, book, a)), Events(me, ErasedBook(book), a.first.(at := 0)))
    decreases |a.again|
  {
    hide Events, ErasedEvents, ErasedBook, AttemptEvents, Replay, EventsOf;
    LastAttemptErases(me, book, a);
    if a.again != [] {
      AttemptsAreCopies(me, book, Shorter(a), t);
      OneMoreCopy(t, ErasedEvents(AttemptEvents(me, book, Shorter(a))),
                  Events(me, ErasedBook(book), a.first.(at := 0)));
    }
  }

  lemma EventsOfConcat(a: seq<Event>, b: seq<Event>)
    ensures EventsOf(a + b) == EventsOf(a) + EventsOf(b)
  {
  }

  /** Up to times, a feed with repeats leaves the book and the tables of the feed without them. */
  lemma {:induction false} FeedErases(me: Identity, feed: seq<Attempts>, start: int)
    requires me.capital > 0.0 && Later(Plain(feed), start)
    ensures ErasedBook(FeedBook(me, feed)) == RunBook(me, Plain(feed))
    ensures Replay(EMPTY, ErasedEvents(FeedStream(me, feed))) == Replay(EMPTY, RunStream(me, Plain(feed)))
    ensures EventsOf(ErasedEvents(FeedStream(me, feed))) == EventsOf(RunStream(me, Plain(feed)))
    decreases |feed|
  {
    if feed != [] {
      var init, a := feed[..|feed| - 1], feed[|feed| - 1];
      var r := a.first.(at := 0);
      PlainNext(feed);
      FeedErases(me, init, start);
      StreamRebuildsBook(me, Plain(init), EMPTY, start);
      StreamRebuildsBook(me, Plain(feed), EMPTY, start);
      RebalanceErases(me, FeedBook(me, init), LastOf(a));
      hide Events, ErasedEvents, ErasedBook, NextBook, Mirrors, UpTo, AllFresh, Unheard, Plain, EventsOf;
      var u, once := Replay(EMPTY, RunStream(me, Plain(init))).value, Events(me, RunBook(me, Plain(init)), r);
      ReplayConcat(EMPTY, RunStream(me, Plain(init)), once);
      AttemptsAreCopies(me, FeedBook(me, init), a, u);
      var attempts := AttemptEvents(me, FeedBook(me, init), a);
      ErasedConcat(FeedStream(me, init), attempts);
      ReplayConcat(EMPTY, ErasedEvents(FeedStream(me, init)), ErasedEvents(attempts));
      EventsOfConcat(ErasedEvents(FeedStream(me, init)), ErasedEvents(attempts));
      EventsOfConcat(RunStream(me, Plain(init)), once);
    }
  }

  lemma PlainNext(feed: seq<Attempts>)
    requires feed != []
    ensures Plain(feed)[..|feed| - 1] == Plain(feed[..|feed| - 1])
    ensures Plain(feed)[|feed| - 1] == feed[|feed| - 1].first.(at := 0)
    ensures LastOf(feed[|feed| - 1]).(at := 0) == feed[|feed| - 1].first.(at := 0)
  {
  }

  // --------------------------------------------------------------------- the whole stream

  /** A publisher, its attempts so far, and a candle before all of them. */
  datatype Feed = Feed(me: Identity, attempts: seq<Attempts>, start: int) {
    function Stream(): seq<Event> { FeedStream(me, attempts) }

    function Current(): Book { FeedBook(me, attempts) }

    /** The stream up to times and without repeats. */
    function Core(): seq<Event> { RunStream(me, Plain(attempts)) }
  }

  /** The log interleaves the streams of publishers with different names, each with positive capital and candles
      that rise from one rebalance to the next. */
  ghost predicate Published(log: seq<Event>, feeds: map<string, Feed>) {
    && (forall a :: a in feeds ==>
          feeds[a].me.alpha == a && feeds[a].me.capital > 0.0 && Later(Plain(feeds[a].attempts), feeds[a].start))
    && (forall a :: a in feeds ==> Only(log, a) == feeds[a].Stream())
    && (forall i :: 0 <= i < |log| ==> AlphaOf(log[i].positionId) in feeds)
  }

  lemma {:induction false} FreshIsOwn(me: Identity, t: Tables, log: seq<Event>)
    requires AllFresh(me, t, log)
    ensures forall i :: 0 <= i < |log| ==> Own(me, log[i].positionId) && log[i].price > 0.0 && log[i].qty > 0.0
    decreases |log|
  {
    if log != [] {
      FreshIsOwn(me, t, log[..|log| - 1]);
      assert forall i :: 0 <= i < |log| - 1 ==> log[i] == log[..|log| - 1][i];
    }
  }

  /** Event ids are made from position ids. */
  predicate FromPosition(e: Event) {
    if e.kind.VirtualOpen? then e.eventId == OpenId(e.positionId)
    else e.eventId.CloseId? && e.eventId.position == e.positionId
  }

  predicate AllFromPosition(log: seq<Event>) { forall i :: 0 <= i < |log| ==> FromPosition(log[i]) }

  lemma {:induction false} ClosesFromPosition(me: Identity, keys: seq<Symbol>, book: Book, r: Rebalance)
    ensures AllFromPosition(Closes(me, keys, book, r))
    decreases |keys|
  {
    if keys != [] {
      ClosesFromPosition(me, keys[..|keys| - 1], book, r);
    }
  }

  lemma {:induction false} OpensFromPosition(me: Identity, keys: seq<Symbol>, kept: Book, r: Rebalance)
    ensures AllFromPosition(Opens(me, keys, kept, r))
    decreases |keys|
  {
    if keys != [] {
      OpensFromPosition(me, keys[..|keys| - 1], kept, r);
    }
  }

  lemma {:induction false} RunFromPosition(me: Identity, rs: seq<Rebalance>)
    ensures AllFromPosition(RunStream(me, rs))
    decreases |rs|
  {
    if rs != [] {
      var book, r := RunBook(me, rs[..|rs| - 1]), rs[|rs| - 1];
      RunFromPosition(me, rs[..|rs| - 1]);
      ClosesFromPosition(me, SortedKeys.Sorted(book.Keys), book, r);
      OpensFromPosition(me, SortedKeys.Sorted(r.weights.Keys), Kept(book, r), r);
    }
  }

  /** What a publisher's stream is, up to times and repeats. */
  lemma CoreIsSound(f: Feed)
    requires f.me.capital > 0.0 && Later(Plain(f.attempts), f.start)
    ensures Replay(EMPTY, f.Core()).Ok? && Distinct(EventsOf(f.Core()))
    ensures Mirrors(f.me, RunBook(f.me, Plain(f.attempts)), Replay(EMPTY, f.Core()).value)
    ensures forall e :: e in f.Core() ==> Own(f.me, e.positionId) && FromPosition(e) && e.price > 0.0 && e.qty > 0.0
  {
    hide Mirrors, Distinct, AllFresh, RunStream, RunBook, UpTo;
    StreamRebuildsBook(f.me, Plain(f.attempts), EMPTY, f.start);
    FreshLogIsDistinct(f.me, f.Core());
    FreshIsOwn(f.me, EMPTY, f.Core());
    RunFromPosition(f.me, Plain(f.attempts));
  }

  lemma {:induction false} OnlyErases(log: seq<Event>, alpha: string)
    ensures Only(ErasedEvents(log), alpha) == ErasedEvents(Only(log, alpha))
    decreases |log|
  {
    if log != [] {
      assert ErasedEvents(log)[..|log| - 1] == ErasedEvents(log[..|log| - 1]);
      OnlyErases(log[..|log| - 1], alpha);
    }
  }

  /** Every event of the log, its time forgotten, is in the core of its publisher. */
  lemma ErasedIsInCore(log: seq<Event>, feeds: map<string, Feed>, e: Event)
    requires Published(log, feeds) && e in ErasedEvents(log)
    ensures AlphaOf(e.positionId) in feeds && e in feeds[AlphaOf(e.positionId)].Core()
  {
    var i :| 0 <= i < |log| && ErasedEvents(log)[i] == e;
    var a := AlphaOf(e.positionId);
    assert a == AlphaOf(log[i].positionId);
    OnlyErases(log, a);
    OnlyHolds(ErasedEvents(log), a);
    FeedErases(feeds[a].me, feeds[a].attempts, feeds[a].start);
    assert e in EventsOf(ErasedEvents(feeds[a].Stream()));
  }

  lemma ErasedIsSound(log: seq<Event>, feeds: map<string, Feed>, e: Event)
    requires Published(log, feeds) && e in ErasedEvents(log)
    ensures Derived(e) && e.price > 0.0 && e.qty > 0.0
  {
    ErasedIsInCore(log, feeds, e);
    CoreIsSound(feeds[AlphaOf(e.positionId)]);
  }

  lemma SameNameSameEvent(log: seq<Event>, feeds: map<string, Feed>, d: Event, e: Event)
    requires Published(log, feeds) && d in ErasedEvents(log) && e in ErasedEvents(log)
    requires SameName(d, e)
    ensures d == e
  {
    ErasedIsSound(log, feeds, d);
    ErasedIsSound(log, feeds, e);
    assert AlphaOf(d.positionId) == AlphaOf(e.positionId);
    ErasedIsInCore(log, feeds, d);
    ErasedIsInCore(log, feeds, e);
    CoreIsSound(feeds[AlphaOf(e.positionId)]);
  }

  lemma InterleavingIsDistinct(log: seq<Event>, feeds: map<string, Feed>)
    requires Published(log, feeds)
    ensures Distinct(EventsOf(ErasedEvents(log)))
  {
    hide Published, ErasedEvents;
    forall d, e | d in ErasedEvents(log) && e in ErasedEvents(log) && SameName(d, e)
      ensures d == e
    {
      SameNameSameEvent(log, feeds, d, e);
    }
  }

  lemma PartsReplay(log: seq<Event>, feeds: map<string, Feed>)
    requires Published(log, feeds)
    ensures AllDerived(ErasedEvents(log)) && EachPartReplays(ErasedEvents(log))
    ensures forall a :: a in feeds ==> Replay(EMPTY, Only(ErasedEvents(log), a)) == Replay(EMPTY, feeds[a].Core())
  {
    var erased := ErasedEvents(log);
    forall i | 0 <= i < |erased| ensures Derived(erased[i]) {
      ErasedIsSound(log, feeds, erased[i]);
    }
    forall a ensures a in feeds ==> Replay(EMPTY, Only(erased, a)) == Replay(EMPTY, feeds[a].Core())
             ensures Replay(EMPTY, Only(erased, a)).Ok? {
      OnlyErases(log, a);
      if a in feeds {
        FeedErases(feeds[a].me, feeds[a].attempts, feeds[a].start);
        CoreIsSound(feeds[a]);
      } else {
        OnlyOfNobody(erased, a);
      }
    }
  }

  /** In order, the interleaved stream replays, and up to times leaves every publisher's book. */
  lemma InterleavingRebuildsBooks(log: seq<Event>, feeds: map<string, Feed>)
    requires Published(log, feeds)
    ensures Replay(EMPTY, log).Ok?
    ensures forall a :: a in feeds ==>
      Mirrors(feeds[a].me, ErasedBook(feeds[a].Current()), ErasedTables(Replay(EMPTY, log).value))
  {
    var erased := ErasedEvents(log);
    PartsReplay(log, feeds);
    hide Mirrors, ErasedTables, AllDerived, Only, ErasedEvents, Replay, Distinct;
    ReplayInParts(erased);
    assert ErasedTables(EMPTY) == EMPTY by { ErasedNothing(); }
    ReplayErases(EMPTY, log);
    var t := Replay(EMPTY, erased).value;
    forall a | a in feeds ensures Mirrors(feeds[a].me, ErasedBook(feeds[a].Current()), t) {
      var f := feeds[a];
      assert PartOf(t, a) == Replay(EMPTY, Only(erased, a)).value;
      CoreIsSound(f);
      FeedErases(f.me, f.attempts, f.start);
      MirroredInPart(f.me, ErasedBook(f.Current()), t);
    }
  }

  lemma ErasedNothing()
    ensures ErasedTables(EMPTY) == EMPTY
  {
  }

  lemma MessagesValidate(log: seq<Event>, feeds: map<string, Feed>)
    requires Published(log, feeds)
    ensures forall i :: 0 <= i < |log| ==> Validate(Messages(log)[i]).Ok? && Validate(Messages(log)[i]).value == log[i]
    ensures C.ValidEvents(ErasedLog(Messages(log))) == EventsOf(ErasedEvents(log))
  {
    var raw, erased := Messages(log), ErasedEvents(log);
    forall i | 0 <= i < |log|
      ensures Validate(raw[i]).Ok? && Validate(raw[i]).value == log[i]
      ensures Validate(ErasedLog(raw)[i]).Ok? && Validate(ErasedLog(raw)[i]).value == erased[i]
    {
      assert erased[i] in erased;
      ErasedIsSound(log, feeds, erased[i]);
      MessageRoundTrip(log[i]);
      ValidateErases(raw[i]);
    }
    hide Validate, Message, ErasedRaw, Published;
  }

  /** Publishers and consumer together.  However the publishers' streams interleave, however often each repeats a
      rebalance, and whatever the schedule of deliveries, failures and lost acks: once every message is acked, the
      tables hold every publisher's current book, up to the recorded times. */
  lemma EveryBookIsMirrored(log: seq<Event>, feeds: map<string, Feed>, steps: seq<C.Step>)
    requires Published(log, feeds) && C.IsRun(C.INITIAL, Messages(log), steps)
    requires forall i :: 0 <= i < |log| ==> i in C.Run(C.INITIAL, Messages(log), steps).acked
    ensures forall a :: a in feeds ==>
      Mirrors(feeds[a].me, ErasedBook(feeds[a].Current()), ErasedTables(C.Run(C.INITIAL, Messages(log), steps).tables))
  {
    MessagesValidate(log, feeds);
    InterleavingIsDistinct(log, feeds);
    InterleavingRebuildsBooks(log, feeds);
    hide Mirrors, Distinct, Replay, Published, ErasedTables, ErasedLog, ErasedEvents, Validate, Messages;
    ScheduleDoesNotMatterUpToTimes(Messages(log), steps);
    assert C.Decoded(Messages(log)) == log;
  }
}
