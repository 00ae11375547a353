/** What the repair of shadow equity writes into each row, in terms of the events, the price lookup and the stored
    rows: which positions are held, which row is the anchor, and the balance that follows from it. */
module ShadowRows {
  import opened Wrappers
  import opened ShadowEquity

  // --------------------------------------------------------------------- the positions held

  /** The event opens or closes this id. */
  predicate About(e: Event, id: nat) {
    (e.change.Open? && e.change.position.id == id) || (e.change.Close? && e.change.id == id)
  }

  /** The last event about the position's id opens exactly this position. */
  ghost predicate IsHeld(events: seq<Event>, p: Position) {
    exists i :: 0 <= i < |events| && events[i].change == Open(p) && NoneAbout(events[i + 1..], p.id)
  }

  predicate NoneAbout(events: seq<Event>, id: nat) { forall e :: e in events ==> !About(e, id) }

  predicate OnePerId(ps: seq<Position>) { forall i, j :: 0 <= i < j < |ps| ==> ps[i].id != ps[j].id }

  lemma {:induction false} PutAdds(active: seq<Position>, p: Position)
    requires OnePerId(active)
    ensures OnePerId(Put(active, p))
    ensures forall q :: q in Put(active, p) <==> q == p || (q in active && q.id != p.id)
  {
    if active != [] {
      assert forall q :: q in active <==> q == active[0] || q in active[1..];
      if active[0].id != p.id {
        PutAdds(active[1..], p);
        var rest := Put(active[1..], p);
        assert forall i :: 0 <= i < |rest| ==> rest[i] in rest;
        assert forall q :: q in active[1..] ==> q.id != active[0].id;
      } else {
        assert forall q :: q in active[1..] ==> q.id != active[0].id;
      }
    }
  }

  lemma {:induction false} PopRemoves(active: seq<Position>, id: nat)
    requires OnePerId(active)
    ensures OnePerId(Pop(active, id)) && forall q :: q in Pop(active, id) <==> q in active && q.id != id
  {
    if active != [] {
      PopRemoves(active[1..], id);
      assert forall q :: q in active <==> q == active[0] || q in active[1..];
      var rest := Pop(active[1..], id);
      assert forall i :: 0 <= i < |rest| ==> rest[i] in rest;
      assert forall q :: q in active[1..] ==> q.id != active[0].id;
    }
  }

  lemma NoneOfFewer(events: seq<Event>, e: Event, id: nat)
    requires NoneAbout(events + [e], id)
    ensures NoneAbout(events, id) && !About(e, id)
  {
    forall d | d in events ensures !About(d, id) {
      assert d in events + [e];
    }
    assert e in events + [e];
  }

  /** What one more event does to what is held. */
  lemma HeldByOneMore(init: seq<Event>, e: Event, p: Position)
    ensures IsHeld(init + [e], p) <==> e.change == Open(p) || (IsHeld(init, p) && !About(e, p.id))
  {
    var events := init + [e];
    if IsHeld(events, p) {
      var i :| 0 <= i < |events| && events[i].change == Open(p) && NoneAbout(events[i + 1..], p.id);
      if i < |init| {
        assert events[i + 1..] == init[i + 1..] + [e];
        assert e in events[i + 1..];
        NoneOfFewer(init[i + 1..], e, p.id);
        assert init[i].change == Open(p);
      }
    }
    if e.change == Open(p) {
      assert events[|init|].change == Open(p) && events[|init| + 1..] == [];
    } else if IsHeld(init, p) && !About(e, p.id) {
      var i :| 0 <= i < |init| && init[i].change == Open(p) && NoneAbout(init[i + 1..], p.id);
      assert events[i + 1..] == init[i + 1..] + [e] && events[i].change == Open(p);
    }
  }

  /** The positions after a run of events: each id at most once, as its last event left it. */
  lemma {:induction false} ReplayedMeans(events: seq<Event>)
    ensures OnePerId(Replayed(events)) && forall p :: p in Replayed(events) <==> IsHeld(events, p)
    decreases |events|
  {
    hide OnePerId;
    if events == [] {
      assert OnePerId([]) by { NoIds(); }
    } else {
      var init, e := events[..|events| - 1], events[|events| - 1];
      assert events == init + [e];
      ReplayedMeans(init);
      StepMeans(Replayed(init), e);
      forall p ensures p in Replayed(events) <==> IsHeld(events, p) {
        HeldByOneMore(init, e, p);
      }
    }
  }

  lemma StepMeans(active: seq<Position>, e: Event)
    requires OnePerId(active)
    ensures OnePerId(ApplyEvent(active, e))
    ensures forall p :: p in ApplyEvent(active, e) <==> e.change == Open(p) || (p in active && !About(e, p.id))
  {
    match e.change
    case Open(p) => PutAdds(active, p);
    case Close(id) => PopRemoves(active, id);
    case Other =>
  }

  lemma NoIds()
    ensures OnePerId([])
  {
  }

  // ------------------------------------------------------------------- the events and buckets

  /** The first n events, and no more, are not later than t. */
  predicate IsCut(events: seq<Event>, n: nat, t: int) {
    n <= |events| && (forall i :: 0 <= i < n ==> events[i].time <= t) && (n < |events| ==> events[n].time > t)
  }

  lemma {:induction false} ReachCuts(events: seq<Event>, i: nat, t: int)
    requires i <= |events| && forall j :: 0 <= j < i ==> events[j].time <= t
    ensures IsCut(events, Reach(events, i, t), t)
    decreases |events| - i
  {
    if i < |events| && events[i].time <= t {
      ReachCuts(events, i + 1, t);
    }
  }

  /** Whole seconds, toward zero. */
  predicate IsSecond(t: int, s: int) {
    if t >= 0 then 1000000 * s <= t < 1000000 * s + 1000000 else 1000000 * s - 1000000 < t <= 1000000 * s
  }

  /** Whole intervals, downward. */
  predicate IsQuotient(s: int, n: int, q: int) {
    if n > 0 then q * n <= s < q * n + n else q * n >= s > q * n + n
  }

  ghost predicate IsBucket(t: int, interval: int, q: int) {
    exists s :: IsSecond(t, s) && IsQuotient(s, interval, q)
  }

  lemma SecondsMean(t: int)
    ensures IsSecond(t, Seconds(t))
  {
  }

  lemma DivisionMeans(s: int, n: int)
    requires n > 0
    ensures (s / n) * n <= s < (s / n) * n + n
  {
  }

  lemma Negated(q: int, n: int)
    ensures q * (-n) == -(q * n)
  {
  }

  lemma BucketMeans(t: int, interval: int)
    requires interval != 0
    ensures IsBucket(t, interval, Bucket(t, interval))
  {
    SecondsMean(t);
    var s, q := Seconds(t), Bucket(t, interval);
    if interval > 0 {
      DivisionMeans(s, interval);
    } else {
      DivisionMeans(-s, -interval);
      Negated(q, interval);
    }
    assert IsQuotient(s, interval, q);
  }

  lemma MultiplesApart(p: int, q: int, n: int)
    requires n > 0 && p < q
    ensures p * n + n <= q * n
  {
    ProductOfNats(q - p - 1, n);
    Distributed(q, p, n);
  }

  lemma ProductOfNats(a: int, b: int)
    requires a >= 0 && b >= 0
    ensures a * b >= 0
  {
  }

  lemma Distributed(q: int, p: int, n: int)
    ensures (q - p - 1) * n == q * n - p * n - n
  {
  }

  lemma QuotientUnique(s: int, n: int, p: int, q: int)
    requires n != 0 && IsQuotient(s, n, p) && IsQuotient(s, n, q)
    ensures p == q
  {
    if p < q {
      Apart(s, n, p, q);
    } else if q < p {
      Apart(s, n, q, p);
    }
  }

  lemma Apart(s: int, n: int, p: int, q: int)
    requires n != 0 && p < q
    ensures !(IsQuotient(s, n, p) && IsQuotient(s, n, q))
  {
    if n > 0 {
      MultiplesApart(p, q, n);
    } else {
      MultiplesApart(p, q, -n);
      Negated(p, n);
      Negated(q, n);
    }
  }

  lemma BucketUnique(t: int, interval: int, p: int, q: int)
    requires interval != 0 && IsBucket(t, interval, p) && IsBucket(t, interval, q)
    ensures p == q
  {
    hide IsQuotient;
    var r :| IsSecond(t, r) && IsQuotient(r, interval, p);
    var s :| IsSecond(t, s) && IsQuotient(s, interval, q);
    assert r == s;
    QuotientUnique(r, interval, p, q);
  }

  // ----------------------------------------------------------------------------- the balance

  /** What the prices at two times make of the positions: the price move of each, by its side and quantity. */
  function Gain(ps: seq<Position>, price: Lookup, from: int, to: int): real
    requires forall p :: p in ps ==> price(p.symbol, from).Some? && price(p.symbol, to).Some?
  {
    if ps == [] then 0.0
    else
      var p := ps[|ps| - 1];
      assert p in ps && forall q :: q in ps[..|ps| - 1] ==> q in ps;
      var move := price(p.symbol, to).value - price(p.symbol, from).value;
      Gain(ps[..|ps| - 1], price, from, to) + (if p.long then move else -move) * p.qty
  }

  lemma {:induction false} MovedIsGain(ps: seq<Position>, price: Lookup, from: int, to: int, a: map<nat, real>,
                                       b: map<nat, real>)
    requires forall p :: p in ps ==> price(p.symbol, from).Some? && price(p.symbol, to).Some?
    requires forall p :: p in ps ==> p.symbol in a && price(p.symbol, from) == Some(a[p.symbol])
    requires forall p :: p in ps ==> p.symbol in b && price(p.symbol, to) == Some(b[p.symbol])
    ensures Moved(ps, a, b) == Gain(ps, price, from, to)
    decreases |ps|
  {
    if ps != [] {
      var p := ps[|ps| - 1];
      assert p in ps && forall q :: q in ps[..|ps| - 1] ==> q in ps;
      MovedIsGain(ps[..|ps| - 1], price, from, to, a, b);
      PnlMoves(p, a[p.symbol], b[p.symbol]);
    }
  }

  lemma PnlMoves(p: Position, from: real, to: real)
    ensures Pnl(p, to) - Pnl(p, from) == (if p.long then to - from else -(to - from)) * p.qty
  {
  }

  /** The latest of the rows up to k. */
  ghost predicate IsLatest(rows: seq<Row>, k: nat, t: int)
    requires k < |rows|
  {
    (forall j :: 0 <= j <= k ==> rows[j].time <= t) && exists j :: 0 <= j <= k && rows[j].time == t
  }

  /** The positions held at a row: those of the events up to the latest time so far. */
  ghost predicate IsBook(x: Input, rows: seq<Row>, k: nat, ps: seq<Position>)
    requires k < |rows|
  {
    OnePerId(ps) && exists n: nat :: CutAt(x, rows, k, n) && forall p :: p in ps <==> IsHeld(x.events[..n], p)
  }

  /** The first n events are those up to the latest time so far. */
  ghost predicate CutAt(x: Input, rows: seq<Row>, k: nat, n: nat)
    requires k < |rows|
    ensures CutAt(x, rows, k, n) ==> n <= |x.events|
  {
    exists t :: IsLatest(rows, k, t) && IsCut(x.events, n, t)
  }

  /** No event falls between two rows. */
  ghost predicate SameCut(x: Input, rows: seq<Row>, k: nat)
    requires 0 < k < |rows|
  {
    exists n: nat :: CutAt(x, rows, k - 1, n) && CutAt(x, rows, k, n)
  }

  ghost predicate SameBucket(x: Input, rows: seq<Row>, k: nat)
    requires 0 < k < |rows|
  {
    exists q :: IsBucket(rows[k - 1].time, x.interval, q) && IsBucket(rows[k].time, x.interval, q)
  }

  /** The row starts over: it is the first, or an event was applied for it, or it is in another bucket than the row
      before it, or nothing is held. */
  ghost predicate Restarts(x: Input, rows: seq<Row>, k: nat)
    requires k < |rows|
  {
    k == 0 || !SameCut(x, rows, k) || !SameBucket(x, rows, k) || IsBook(x, rows, k, [])
  }

  lemma EventsByMeans(x: Input, rows: seq<Row>, k: nat, n: nat)
    requires k < |rows|
    ensures CutAt(x, rows, k, n) <==> n == EventsBy(x, rows, k)
  {
    ReachCuts(x.events, 0, Latest(rows, k));
    assert IsLatest(rows, k, Latest(rows, k));
  }

  lemma BucketIs(t: int, interval: int, q: int)
    requires interval != 0
    ensures IsBucket(t, interval, q) <==> q == Bucket(t, interval)
  {
    BucketMeans(t, interval);
    if IsBucket(t, interval, q) {
      BucketUnique(t, interval, q, Bucket(t, interval));
    }
  }

  lemma BookMeans(x: Input, rows: seq<Row>, k: nat)
    requires k < |rows|
    ensures IsBook(x, rows, k, HeldAt(x, rows, k))
    ensures IsBook(x, rows, k, []) <==> HeldAt(x, rows, k) == []
  {
    var n := EventsBy(x, rows, k);
    EventsByMeans(x, rows, k, n);
    ReplayedMeans(x.events[..n]);
    hide IsHeld, CutAt, Replayed, EventsBy, OnePerId;
    if IsBook(x, rows, k, []) {
      var m: nat :| CutAt(x, rows, k, m) && forall p :: p in [] <==> IsHeld(x.events[..m], p);
      EventsByMeans(x, rows, k, m);
      forall p ensures p !in HeldAt(x, rows, k) {
        assert p !in [];
      }
      NoneMeansEmpty(HeldAt(x, rows, k));
    }
  }

  lemma NoneMeansEmpty(ps: seq<Position>)
    ensures ps == [] <==> forall p :: p !in ps
  {
    if ps != [] {
      assert ps[0] in ps;
    }
  }

  lemma CutsAgree(x: Input, rows: seq<Row>, k: nat)
    requires 0 < k < |rows|
    ensures SameCut(x, rows, k) <==> EventsBy(x, rows, k) == EventsBy(x, rows, k - 1)
  {
    hide EventsBy, CutAt;
    EventsByMeans(x, rows, k, EventsBy(x, rows, k));
    EventsByMeans(x, rows, k - 1, EventsBy(x, rows, k - 1));
    if SameCut(x, rows, k) {
      var n: nat :| CutAt(x, rows, k - 1, n) && CutAt(x, rows, k, n);
      EventsByMeans(x, rows, k, n);
      EventsByMeans(x, rows, k - 1, n);
    }
  }

  lemma BucketsAgree(x: Input, rows: seq<Row>, k: nat)
    requires 0 < k < |rows| && x.interval != 0
    ensures SameBucket(x, rows, k) <==> Bucket(rows[k].time, x.interval) == Bucket(rows[k - 1].time, x.interval)
  {
    hide Bucket, IsBucket;
    BucketIs(rows[k].time, x.interval, Bucket(rows[k].time, x.interval));
    BucketIs(rows[k - 1].time, x.interval, Bucket(rows[k - 1].time, x.interval));
    if SameBucket(x, rows, k) {
      var q :| IsBucket(rows[k - 1].time, x.interval, q) && IsBucket(rows[k].time, x.interval, q);
      BucketIs(rows[k].time, x.interval, q);
      BucketIs(rows[k - 1].time, x.interval, q);
    }
  }

  /** The loop's anchors are exactly the rows that start over. */
  lemma AnchorMeans(x: Input, rows: seq<Row>, k: nat)
    requires k < |rows| && x.interval != 0
    ensures IsAnchor(x, rows, k) <==> Restarts(x, rows, k)
  {
    hide EventsBy, Bucket, SameCut, SameBucket, IsBook, HeldAt;
    if k > 0 {
      BookMeans(x, rows, k);
      CutsAgree(x, rows, k);
      BucketsAgree(x, rows, k);
    }
  }

  /** The anchor of a row: the last one up to it that starts over. */
  ghost predicate IsAnchorOf(x: Input, rows: seq<Row>, k: nat, a: nat)
    requires k < |rows|
  {
    a <= k && Restarts(x, rows, a) && forall j :: a < j <= k ==> !Restarts(x, rows, j)
  }

  lemma {:induction false} AnchorIndexMeans(x: Input, rows: seq<Row>, k: nat)
    requires k < |rows| && x.interval != 0
    ensures IsAnchorOf(x, rows, k, AnchorIndex(x, rows, k))
    decreases k
  {
    hide Restarts;
    AnchorMeans(x, rows, k);
    hide IsAnchor;
    if !IsAnchor(x, rows, k) && k > 0 {
      AnchorIndexMeans(x, rows, k - 1);
    } else if k == 0 {
      FirstIsAnchor(x, rows);
    }
  }

  predicate PricedAt(ps: seq<Position>, price: Lookup, t: int) { forall p :: p in ps ==> price(p.symbol, t).Some? }

  /** The balance and the unrealised pnl move by the same amount, if by more than the tolerance. */
  predicate IsMoved(before: Row, after: Row, balance: real) {
    var change := balance - before.balance;
    if -0.000000001 <= change <= 0.000000001 then after == before
    else
      after == before.(balance := balance,
                       unrealized := Some((if before.unrealized.Some? then before.unrealized.value else 0.0) + change))
  }

  /** Row k after the repair: as it was if it starts over or a price is missing; else its anchor's balance plus what
      the prices since have made of the positions. */
  ghost predicate IsRepaired(x: Input, rows: seq<Row>, k: nat, r: Row)
    requires k < |rows|
  {
    if Restarts(x, rows, k) then r == rows[k]
    else exists a: nat, ps :: IsAnchorOf(x, rows, k, a) && IsBook(x, rows, k, ps) && RepairsFrom(x, rows, k, r, a, ps)
  }

  ghost predicate RepairsFrom(x: Input, rows: seq<Row>, k: nat, r: Row, a: nat, ps: seq<Position>)
    requires a <= k < |rows|
  {
    if PricedAt(ps, x.price, rows[a].time) && PricedAt(ps, x.price, rows[k].time)
    then IsMoved(rows[k], r, rows[a].balance + Gain(ps, x.price, rows[a].time, rows[k].time))
    else r == rows[k]
  }

  lemma MarkMoves(row: Row, balance: real)
    ensures IsMoved(row, Mark(row, balance), balance)
  {
  }

  lemma TrueBalanceMeans(x: Input, rows: seq<Row>, k: nat)
    requires k < |rows| && x.interval != 0
    ensures var a, ps := AnchorIndex(x, rows, k), HeldAt(x, rows, k);
      && (PricesNow(x, rows, k).Some? <==> PricedAt(ps, x.price, rows[k].time))
      && (PricesThen(x, rows, k).Some? <==> PricedAt(ps, x.price, rows[a].time))
      && (Markable(x, rows, k) ==>
            PricedAt(ps, x.price, rows[a].time) && PricedAt(ps, x.price, rows[k].time) &&
            TrueBalance(x, rows, k) == rows[a].balance + Gain(ps, x.price, rows[a].time, rows[k].time))
  {
    var a, ps := AnchorIndex(x, rows, k), HeldAt(x, rows, k);
    PricesAreLookups(ps, x.price, rows[k].time);
    PricesAreLookups(ps, x.price, rows[a].time);
    hide PricesFor, HeldAt, IsAnchor, AnchorIndex, Moved, Gain;
    if Markable(x, rows, k) {
      MovedIsGain(ps, x.price, rows[a].time, rows[k].time, PricesThen(x, rows, k).value, PricesNow(x, rows, k).value);
    }
  }

  /** Every repaired row, in full. */
  lemma RepairMeans(x: Input, rows: seq<Row>, k: nat)
    requires k < |rows| && x.interval != 0
    ensures IsRepaired(x, rows, k, Repaired(x, rows)[k])
  {
    var a, ps := AnchorIndex(x, rows, k), HeldAt(x, rows, k);
    AnchorMeans(x, rows, k);
    AnchorIndexMeans(x, rows, k);
    BookMeans(x, rows, k);
    RowRepaired(x, rows, k);
    hide Restarts, IsAnchorOf, IsBook, IsAnchor, RepairsFrom, Repaired;
  }

  lemma RowRepaired(x: Input, rows: seq<Row>, k: nat)
    requires k < |rows| && x.interval != 0
    ensures IsAnchor(x, rows, k) ==> Repaired(x, rows)[k] == rows[k]
    ensures !IsAnchor(x, rows, k) ==>
      RepairsFrom(x, rows, k, Repaired(x, rows)[k], AnchorIndex(x, rows, k), HeldAt(x, rows, k))
  {
    TrueBalanceMeans(x, rows, k);
    hide IsAnchor, HeldAt, AnchorIndex, PricesNow, PricesThen, TrueBalance, Gain, PricedAt;
    if Markable(x, rows, k) {
      MarkMoves(rows[k], TrueBalance(x, rows, k));
    }
    hide Mark, IsMoved;
  }
}
