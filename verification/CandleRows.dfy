/** What a candle message leaves in the six lists, column by column. */
module CandleRows {
  import opened Wrappers
  import opened Reals
  import opened CandleStore

  /** A field that is not there counts as zero. */
  predicate Reads(f: Field, x: real) { f == Num(x) || (f == Missing && x == 0.0) }

  /** The candle of a message, field by field. */
  predicate IsCandle(m: RawCandle, c: Candle) {
    Reads(m.open, c.open) && Reads(m.high, c.high) && Reads(m.low, c.low) && Reads(m.close, c.close) &&
    Reads(m.volume, c.volume)
  }

  /** The lists hold these candles, in the order of their times. */
  ghost predicate Holds(l: Lists, m: map<int, Candle>) {
    && |l.times| == |l.opens| == |l.highs| == |l.lows| == |l.closes| == |l.volumes|
    && (forall i, j :: 0 <= i < j < |l.times| ==> l.times[i] < l.times[j])
    && (forall t :: t in m <==> t in l.times)
    && (forall i :: 0 <= i < |l.times| ==> l.times[i] in m && InColumns(l, i, m[l.times[i]]))
  }

  predicate InColumns(l: Lists, i: nat, c: Candle)
    requires i < |l.times| == |l.opens| == |l.highs| == |l.lows| == |l.closes| == |l.volumes|
  {
    l.opens[i] == c.open && l.highs[i] == c.high && l.lows[i] == c.low && l.closes[i] == c.close &&
    l.volumes[i] == c.volume
  }

  /** The newest n of some candles. */
  ghost predicate IsNewest(all: map<int, Candle>, kept: map<int, Candle>, n: nat) {
    && (forall t :: t in kept ==> t in all && all[t] == kept[t])
    && |kept| == (if |all| < n then |all| else n)
    && (forall s, t :: s in all && s !in kept && t in kept ==> s < t)
  }

  // --------------------------------------------------------------- rows and dictionaries

  ghost predicate RowAt(rows: seq<Row>, t: int) { exists i :: 0 <= i < |rows| && rows[i].time == t }

  lemma RowAtMore(init: seq<Row>, last: Row, t: int)
    ensures RowAt(init + [last], t) <==> RowAt(init, t) || last.time == t
  {
    var rows := init + [last];
    if RowAt(init, t) {
      var i :| 0 <= i < |init| && init[i].time == t;
      assert rows[i].time == t;
    }
    assert rows[|init|].time == last.time;
  }

  lemma {:induction false} AsMapIs(rows: seq<Row>)
    requires InOrder(rows)
    ensures |AsMap(rows)| == |rows| && forall t :: t in AsMap(rows) <==> RowAt(rows, t)
    ensures forall i :: 0 <= i < |rows| ==> rows[i].time in AsMap(rows) && AsMap(rows)[rows[i].time] == rows[i].candle
    decreases |rows|
  {
    if rows != [] {
      hide RowAt;
      var init, last := rows[..|rows| - 1], rows[|rows| - 1];
      AsMapIs(init);
      NewLastTime(rows);
      assert rows == init + [last];
      forall t ensures RowAt(rows, t) <==> RowAt(init, t) || last.time == t {
        RowAtMore(init, last, t);
      }
      assert AsMap(rows).Keys == AsMap(init).Keys + {last.time};
      assert forall i :: 0 <= i < |init| ==> init[i] == rows[i];
    }
  }

  lemma NewLastTime(rows: seq<Row>)
    requires InOrder(rows) && rows != []
    ensures rows[|rows| - 1].time !in AsMap(rows[..|rows| - 1])
  {
    if rows[|rows| - 1].time in AsMap(rows[..|rows| - 1]) {
      TimesBelowLast(rows[..|rows| - 1], rows[|rows| - 1].time);
    }
  }

  lemma RowsHold(l: Lists)
    requires l.Even() && InOrder(RowsOf(l))
    ensures Holds(l, AsMap(RowsOf(l))) && |AsMap(RowsOf(l))| == |l.times|
  {
    var rows := RowsOf(l);
    EvenTimes(l);
    AsMapIs(rows);
    RowsAreTimes(l);
    forall t ensures t in AsMap(rows) <==> t in l.times {
      if t in l.times {
        var i :| 0 <= i < |l.times| && l.times[i] == t;
        assert rows[i].time == t;
      }
    }
    forall i | 0 <= i < |l.times| ensures l.times[i] in AsMap(rows) && InColumns(l, i, AsMap(rows)[l.times[i]]) {
      assert rows[i].time == l.times[i];
    }
  }

  lemma SameCandles(l: Lists, m: map<int, Candle>)
    requires Holds(l, m)
    ensures l.Even() && InOrder(RowsOf(l)) && AsMap(RowsOf(l)) == m
  {
    RisingIsInOrder(RowsOf(l));
    RowsHold(l);
    var own := AsMap(RowsOf(l));
    forall t | t in m ensures t in own && own[t] == m[t] {
      var i :| 0 <= i < |l.times| && l.times[i] == t;
      assert InColumns(l, i, m[t]) && InColumns(l, i, own[t]);
    }
    assert forall t :: t in own <==> t in l.times;
    assert own.Keys == m.Keys;
  }

  lemma {:induction false} RisingIsInOrder(rows: seq<Row>)
    requires forall i, j :: 0 <= i < j < |rows| ==> rows[i].time < rows[j].time
    ensures InOrder(rows)
    decreases |rows|
  {
    if |rows| > 1 {
      RisingIsInOrder(rows[..|rows| - 1]);
    }
  }

  lemma ReadsOnce(m: RawCandle, c: Candle)
    requires IsCandle(m, c)
    ensures Parses(m) && Parsed(m) == c
  {
  }

  lemma WindowKeepsRows(rows: seq<Row>, n: nat, t: int)
    requires InOrder(rows)
    ensures var kept := Window(rows, n);
      InOrder(kept) && (t in AsMap(kept) ==> t in AsMap(rows) && AsMap(rows)[t] == AsMap(kept)[t])
  {
    var kept := Window(rows, n);
    WindowKeepsOrder(rows, n);
    AsMapIs(rows);
    AsMapIs(kept);
    if t in AsMap(kept) {
      var i :| 0 <= i < |kept| && kept[i].time == t;
      assert rows[|rows| - |kept| + i] == kept[i];
    }
  }

  lemma LeftOutIsOlder(rows: seq<Row>, n: nat, s: int, t: int)
    requires InOrder(rows) && InOrder(Window(rows, n))
    requires s in AsMap(rows) && s !in AsMap(Window(rows, n)) && t in AsMap(Window(rows, n))
    ensures s < t
  {
    var kept := Window(rows, n);
    var from := |rows| - |kept|;
    AsMapIs(rows);
    AsMapIs(kept);
    OrderMeansRising(rows);
    var i :| 0 <= i < |rows| && rows[i].time == s;
    var j :| 0 <= j < |kept| && kept[j].time == t;
    assert kept[j] == rows[from + j];
    assert !RowAt(kept, s);
    InOrNotIn(rows, kept, from, i);
    assert TimesOf(rows)[i] < TimesOf(rows)[from + j];
  }

  lemma InOrNotIn(rows: seq<Row>, kept: seq<Row>, from: nat, i: nat)
    requires from <= |rows| && kept == rows[from..] && i < |rows|
    ensures RowAt(kept, rows[i].time) || i < from
  {
    if i >= from {
      assert kept[i - from].time == rows[i].time;
    }
  }

  /** The window of ordered rows is the newest of them. */
  lemma WindowIsNewest(rows: seq<Row>, n: nat)
    requires InOrder(rows)
    ensures InOrder(Window(rows, n)) && IsNewest(AsMap(rows), AsMap(Window(rows, n)), n)
  {
    var kept := Window(rows, n);
    WindowKeepsOrder(rows, n);
    AsMapIs(rows);
    AsMapIs(kept);
    hide AsMap, InOrder;
    forall t | t in AsMap(kept) ensures t in AsMap(rows) && AsMap(rows)[t] == AsMap(kept)[t] {
      WindowKeepsRows(rows, n, t);
    }
    forall s, t | s in AsMap(rows) && s !in AsMap(kept) && t in AsMap(kept) ensures s < t {
      LeftOutIsOlder(rows, n, s, t);
    }
  }

  // ------------------------------------------------------------------------- the operations

  /** A live message: nothing without a positive open time; otherwise its candle takes its time's place among those
      held, and the newest n stay. */
  lemma MessageMeans(l: Lists, held: map<int, Candle>, t: int, m: RawCandle, c: Candle, n: nat)
    requires Holds(l, held) && IsCandle(m, c)
    ensures t <= 0 ==> Streamed(l, (Some(t), m), n) == (l, false)
    ensures Streamed(l, (None, m), n) == (l, false)
    ensures t > 0 ==> !Streamed(l, (Some(t), m), n).1
    ensures t > 0 ==> exists kept :: Holds(Streamed(l, (Some(t), m), n).0, kept) && IsNewest(held[t := c], kept, n)
  {
    if t > 0 {
      ReadsOnce(m, c);
      SameCandles(l, held);
      var rows, row := RowsOf(l), Row(t, c);
      StreamIsReference(l, (Some(t), m), n);
      var k := Streamed(l, (Some(t), m), n).0;
      UpsertKeepsOrder(rows, row);
      UpsertIsMapUpdate(rows, row);
      WindowIsNewest(Upsert(rows, row), n);
      RowsHold(k);
      hide Streamed, RowsOf, InOrder, Holds, AsMap, Upsert;
      assert Holds(k, AsMap(RowsOf(k))) && IsNewest(held[t := c], AsMap(RowsOf(k)), n);
    }
  }

  /** The candles of a batch that have a positive open time, the last of each time. */
  function Batched(held: map<int, Candle>, batch: seq<Entry>, cs: seq<Candle>): map<int, Candle>
    requires |cs| == |batch|
  {
    if batch == [] then held
    else
      var before, e := Batched(held, batch[..|batch| - 1], cs[..|cs| - 1]), batch[|batch| - 1];
      if e.0.Some? && e.0.value > 0 then before[e.0.value := cs[|cs| - 1]] else before
  }

  lemma {:induction false} AcceptedAreBatched(rows: seq<Row>, held: map<int, Candle>, batch: seq<Entry>,
                                              cs: seq<Candle>)
    requires |cs| == |batch| && forall i :: 0 <= i < |batch| ==> IsCandle(batch[i].1, cs[i])
    requires InOrder(rows) && AsMap(rows) == held
    ensures AllParse(batch) && InOrder(UpsertAll(rows, Accepted(batch)))
    ensures AsMap(UpsertAll(rows, Accepted(batch))) == Batched(held, batch, cs)
    decreases |batch|
  {
    if batch != [] {
      hide AsMap, InOrder, Upsert, IsCandle;
      var init, ics, e, c := batch[..|batch| - 1], cs[..|cs| - 1], batch[|batch| - 1], cs[|cs| - 1];
      forall i | 0 <= i < |init| ensures IsCandle(init[i].1, ics[i]) {
        assert IsCandle(batch[i].1, cs[i]);
      }
      AcceptedAreBatched(rows, held, init, ics);
      assert IsCandle(e.1, c);
      ReadsOnce(e.1, c);
      if Usable(e) {
        var row := Row(e.0.value, c);
        var more := Accepted(init) + [row];
        assert more[..|more| - 1] == Accepted(init);
        UpsertKeepsOrder(UpsertAll(rows, Accepted(init)), row);
        UpsertIsMapUpdate(UpsertAll(rows, Accepted(init)), row);
      }
    }
  }

  /** A warm-up batch: its candles take their times' places, later ones over earlier ones, and the newest n stay. */
  lemma BatchMeans(l: Lists, held: map<int, Candle>, batch: seq<Entry>, cs: seq<Candle>, n: nat)
    requires Holds(l, held) && batch != []
    requires |cs| == |batch| && forall i :: 0 <= i < |batch| ==> IsCandle(batch[i].1, cs[i])
    ensures !Loaded(l, batch, n).1
    ensures exists kept :: Holds(Loaded(l, batch, n).0, kept) && IsNewest(Batched(held, batch, cs), kept, n)
  {
    SameCandles(l, held);
    var rows, k := RowsOf(l), Loaded(l, batch, n).0;
    AcceptedAreBatched(rows, held, batch, cs);
    LoadIsReference(l, batch, n);
    WindowIsNewest(UpsertAll(rows, Accepted(batch)), n);
    RowsHold(k);
    hide Loaded, RowsOf, InOrder, Holds, AsMap, UpsertAll, Accepted;
    assert Holds(k, AsMap(RowsOf(k))) && IsNewest(Batched(held, batch, cs), AsMap(RowsOf(k)), n);
  }

  // ------------------------------------------------------------------------ malformed candles

  /** A column after a field for row i was written: replaced or inserted, if the field and all before it are numbers
      or absent. */
  ghost predicate IsWritten(before: seq<real>, after: seq<real>, f: Field, i: nat, held: bool, reached: bool)
    requires i <= |before| && (held ==> i < |before|)
  {
    if !reached || f == Bad then after == before
    else exists x :: Reads(f, x) && after == if held then before[i := x] else before[..i] + [x] + before[i..]
  }

  /** Row i after as much of a message as can be read, its time included. */
  ghost predicate IsBroken(l: Lists, k: Lists, i: nat, t: int, m: RawCandle)
    requires |l.times| == |l.opens| == |l.highs| == |l.lows| == |l.closes| == |l.volumes| && i <= |l.times|
  {
    var held := i < |l.times| && l.times[i] == t;
    && k.times == (if held then l.times else l.times[..i] + [t] + l.times[i..])
    && IsWritten(l.opens, k.opens, m.open, i, held, true)
    && IsWritten(l.highs, k.highs, m.high, i, held, m.open != Bad)
    && IsWritten(l.lows, k.lows, m.low, i, held, m.open != Bad && m.high != Bad)
    && IsWritten(l.closes, k.closes, m.close, i, held, m.open != Bad && m.high != Bad && m.low != Bad)
    && IsWritten(l.volumes, k.volumes, m.volume, i, held,
                 m.open != Bad && m.high != Bad && m.low != Bad && m.close != Bad)
  }

  lemma FieldReads(f: Field)
    requires f != Bad
    ensures Reads(f, ValueOf(f))
  {
  }

  /** A malformed candle on even lists: its place gets its time and the fields before the first bad one, and it
      raises; nothing is trimmed then. */
  lemma MalformedMeans(l: Lists, t: int, m: RawCandle, n: nat)
    requires |l.times| == |l.opens| == |l.highs| == |l.lows| == |l.closes| == |l.volumes| && Rising(l.times)
    requires m.open == Bad || m.high == Bad || m.low == Bad || m.close == Bad || m.volume == Bad
    ensures var (k, raised) := Upserted(l, t, m);
      raised && exists i: nat :: i <= |l.times| && IsPlace(l.times, t, i) && IsBroken(l, k, i, t, m)
    ensures t > 0 ==> Streamed(l, (Some(t), m), n) == (Upserted(l, t, m).0, true)
  {
    var i := PlaceOf(l.times, t);
    PlaceIsPlace(l.times, t);
    MalformedRaises(l, t, m);
    if HasTime(l, t) {
      OverwrittenIs(l, i, t, m);
    } else {
      OpenedIs(l, i, t, m);
    }
    hide Rising, PlaceOf, IsPlace, IsBroken, Overwritten, Opened;
  }

  lemma OverwrittenIs(l: Lists, i: nat, t: int, m: RawCandle)
    requires |l.times| == |l.opens| == |l.highs| == |l.lows| == |l.closes| == |l.volumes| && i < |l.times|
    requires l.times[i] == t
    ensures IsBroken(l, Overwritten(l, i, m), i, t, m)
  {
    if m.open != Bad { FieldReads(m.open); }
    if m.high != Bad { FieldReads(m.high); }
    if m.low != Bad { FieldReads(m.low); }
    if m.close != Bad { FieldReads(m.close); }
    if m.volume != Bad { FieldReads(m.volume); }
    hide ValueOf, Reads;
  }

  lemma OpenedIs(l: Lists, i: nat, t: int, m: RawCandle)
    requires |l.times| == |l.opens| == |l.highs| == |l.lows| == |l.closes| == |l.volumes| && i <= |l.times|
    requires i < |l.times| ==> l.times[i] != t
    ensures IsBroken(l, Opened(l, i, t, m), i, t, m)
  {
    if m.open != Bad { FieldReads(m.open); }
    if m.high != Bad { FieldReads(m.high); }
    if m.low != Bad { FieldReads(m.low); }
    if m.close != Bad { FieldReads(m.close); }
    if m.volume != Bad { FieldReads(m.volume); }
    hide ValueOf, Reads;
  }

  lemma EmptyBatchDoesNothing(l: Lists, n: nat)
    ensures Loaded(l, [], n) == (l, false)
  {
  }

  /** A batch that raises leaves what its candles left up to the one that raised, untrimmed. */
  lemma BatchBreaksOff(l: Lists, batch: seq<Entry>, n: nat, k: nat)
    requires k < |batch| && !UpsertedAll(l, batch[..k]).1 && Usable(batch[k]) && !Parses(batch[k].1)
    ensures Loaded(l, batch, n) == (Upserted(UpsertedAll(l, batch[..k]).0, batch[k].0.value, batch[k].1).0, true)
  {
    var upto := batch[..k + 1];
    assert upto[..k] == batch[..k] && upto[k] == batch[k];
    MalformedRaises(UpsertedAll(l, batch[..k]).0, batch[k].0.value, batch[k].1);
    RaiseEndsBatch(l, batch, k + 1);
  }

  lemma MalformedRaises(l: Lists, t: int, m: RawCandle)
    requires !Parses(m)
    ensures Upserted(l, t, m).1
  {
  }
}
