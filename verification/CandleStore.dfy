/** The engine's candle store: six parallel lists kept in time order by binary-search upsert
    and trimmed from the front.

    The reference is the whole history: every candle ever seen, each time once with its
    last-arrived values.  The store is proved to be its newest N rows, however the candles
    arrive and whether trimming runs after each candle or once per batch. */
module CandleStore {
  import opened Wrappers
  import opened Reals

  /** A message field: absent counts as zero, and text that is no number raises. */
  datatype Field = Missing | Num(x: real) | Bad

  datatype RawCandle = RawCandle(open: Field, high: Field, low: Field, close: Field, volume: Field)

  datatype Candle = Candle(open: real, high: real, low: real, close: real, volume: real)

  datatype Row = Row(time: int, candle: Candle)

  function ValueOf(f: Field): real { if f.Num? then f.x else 0.0 }

  predicate Parses(m: RawCandle) { !m.open.Bad? && !m.high.Bad? && !m.low.Bad? && !m.close.Bad? && !m.volume.Bad? }

  function Parsed(m: RawCandle): Candle {
    Candle(ValueOf(m.open), ValueOf(m.high), ValueOf(m.low), ValueOf(m.close), ValueOf(m.volume))
  }

  // ----------------------------------------------------------------- the reference history

  /** Times strictly increase. */
  predicate InOrder(rows: seq<Row>) {
    |rows| < 2 || (InOrder(rows[..|rows| - 1]) && rows[|rows| - 2].time < rows[|rows| - 1].time)
  }

  /** One more candle: replaces the row of its time, or takes its place in time order. */
  function Upsert(rows: seq<Row>, row: Row): seq<Row> {
    if rows == [] then [row]
    else
      var last := rows[|rows| - 1];
      if row.time > last.time then rows + [row]
      else if row.time == last.time then rows[..|rows| - 1] + [row]
      else Upsert(rows[..|rows| - 1], row) + [last]
  }

  function UpsertAll(rows: seq<Row>, batch: seq<Row>): seq<Row> {
    if batch == [] then rows else Upsert(UpsertAll(rows, batch[..|batch| - 1]), batch[|batch| - 1])
  }

  /** Everything seen, by time, the last arrival winning. */
  function LastSeen(batch: seq<Row>): map<int, Candle> {
    if batch == [] then map[] else LastSeen(batch[..|batch| - 1])[batch[|batch| - 1].time := batch[|batch| - 1].candle]
  }

  /** Rows as the dictionary they list. */
  function AsMap(rows: seq<Row>): map<int, Candle> {
    if rows == [] then map[] else AsMap(rows[..|rows| - 1])[rows[|rows| - 1].time := rows[|rows| - 1].candle]
  }

  lemma {:induction false} TimesBelowLast(rows: seq<Row>, t: int)
    requires InOrder(rows) && t in AsMap(rows)
    ensures rows != [] && t <= rows[|rows| - 1].time
    decreases |rows|
  {
    if t != rows[|rows| - 1].time {
      TimesBelowLast(rows[..|rows| - 1], t);
    }
  }

  lemma {:induction false} UpsertKeepsOrder(rows: seq<Row>, row: Row)
    requires InOrder(rows)
    ensures InOrder(Upsert(rows, row)) && Upsert(rows, row) != []
    ensures Upsert(rows, row)[|Upsert(rows, row)| - 1].time ==
      if rows == [] || rows[|rows| - 1].time < row.time then row.time else rows[|rows| - 1].time
    decreases |rows|
  {
    if rows != [] {
      var init, last, next := rows[..|rows| - 1], rows[|rows| - 1], Upsert(rows, row);
      if row.time > last.time {
        assert next[..|next| - 1] == rows;
      } else if row.time == last.time {
        assert next[..|next| - 1] == init;
      } else {
        UpsertKeepsOrder(init, row);
        assert next[..|next| - 1] == Upsert(init, row);
      }
    }
  }

  lemma {:induction false} UpsertIsMapUpdate(rows: seq<Row>, row: Row)
    requires InOrder(rows)
    ensures AsMap(Upsert(rows, row)) == AsMap(rows)[row.time := row.candle]
    decreases |rows|
  {
    if rows == [] {
      assert [row][..0] == [];
    } else {
      hide AsMap, Upsert;
      if row.time < rows[|rows| - 1].time {
        UpsertIsMapUpdate(rows[..|rows| - 1], row);
      }
      UpdateBeforeLast(rows, row);
    }
  }

  lemma UpdateBeforeLast(rows: seq<Row>, row: Row)
    requires rows != []
    requires row.time < rows[|rows| - 1].time ==>
      AsMap(Upsert(rows[..|rows| - 1], row)) == AsMap(rows[..|rows| - 1])[row.time := row.candle]
    ensures AsMap(Upsert(rows, row)) == AsMap(rows)[row.time := row.candle]
  {
    hide AsMap, Upsert;
    var init, last := rows[..|rows| - 1], rows[|rows| - 1];
    UpsertUnfolds(rows, row);
    AsMapOfMore(init, last);
    AsMapOfMore(rows, row);
    AsMapOfMore(init, row);
    AsMapOfMore(Upsert(init, row), last);
    assert rows == init + [last];
    Overridden(AsMap(init), row, last);
  }

  lemma Overridden(m: map<int, Candle>, a: Row, b: Row)
    ensures m[b.time := b.candle][a.time := a.candle] ==
      if a.time == b.time then m[a.time := a.candle] else m[a.time := a.candle][b.time := b.candle]
  {
  }

  lemma UpsertUnfolds(rows: seq<Row>, row: Row)
    requires rows != []
    ensures var init, last := rows[..|rows| - 1], rows[|rows| - 1];
      Upsert(rows, row) ==
      if row.time > last.time then rows + [row]
      else if row.time == last.time then init + [row]
      else Upsert(init, row) + [last]
  {
  }

  lemma AsMapOfMore(rows: seq<Row>, row: Row)
    ensures AsMap(rows + [row]) == AsMap(rows)[row.time := row.candle]
  {
    assert (rows + [row])[..|rows|] == rows;
  }

  /** The reference history lists exactly what was seen, in time order. */
  lemma {:induction false} HistoryIsEverythingSeen(batch: seq<Row>)
    ensures InOrder(UpsertAll([], batch)) && AsMap(UpsertAll([], batch)) == LastSeen(batch)
    decreases |batch|
  {
    if batch != [] {
      var init, last := batch[..|batch| - 1], batch[|batch| - 1];
      HistoryIsEverythingSeen(init);
      UpsertKeepsOrder(UpsertAll([], init), last);
      UpsertIsMapUpdate(UpsertAll([], init), last);
    }
  }

  // --------------------------------------------------------------------- trimming commutes

  lemma WindowOfAppend<T>(s: seq<T>, x: T, n: nat)
    ensures Window(s + [x], n) == if n == 0 then [] else Window(s, n - 1) + [x]
  {
  }

  /** A trimmed store absorbs a candle as the whole history does. */
  lemma {:induction false} TrimThenUpsert(rows: seq<Row>, row: Row, n: nat)
    ensures Window(Upsert(Window(rows, n), row), n) == Window(Upsert(rows, row), n)
    decreases |rows|
  {
    if rows != [] && n > 0 {
      var init, last := rows[..|rows| - 1], rows[|rows| - 1];
      assert rows == init + [last];
      WindowOfAppend(init, last, n);
      var kept := Window(rows, n);
      assert kept[..|kept| - 1] == Window(init, n - 1) && kept[|kept| - 1] == last;
      if row.time > last.time {
        WindowOfAppend(rows, row, n);
        WindowOfAppend(kept, row, n);
        WindowOfWindow(rows, n, n - 1);
      } else if row.time == last.time {
        WindowOfAppend(init, row, n);
        WindowOfAppend(Window(init, n - 1), row, n);
        WindowOfWindow(init, n - 1, n - 1);
      } else {
        TrimThenUpsert(init, row, n - 1);
        WindowOfAppend(Upsert(init, row), last, n);
        WindowOfAppend(Upsert(Window(init, n - 1), row), last, n);
      }
    }
  }

  lemma WindowOfWindow<T>(s: seq<T>, n: nat, m: nat)
    requires m <= n
    ensures Window(Window(s, n), m) == Window(s, m)
  {
  }

  /** The same for a batch trimmed once, at its end. */
  lemma {:induction false} TrimThenUpsertAll(rows: seq<Row>, batch: seq<Row>, n: nat)
    ensures Window(UpsertAll(Window(rows, n), batch), n) == Window(UpsertAll(rows, batch), n)
    decreases |batch|
  {
    if batch == [] {
      WindowOfWindow(rows, n, n);
    } else {
      var init, last := batch[..|batch| - 1], batch[|batch| - 1];
      TrimThenUpsertAll(rows, init, n);
      TrimThenUpsert(UpsertAll(Window(rows, n), init), last, n);
      TrimThenUpsert(UpsertAll(rows, init), last, n);
    }
  }

  /** A store fed batch by batch, trimmed after each; a single candle is a batch of one. */
  function Store(batches: seq<seq<Row>>, n: nat): seq<Row> {
    if batches == [] then [] else Window(UpsertAll(Store(batches[..|batches| - 1], n), batches[|batches| - 1]), n)
  }

  function Flat(batches: seq<seq<Row>>): seq<Row> {
    if batches == [] then [] else Flat(batches[..|batches| - 1]) + batches[|batches| - 1]
  }

  lemma {:induction false} UpsertAllConcat(rows: seq<Row>, a: seq<Row>, b: seq<Row>)
    ensures UpsertAll(rows, a + b) == UpsertAll(UpsertAll(rows, a), b)
    decreases |b|
  {
    if b == [] {
      assert a + b == a;
    } else {
      assert (a + b)[..|a + b| - 1] == a + b[..|b| - 1];
      UpsertAllConcat(rows, a, b[..|b| - 1]);
    }
  }

  /** The main result: for candles in any order with repeats, cut into batches in any way,
      the store is exactly the newest n rows of everything ever seen. */
  lemma {:induction false} StoreIsNewestOfAll(batches: seq<seq<Row>>, n: nat)
    ensures Store(batches, n) == Window(UpsertAll([], Flat(batches)), n)
    ensures AsMap(UpsertAll([], Flat(batches))) == LastSeen(Flat(batches)) && InOrder(UpsertAll([], Flat(batches)))
    decreases |batches|
  {
    HistoryIsEverythingSeen(Flat(batches));
    if batches == [] {
      assert Flat(batches) == [];
    } else {
      var init, last := batches[..|batches| - 1], batches[|batches| - 1];
      StoreIsNewestOfAll(init, n);
      TrimThenUpsertAll(UpsertAll([], Flat(init)), last, n);
      UpsertAllConcat([], Flat(init), last);
    }
  }

  // ------------------------------------------------------------------------ the six lists

  /** Where a time belongs: everything before is earlier, nothing from there on is. */
  predicate IsPlace(times: seq<int>, t: int, i: nat) {
    && i <= |times|
    && (i > 0 ==> times[i - 1] < t)
    && (i < |times| ==> t <= times[i])
  }

  ghost predicate Rising(times: seq<int>) { forall i, j :: 0 <= i < j < |times| ==> times[i] < times[j] }

  /** `bisect_left`. */
  method BisectLeft(times: seq<int>, t: int) returns (i: nat)
    requires Rising(times)
    ensures IsPlace(times, t, i)
  {
    var lo, hi := 0, |times|;
    while lo < hi
      invariant lo <= hi <= |times|
      invariant lo > 0 ==> times[lo - 1] < t
      invariant hi < |times| ==> t <= times[hi]
    {
      var mid := (lo + hi) / 2;
      if times[mid] < t {
        lo := mid + 1;
      } else {
        hi := mid;
      }
    }
    i := lo;
  }

  function TimesOf(rows: seq<Row>): seq<int> { seq(|rows|, i requires 0 <= i < |rows| => rows[i].time) }

  /** A candle earlier than the last row goes in among the others. */
  lemma UpsertBeforeLast(rows: seq<Row>, row: Row)
    requires rows != [] && row.time < rows[|rows| - 1].time
    ensures Upsert(rows, row) == Upsert(rows[..|rows| - 1], row) + [rows[|rows| - 1]]
  {
  }

  /** The last row is where the place is: either it is replaced or the row goes before it. */
  lemma UpsertAtLast(rows: seq<Row>, row: Row)
    requires rows != [] && row.time <= rows[|rows| - 1].time
    requires |rows| > 1 ==> rows[|rows| - 2].time < row.time
    ensures Upsert(rows, row) == Placed(rows, row, |rows| - 1)
  {
    var init, last := rows[..|rows| - 1], rows[|rows| - 1];
    assert rows == init + [last];
    assert rows[|rows| - 1..] == [last];
    assert row.time < last.time ==> Upsert(init, row) == init + [row];
  }

  /** A row set down at an index: over the row of the same time, or before what stands there. */
  function Placed(rows: seq<Row>, row: Row, i: nat): seq<Row>
    requires i <= |rows|
  {
    if i < |rows| && rows[i].time == row.time then rows[i := row] else rows[..i] + [row] + rows[i..]
  }

  lemma PlacedBeforeLast(rows: seq<Row>, row: Row, i: nat)
    requires i < |rows| - 1
    ensures Placed(rows, row, i) == Placed(rows[..|rows| - 1], row, i) + [rows[|rows| - 1]]
  {
    var init, last := rows[..|rows| - 1], rows[|rows| - 1];
    assert rows[i..] == init[i..] + [last];
    assert init[..i] == rows[..i];
    assert init[i] == rows[i];
  }

  /** What `Upsert` does, at the place a binary search finds. */
  lemma {:induction false} UpsertAtPlace(rows: seq<Row>, row: Row, i: nat)
    requires InOrder(rows) && i <= |rows|
    requires i > 0 ==> rows[i - 1].time < row.time
    requires i < |rows| ==> row.time <= rows[i].time
    ensures Upsert(rows, row) == Placed(rows, row, i)
    decreases |rows|
  {
    if i == |rows| {
      assert rows[i..] == [];
    } else if i == |rows| - 1 {
      UpsertAtLast(rows, row);
    } else {
      RisesTo(rows, i);
      UpsertBeforeLast(rows, row);
      UpsertAtPlace(rows[..|rows| - 1], row, i);
      PlacedBeforeLast(rows, row, i);
    }
  }

  lemma {:induction false} RisesTo(rows: seq<Row>, i: nat)
    requires InOrder(rows) && i < |rows|
    ensures i < |rows| - 1 ==> rows[i].time < rows[|rows| - 1].time
    decreases |rows|
  {
    if i < |rows| - 2 {
      RisesTo(rows[..|rows| - 1], i);
    }
  }

  lemma {:induction false} OrderMeansRising(rows: seq<Row>)
    requires InOrder(rows)
    ensures Rising(TimesOf(rows))
    decreases |rows|
  {
    if rows != [] {
      OrderMeansRising(rows[..|rows| - 1]);
      assert TimesOf(rows[..|rows| - 1]) == TimesOf(rows)[..|rows| - 1];
      forall i, j | 0 <= i < j < |rows| ensures TimesOf(rows)[i] < TimesOf(rows)[j] {
        if j == |rows| - 1 {
          RisesTo(rows, i);
        } else {
          assert TimesOf(rows[..|rows| - 1])[i] < TimesOf(rows[..|rows| - 1])[j];
        }
      }
    }
  }

  /** The rows that six lists of one length spell out. */
  function Zip(times: seq<int>, opens: seq<real>, highs: seq<real>, lows: seq<real>, closes: seq<real>,
               volumes: seq<real>): seq<Row>
    requires |times| == |opens| == |highs| == |lows| == |closes| == |volumes|
  {
    seq(|times|, i requires 0 <= i < |times| =>
      Row(times[i], Candle(opens[i], highs[i], lows[i], closes[i], volumes[i])))
  }

  /** `list.insert`. */
  function Inserted<T>(s: seq<T>, i: nat, x: T): seq<T>
    requires i <= |s|
  {
    s[..i] + [x] + s[i..]
  }

  lemma ZipInserted(times: seq<int>, opens: seq<real>, highs: seq<real>, lows: seq<real>, closes: seq<real>,
                    volumes: seq<real>, i: nat, t: int, c: Candle)
    requires |times| == |opens| == |highs| == |lows| == |closes| == |volumes| && i <= |times|
    ensures Zip(Inserted(times, i, t), Inserted(opens, i, c.open), Inserted(highs, i, c.high), Inserted(lows, i, c.low),
                Inserted(closes, i, c.close), Inserted(volumes, i, c.volume)) ==
      Inserted(Zip(times, opens, highs, lows, closes, volumes), i, Row(t, c))
  {
  }

  /** The six lists.  A candle that breaks off leaves them uneven, and later ones are stored all the same. */
  datatype Lists = Lists(
    times: seq<int>, opens: seq<real>, highs: seq<real>, lows: seq<real>, closes: seq<real>, volumes: seq<real>)
  {
    predicate Even() { |times| == |opens| == |highs| == |lows| == |closes| == |volumes| }

    /** No list is longer than the one that is filled before it. */
    predicate Stepped() { |times| >= |opens| >= |highs| >= |lows| >= |closes| >= |volumes| }
  }

  const NOTHING := Lists([], [], [], [], [], [])

  /** Where a time belongs. */
  function PlaceOf(times: seq<int>, t: int): (i: nat)
    ensures i <= |times|
  {
    if times == [] then 0
    else if times[|times| - 1] < t then |times|
    else PlaceOf(times[..|times| - 1], t)
  }

  lemma {:induction false} PlaceIsUnique(times: seq<int>, t: int, i: nat)
    requires Rising(times) && IsPlace(times, t, i)
    ensures PlaceOf(times, t) == i
    decreases |times|
  {
    if i < |times| {
      PlaceIsUnique(times[..|times| - 1], t, i);
    }
  }

  lemma {:induction false} PlaceIsPlace(times: seq<int>, t: int)
    requires Rising(times)
    ensures IsPlace(times, t, PlaceOf(times, t))
    decreases |times|
  {
    if times != [] && times[|times| - 1] >= t {
      PlaceIsPlace(times[..|times| - 1], t);
    }
  }

  /** How many of a message's five numbers are stored in a new row before one raises. */
  function Stored(m: RawCandle): (n: nat)
    ensures n == 5 <==> Parses(m)
  {
    if m.open.Bad? then 0
    else if m.high.Bad? then 1
    else if m.low.Bad? then 2
    else if m.close.Bad? then 3
    else if m.volume.Bad? then 4
    else 5
  }

  /** How many are stored in row i, where a list that is too short raises as well. */
  function StoredAt(l: Lists, i: nat, m: RawCandle): nat {
    if m.open.Bad? || i >= |l.opens| then 0
    else if m.high.Bad? || i >= |l.highs| then 1
    else if m.low.Bad? || i >= |l.lows| then 2
    else if m.close.Bad? || i >= |l.closes| then 3
    else if m.volume.Bad? || i >= |l.volumes| then 4
    else 5
  }

  function Put(s: seq<real>, i: nat, f: Field, stored: bool): seq<real>
    requires stored ==> i < |s|
  {
    if stored then s[i := ValueOf(f)] else s
  }

  /** `list.insert` past the end appends. */
  function PutIn(s: seq<real>, i: nat, f: Field, stored: bool): seq<real> {
    if stored then Inserted(s, if i <= |s| then i else |s|, ValueOf(f)) else s
  }

  /** Row i with as many of the message's numbers as are stored. */
  function Overwritten(l: Lists, i: nat, m: RawCandle): Lists {
    var n := StoredAt(l, i, m);
    Lists(l.times, Put(l.opens, i, m.open, n > 0), Put(l.highs, i, m.high, n > 1), Put(l.lows, i, m.low, n > 2),
          Put(l.closes, i, m.close, n > 3), Put(l.volumes, i, m.volume, n > 4))
  }

  /** A new row at i, with as many of the message's numbers as are stored. */
  function Opened(l: Lists, i: nat, t: int, m: RawCandle): Lists
    requires i <= |l.times|
  {
    var n := Stored(m);
    Lists(Inserted(l.times, i, t), PutIn(l.opens, i, m.open, n > 0), PutIn(l.highs, i, m.high, n > 1),
          PutIn(l.lows, i, m.low, n > 2), PutIn(l.closes, i, m.close, n > 3), PutIn(l.volumes, i, m.volume, n > 4))
  }

  predicate HasTime(l: Lists, t: int) {
    PlaceOf(l.times, t) < |l.times| && l.times[PlaceOf(l.times, t)] == t
  }

  /** One candle in the six lists, and whether it raised. */
  function Upserted(l: Lists, t: int, m: RawCandle): (Lists, bool) {
    var i := PlaceOf(l.times, t);
    if HasTime(l, t) then (Overwritten(l, i, m), StoredAt(l, i, m) < 5) else (Opened(l, i, t, m), !Parses(m))
  }

  function Drop(s: seq<real>, n: nat): seq<real> { if n <= |s| then s[n..] else [] }

  function Trimmed(l: Lists, n: nat): Lists {
    if |l.times| <= n then l
    else
      var o := |l.times| - n;
      Lists(l.times[o..], Drop(l.opens, o), Drop(l.highs, o), Drop(l.lows, o), Drop(l.closes, o), Drop(l.volumes, o))
  }

  type Entry = (Option<int>, RawCandle)

  function Streamed(l: Lists, e: Entry, n: nat): (Lists, bool) {
    if !Usable(e) then (l, false)
    else
      var (k, raised) := Upserted(l, e.0.value, e.1);
      (if raised then k else Trimmed(k, n), raised)
  }

  /** The candles of a batch up to the first that raises. */
  function UpsertedAll(l: Lists, batch: seq<Entry>): (Lists, bool) {
    if batch == [] then (l, false)
    else
      var (k, raised) := UpsertedAll(l, batch[..|batch| - 1]);
      var e := batch[|batch| - 1];
      if raised || !Usable(e) then (k, raised) else Upserted(k, e.0.value, e.1)
  }

  function Loaded(l: Lists, batch: seq<Entry>, n: nat): (Lists, bool) {
    if batch == [] then (l, false)
    else
      var (k, raised) := UpsertedAll(l, batch);
      (if raised then k else Trimmed(k, n), raised)
  }

  function RowsOf(l: Lists): seq<Row>
    requires l.Even()
  {
    Zip(l.times, l.opens, l.highs, l.lows, l.closes, l.volumes)
  }

  /** A raise spoils only the row it was at: every other row of even lists is as before, an overwritten one keeps its
      time, and the lists stay even exactly if the time was there. */
  lemma RaiseIsLocal(l: Lists, t: int, m: RawCandle)
    requires l.Even() && Rising(l.times) && !Parses(m)
    ensures var (k, raised) := Upserted(l, t, m);
      && raised
      && (k.Even() <==> t in l.times)
      && (t in l.times ==> k.times == l.times)
      && (t in l.times ==> forall i :: 0 <= i < |l.times| && l.times[i] != t ==> RowsOf(k)[i] == RowsOf(l)[i])
  {
    PlaceIsPlace(l.times, t);
    PlaceDecides(l.times, t, PlaceOf(l.times, t));
  }

  lemma OverwrittenRows(l: Lists, i: nat, m: RawCandle)
    requires l.Even() && i < |l.times| && Parses(m)
    ensures Overwritten(l, i, m).Even()
    ensures RowsOf(Overwritten(l, i, m)) == RowsOf(l)[i := Row(l.times[i], Parsed(m))]
  {
  }

  lemma OverwrittenRaises(l: Lists, i: nat, m: RawCandle)
    requires l.Even() && i < |l.times|
    ensures Overwritten(l, i, m).Even() && (StoredAt(l, i, m) < 5 <==> !Parses(m))
    ensures Parses(m) ==> RowsOf(Overwritten(l, i, m)) == RowsOf(l)[i := Row(l.times[i], Parsed(m))]
  {
    if Parses(m) {
      OverwrittenRows(l, i, m);
    }
  }

  lemma OpenedRows(l: Lists, i: nat, t: int, m: RawCandle)
    requires l.Even() && i <= |l.times| && Parses(m)
    ensures Opened(l, i, t, m).Even()
    ensures RowsOf(Opened(l, i, t, m)) == Inserted(RowsOf(l), i, Row(t, Parsed(m)))
  {
    ZipInserted(l.times, l.opens, l.highs, l.lows, l.closes, l.volumes, i, t, Parsed(m));
  }

  lemma RowsAreTimes(l: Lists)
    requires l.Even()
    ensures |RowsOf(l)| == |l.times| && forall i :: 0 <= i < |l.times| ==> RowsOf(l)[i].time == l.times[i]
  {
  }

  /** On even lists a well-formed candle is the reference step. */
  lemma UpsertIsReference(l: Lists, t: int, m: RawCandle)
    requires l.Even() && InOrder(RowsOf(l)) && Parses(m)
    ensures var (k, raised) := Upserted(l, t, m);
      !raised && k.Even() && RowsOf(k) == Upsert(RowsOf(l), Row(t, Parsed(m))) && InOrder(RowsOf(k))
  {
    var i, rows, row := PlaceOf(l.times, t), RowsOf(l), Row(t, Parsed(m));
    EvenTimes(l);
    PlaceIsPlace(l.times, t);
    RowsAreTimes(l);
    UpsertKeepsOrder(rows, row);
    UpsertAtPlace(rows, row, i);
    hide RowsOf, Parsed, Upsert, InOrder, Rising, PlaceOf;
    if HasTime(l, t) {
      OverwrittenRows(l, i, m);
    } else {
      OpenedRows(l, i, t, m);
    }
  }

  /** What a candle does to even lists, in order or not. */
  lemma UpsertOfEven(l: Lists, t: int, m: RawCandle)
    requires Sound(l)
    ensures var (k, raised) := Upserted(l, t, m);
      && (l.Even() ==> raised == !Parses(m) && (k.Even() <==> !raised || t in l.times))
      && (l.Even() && InOrder(RowsOf(l)) && !raised ==>
            k.Even() && RowsOf(k) == Upsert(RowsOf(l), Row(t, Parsed(m))) && InOrder(RowsOf(k)))
  {
    UpsertKeepsGap(l, t, m);
    if l.Even() && !Parses(m) {
      RaiseIsLocal(l, t, m);
    } else if l.Even() {
      PlaceIsPlace(l.times, t);
      if InOrder(RowsOf(l)) {
        UpsertIsReference(l, t, m);
      }
    }
    hide RowsOf, InOrder, Upsert, PlaceOf;
  }

  lemma EvenTimes(l: Lists)
    requires l.Even() && InOrder(RowsOf(l))
    ensures Rising(l.times)
  {
    OrderMeansRising(RowsOf(l));
    assert TimesOf(RowsOf(l)) == l.times;
  }

  lemma EvenTrimmed(l: Lists, n: nat)
    requires l.Even()
    ensures Trimmed(l, n).Even() && RowsOf(Trimmed(l, n)) == Window(RowsOf(l), n)
  {
    if |l.times| > n {
      assert RowsOf(Trimmed(l, n)) == RowsOf(l)[|l.times| - n..];
    }
  }

  /** A batch of well-formed candles is the reference steps; the first malformed one raises. */
  lemma {:induction false} BatchIsReference(l: Lists, batch: seq<Entry>)
    requires l.Even() && InOrder(RowsOf(l))
    ensures UpsertedAll(l, batch).1 <==> !AllParse(batch)
    ensures AllParse(batch) ==>
      var k := UpsertedAll(l, batch).0;
      k.Even() && RowsOf(k) == UpsertAll(RowsOf(l), Accepted(batch)) && InOrder(RowsOf(k))
    decreases |batch|
  {
    if batch != [] {
      hide Upserted, InOrder, RowsOf, Parses, Upsert;
      var init, e := batch[..|batch| - 1], batch[|batch| - 1];
      BatchIsReference(l, init);
      if AllParse(init) && Usable(e) {
        var k := UpsertedAll(l, init).0;
        if Parses(e.1) {
          UpsertIsReference(k, e.0.value, e.1);
          var more := Accepted(init) + [Row(e.0.value, Parsed(e.1))];
          assert more[..|more| - 1] == Accepted(init);
        } else {
          EvenTimes(k);
          RaiseIsLocal(k, e.0.value, e.1);
        }
      }
    }
  }

  // ------------------------------------------------------------------------- uneven lists

  /** What every step keeps, even or not. */
  ghost predicate Sound(l: Lists) { l.Stepped() && Rising(l.times) }

  function Lack(l: Lists): int { |l.times| - |l.volumes| }

  lemma RisingInserted(times: seq<int>, i: nat, t: int)
    requires Rising(times) && IsPlace(times, t, i) && !(i < |times| && times[i] == t)
    ensures Rising(Inserted(times, i, t))
  {
    var more := Inserted(times, i, t);
    forall a, b | 0 <= a < b < |more| ensures more[a] < more[b] {
      assert more[a] == (if a < i then times[a] else if a == i then t else times[a - 1]);
      assert more[b] == (if b < i then times[b] else if b == i then t else times[b - 1]);
    }
  }

  /** A candle keeps the lists sound and never closes a gap; it opens one exactly if it is malformed and its time
      is new. */
  lemma UpsertKeepsGap(l: Lists, t: int, m: RawCandle)
    requires Sound(l)
    ensures var k := Upserted(l, t, m).0;
      Sound(k) && Lack(k) == Lack(l) + if !Parses(m) && t !in l.times then 1 else 0
  {
    var i := PlaceOf(l.times, t);
    PlaceIsPlace(l.times, t);
    PlaceDecides(l.times, t, i);
    hide Rising, PlaceOf;
    if HasTime(l, t) {
      SameLengths(l, i, m);
    } else {
      RisingInserted(l.times, i, t);
      OpenedLengths(l, i, t, m);
    }
    hide Overwritten, Opened;
  }

  lemma SameLengths(l: Lists, i: nat, m: RawCandle)
    ensures var k := Overwritten(l, i, m);
      && k.times == l.times && |k.opens| == |l.opens| && |k.highs| == |l.highs| && |k.lows| == |l.lows|
      && |k.closes| == |l.closes| && |k.volumes| == |l.volumes|
  {
  }

  lemma OpenedLengths(l: Lists, i: nat, t: int, m: RawCandle)
    requires l.Stepped() && i <= |l.times|
    ensures var k := Opened(l, i, t, m);
      && k.times == Inserted(l.times, i, t) && k.Stepped()
      && Lack(k) == Lack(l) + if !Parses(m) then 1 else 0
  {
  }

  lemma TrimKeepsGap(l: Lists, n: nat)
    requires Sound(l) && n > 0
    ensures Sound(Trimmed(l, n)) && (Lack(Trimmed(l, n)) == 0 <==> Lack(l) == 0)
  {
  }

  datatype Feed = LiveCandle(entry: Entry) | WarmupBatch(batch: seq<Entry>)

  function Fed(l: Lists, f: Feed, n: nat): Lists {
    match f case LiveCandle(e) => Streamed(l, e, n).0 case WarmupBatch(batch) => Loaded(l, batch, n).0
  }

  function FedAll(l: Lists, fs: seq<Feed>, n: nat): Lists {
    if fs == [] then l else Fed(FedAll(l, fs[..|fs| - 1], n), fs[|fs| - 1], n)
  }

  /** A malformed candle at a time that the store does not hold. */
  predicate Breaks(l: Lists, e: Entry) { Usable(e) && !Parses(e.1) && e.0.value !in l.times }

  predicate BatchBreaks(l: Lists, batch: seq<Entry>) {
    batch != [] &&
    var init := batch[..|batch| - 1];
    BatchBreaks(l, init) || (!UpsertedAll(l, init).1 && Breaks(UpsertedAll(l, init).0, batch[|batch| - 1]))
  }

  predicate FeedBreaks(l: Lists, f: Feed) {
    match f case LiveCandle(e) => Breaks(l, e) case WarmupBatch(batch) => BatchBreaks(l, batch)
  }

  predicate SomeBreaks(l: Lists, fs: seq<Feed>, n: nat) {
    fs != [] && (SomeBreaks(l, fs[..|fs| - 1], n) || FeedBreaks(FedAll(l, fs[..|fs| - 1], n), fs[|fs| - 1]))
  }

  lemma {:induction false} BatchKeepsGap(l: Lists, batch: seq<Entry>)
    requires Sound(l)
    ensures Sound(UpsertedAll(l, batch).0) && Lack(UpsertedAll(l, batch).0) >= Lack(l)
    ensures Lack(UpsertedAll(l, batch).0) == Lack(l) <==> !BatchBreaks(l, batch)
    decreases |batch|
  {
    if batch != [] {
      hide Upserted, Sound, Lack, Parses;
      var init, e := batch[..|batch| - 1], batch[|batch| - 1];
      BatchKeepsGap(l, init);
      if Usable(e) {
        UpsertKeepsGap(UpsertedAll(l, init).0, e.0.value, e.1);
      }
    }
  }

  lemma FeedKeepsGap(l: Lists, f: Feed, n: nat)
    requires Sound(l) && n > 0
    ensures Sound(Fed(l, f, n))
    ensures Lack(Fed(l, f, n)) == 0 <==> Lack(l) == 0 && !FeedBreaks(l, f)
  {
    hide Upserted, Trimmed, UpsertedAll;
    assert Lack(l) >= 0;
    match f
    case LiveCandle(e) =>
      if Usable(e) {
        UpsertKeepsGap(l, e.0.value, e.1);
        TrimKeepsGap(Upserted(l, e.0.value, e.1).0, n);
      }
    case WarmupBatch(batch) =>
      BatchKeepsGap(l, batch);
      TrimKeepsGap(UpsertedAll(l, batch).0, n);
  }

  /** Over every feed, live and warm-up, well formed or not: the lists are even at the end exactly if they were at
      the beginning and no malformed candle came at a time that was not stored.  A gap is never closed again. */
  lemma {:induction false} EvenIffNoneBreaks(l: Lists, fs: seq<Feed>, n: nat)
    requires Sound(l) && n > 0
    ensures Sound(FedAll(l, fs, n))
    ensures FedAll(l, fs, n).Even() <==> l.Even() && !SomeBreaks(l, fs, n)
    decreases |fs|
  {
    if fs != [] {
      hide Fed, FeedBreaks;
      EvenIffNoneBreaks(l, fs[..|fs| - 1], n);
      FeedKeepsGap(FedAll(l, fs[..|fs| - 1], n), fs[|fs| - 1], n);
    }
  }

  /** Nor is the newest candle ever updated again: every message for it raises, even a well-formed one. */
  lemma NewestCandleRaises(l: Lists, m: RawCandle)
    requires Sound(l) && !l.Even()
    ensures Upserted(l, l.times[|l.times| - 1], m).1
  {
    PlaceIsUnique(l.times, l.times[|l.times| - 1], |l.times| - 1);
  }

  // ------------------------------------------------------------------------- the store itself

  /** The engine's `SymbolData`. */
  class SymbolData {
    var times: seq<int>
    var opens: seq<real>
    var highs: seq<real>
    var lows: seq<real>
    var closes: seq<real>
    var volumes: seq<real>

    constructor ()
      ensures Now() == NOTHING && Aligned() && Rows() == [] && Sound(Now())
    {
      times, opens, highs, lows, closes, volumes := [], [], [], [], [], [];
    }

    predicate Aligned()
      reads this
    {
      Now().Even()
    }

    function Now(): Lists
      reads this
    {
      Lists(times, opens, highs, lows, closes, volumes)
    }

    function Rows(): seq<Row>
      requires Aligned()
      reads this
    {
      RowsOf(Now())
    }

    /** Field by field; a field that is no number, or a list that is too short, raises after the ones before it
        are stored. */
    method ReplaceCandle(i: nat, m: RawCandle) returns (raised: bool)
      modifies `opens, `highs, `lows, `closes, `volumes
      ensures Now() == Overwritten(old(Now()), i, m) && raised == (StoredAt(old(Now()), i, m) < 5)
      ensures old(Aligned()) && i < |times| ==> Aligned() && raised == !Parses(m)
      ensures old(Aligned()) && i < |times| && !raised ==> Rows() == old(Rows())[i := Row(times[i], Parsed(m))]
    {
      if Aligned() && i < |times| {
        OverwrittenRaises(Now(), i, m);
      }
      raised := true;
      if m.open.Bad? || i >= |opens| { return; }
      opens := opens[i := ValueOf(m.open)];
      if m.high.Bad? || i >= |highs| { return; }
      highs := highs[i := ValueOf(m.high)];
      if m.low.Bad? || i >= |lows| { return; }
      lows := lows[i := ValueOf(m.low)];
      if m.close.Bad? || i >= |closes| { return; }
      closes := closes[i := ValueOf(m.close)];
      if m.volume.Bad? || i >= |volumes| { return; }
      volumes := volumes[i := ValueOf(m.volume)];
      raised := false;
    }

    /** The time goes in first; a field that is no number then leaves the lists uneven. */
    method InsertCandle(i: nat, t: int, m: RawCandle) returns (raised: bool)
      requires i <= |times|
      modifies this
      ensures Now() == Opened(old(Now()), i, t, m) && raised == !Parses(m)
      ensures old(Aligned()) ==> (Aligned() <==> !raised)
      ensures old(Aligned()) && !raised ==> Rows() == Inserted(old(Rows()), i, Row(t, Parsed(m)))
    {
      if Aligned() && Parses(m) {
        OpenedRows(Now(), i, t, m);
      }
      raised := true;
      times := Inserted(times, i, t);
      if m.open.Bad? { return; }
      opens := PutIn(opens, i, m.open, true);
      if m.high.Bad? { return; }
      highs := PutIn(highs, i, m.high, true);
      if m.low.Bad? { return; }
      lows := PutIn(lows, i, m.low, true);
      if m.close.Bad? { return; }
      closes := PutIn(closes, i, m.close, true);
      if m.volume.Bad? { return; }
      volumes := PutIn(volumes, i, m.volume, true);
      raised := false;
    }

    /** The candle at its place.  On even lists a well-formed one is the reference step; a malformed one raises. */
    method UpsertCandle(m: RawCandle, t: int) returns (raised: bool)
      requires Sound(Now())
      modifies this
      ensures (Now(), raised) == Upserted(old(Now()), t, m) && Sound(Now())
      ensures old(Aligned()) ==> raised == !Parses(m) && (Aligned() <==> !raised || t in old(times))
      ensures old(Aligned() && InOrder(Rows())) && !raised ==>
        Aligned() && Rows() == Upsert(old(Rows()), Row(t, Parsed(m))) && InOrder(Rows())
    {
      UpsertOfEven(Now(), t, m);
      UpsertKeepsGap(Now(), t, m);
      var i: nat;
      if times != [] && t == times[|times| - 1] {
        i := |times| - 1;
      } else if times != [] && t > times[|times| - 1] {
        i := |times|;
      } else if times != [] {
        i := BisectLeft(times, t);
      } else {
        i := 0;
      }
      PlaceIsUnique(times, t, i);
      hide Overwritten, Opened, Sound, Rising, IsPlace, PlaceOf, RowsOf, InOrder, Upsert, Parses, Parsed;
      if i < |times| && times[i] == t {
        raised := ReplaceCandle(i, m);
      } else {
        raised := InsertCandle(i, t, m);
      }
    }

    /** Keeps the newest n. */
    method TrimSymbolData(n: nat)
      modifies this
      ensures Now() == Trimmed(old(Now()), n)
      ensures old(Aligned()) ==> Aligned() && Rows() == Window(old(Rows()), n)
    {
      if Aligned() {
        EvenTrimmed(Now(), n);
      }
      if |times| > n {
        var overflow := |times| - n;
        times, opens, highs := times[overflow..], Drop(opens, overflow), Drop(highs, overflow);
        lows, closes, volumes := Drop(lows, overflow), Drop(closes, overflow), Drop(volumes, overflow);
      }
    }

    /** One live candle.  A message whose open time does not parse, or is not positive, changes nothing. */
    method OnKlineMessage(m: RawCandle, openTime: Option<int>, n: nat) returns (raised: bool)
      requires Sound(Now())
      modifies this
      ensures (Now(), raised) == Streamed(old(Now()), (openTime, m), n)
      ensures n > 0 ==> Sound(Now())
      ensures old(Aligned() && InOrder(Rows())) ==> InStepWith(old(Rows()), (openTime, m), n, Now(), raised)
    {
      raised := false;
      ghost var before := Now();
      if Aligned() && InOrder(Rows()) {
        StreamIsReference(before, (openTime, m), n);
      }
      if n > 0 {
        FeedKeepsGap(before, LiveCandle((openTime, m)), n);
      }
      hide Sound, Upserted, Trimmed, InStepWith, InOrder;
      if openTime.None? || openTime.value <= 0 { return; }
      raised := UpsertCandle(m, openTime.value);
      if raised { return; }
      TrimSymbolData(n);
    }

    /** A warm-up batch, trimmed once at its end; entries without a positive open time are skipped. */
    method LoadWarmupCandles(batch: seq<Entry>, n: nat) returns (loaded: bool, raised: bool)
      requires Sound(Now())
      modifies this
      ensures (Now(), raised) == Loaded(old(Now()), batch, n)
      ensures n > 0 ==> Sound(Now())
      ensures loaded <==> !raised && batch != [] && times != []
      ensures old(Aligned() && InOrder(Rows())) ==> raised == !AllParse(batch)
      ensures old(Aligned() && InOrder(Rows())) && batch != [] && !raised ==>
        Aligned() && InOrder(Rows()) && Rows() == Window(UpsertAll(old(Rows()), Accepted(batch)), n)
    {
      loaded, raised := false, false;
      ghost var before := Now();
      if Aligned() && InOrder(Rows()) {
        LoadIsReference(before, batch, n);
      }
      if n > 0 {
        FeedKeepsGap(before, WarmupBatch(batch), n);
      }
      hide Upserted, Trimmed, InOrder, RowsOf, Sound, UpsertAll, Accepted, AllParse;
      if batch == [] { return; }
      raised := UpsertBatch(batch);
      if !raised {
        TrimSymbolData(n);
        loaded := times != [];
      }
    }

    /** The loop over a batch, which a raise ends. */
    method UpsertBatch(batch: seq<Entry>) returns (raised: bool)
      requires Sound(Now())
      modifies this
      ensures (Now(), raised) == UpsertedAll(old(Now()), batch)
    {
      hide Upserted, InOrder, RowsOf, Sound;
      ghost var before := Now();
      raised := false;
      for k := 0 to |batch|
        invariant Sound(Now()) && (Now(), false) == UpsertedAll(before, batch[..k])
      {
        assert batch[..k + 1][..k] == batch[..k];
        var (openTime, m) := batch[k];
        if openTime.None? || openTime.value <= 0 { continue; }
        raised := UpsertCandle(m, openTime.value);
        if raised {
          RaiseEndsBatch(before, batch, k + 1);
          return;
        }
      }
      assert batch[..|batch|] == batch;
    }
  }

  /** What a live candle makes of even lists: nothing, the reference step trimmed, or a raise. */
  predicate InStepWith(rows: seq<Row>, e: Entry, n: nat, k: Lists, raised: bool) {
    if !Usable(e) then !raised && k.Even() && RowsOf(k) == rows
    else if !Parses(e.1) then raised
    else
      && !raised && k.Even() && InOrder(RowsOf(k))
      && RowsOf(k) == Window(Upsert(rows, Row(e.0.value, Parsed(e.1))), n)
  }

  lemma StreamIsReference(l: Lists, e: Entry, n: nat)
    requires l.Even() && InOrder(RowsOf(l))
    ensures InStepWith(RowsOf(l), e, n, Streamed(l, e, n).0, Streamed(l, e, n).1)
  {
    if Usable(e) {
      if Parses(e.1) {
        UpsertIsReference(l, e.0.value, e.1);
        var k := Upserted(l, e.0.value, e.1).0;
        EvenTrimmed(k, n);
        WindowKeepsOrder(RowsOf(k), n);
      } else {
        EvenTimes(l);
        RaiseIsLocal(l, e.0.value, e.1);
      }
      hide Upserted, Trimmed, InOrder, RowsOf, Parses;
    }
  }

  lemma LoadIsReference(l: Lists, batch: seq<Entry>, n: nat)
    requires l.Even() && InOrder(RowsOf(l))
    ensures Loaded(l, batch, n).1 <==> !AllParse(batch)
    ensures batch != [] && AllParse(batch) ==>
      var k := Loaded(l, batch, n).0;
      k.Even() && InOrder(RowsOf(k)) && RowsOf(k) == Window(UpsertAll(RowsOf(l), Accepted(batch)), n)
  {
    BatchIsReference(l, batch);
    if AllParse(batch) {
      var k := UpsertedAll(l, batch).0;
      EvenTrimmed(k, n);
      WindowKeepsOrder(RowsOf(k), n);
    }
    hide UpsertedAll, Trimmed, InOrder, RowsOf;
  }

  predicate Usable(entry: Entry) { entry.0.Some? && entry.0.value > 0 }

  /** No entry that gets as far as its numbers has a malformed one. */
  predicate AllParse(batch: seq<Entry>) {
    batch == [] || (AllParse(batch[..|batch| - 1]) && (Usable(batch[|batch| - 1]) ==> Parses(batch[|batch| - 1].1)))
  }

  /** The rows a batch stands for. */
  function Accepted(batch: seq<Entry>): seq<Row> {
    if batch == [] then []
    else
      var init, last := batch[..|batch| - 1], batch[|batch| - 1];
      if Usable(last) then Accepted(init) + [Row(last.0.value, Parsed(last.1))] else Accepted(init)
  }

  lemma {:induction false} RaiseEndsBatch(l: Lists, batch: seq<Entry>, k: nat)
    requires k <= |batch| && UpsertedAll(l, batch[..k]).1
    ensures UpsertedAll(l, batch) == UpsertedAll(l, batch[..k])
    decreases |batch|
  {
    if k == |batch| {
      assert batch[..k] == batch;
    } else {
      assert batch[..|batch| - 1][..k] == batch[..k];
      RaiseEndsBatch(l, batch[..|batch| - 1], k);
    }
  }

  /** At a place, the time is either right there or nowhere. */
  lemma PlaceDecides(times: seq<int>, t: int, i: nat)
    requires Rising(times) && IsPlace(times, t, i)
    ensures t in times <==> i < |times| && times[i] == t
  {
  }

  lemma {:induction false} WindowKeepsOrder(rows: seq<Row>, n: nat)
    requires InOrder(rows)
    ensures InOrder(Window(rows, n))
    decreases |rows|
  {
    if rows != [] && n > 0 {
      var init, last := rows[..|rows| - 1], rows[|rows| - 1];
      assert rows == init + [last];
      WindowOfAppend(init, last, n);
      WindowKeepsOrder(init, n - 1);
      var kept := Window(rows, n);
      assert kept[..|kept| - 1] == Window(init, n - 1);
    }
  }

  /** A warm-up batch leaves what feeding its candles one by one, each trimmed, would have left. */
  lemma {:induction false} WarmupIsLiveFeed(rows: seq<Row>, batch: seq<Row>, n: nat)
    requires |rows| <= n
    ensures Window(UpsertAll(rows, batch), n) == LiveFeed(rows, batch, n)
    decreases |batch|
  {
    if batch != [] {
      var init, last := batch[..|batch| - 1], batch[|batch| - 1];
      WarmupIsLiveFeed(rows, init, n);
      TrimThenUpsert(UpsertAll(rows, init), last, n);
    }
  }

  function LiveFeed(rows: seq<Row>, batch: seq<Row>, n: nat): seq<Row> {
    if batch == [] then rows else Window(Upsert(LiveFeed(rows, batch[..|batch| - 1], n), batch[|batch| - 1]), n)
  }
}
