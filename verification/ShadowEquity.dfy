/** Repair of a shadow sleeve's equity rows.

    The loop walks the rows and the ledger's events with two indices and carries an anchor; the
    reference says, for each row by itself, which earlier row is its anchor and what its balance is. */
module ShadowEquity {
  import opened Wrappers
  import opened Reals

  datatype Position = Position(id: nat, symbol: nat, long: bool, entry: real, qty: real)

  datatype Change = Open(position: Position) | Close(id: nat) | Other

  datatype Event = Event(time: int, change: Change)

  /** Balances as stored; the two pnl columns may be null. Times are ticks, a million to the second. */
  datatype Row = Row(id: nat, time: int, balance: real, unrealized: Option<real>, realized: Option<real>)

  type Lookup = (nat, int) -> Option<real>

  const TOLERANCE: real := 0.000000001

  function OrZero(x: Option<real>): real { if x.Some? then x.value else 0.0 }

  function Pnl(p: Position, price: real): real { (price - p.entry) * p.qty * if p.long then 1.0 else -1.0 }

  // ------------------------------------------------------------------- the positions over time

  /** The dictionary of open positions: an id already there keeps its place. */
  function Put(active: seq<Position>, p: Position): seq<Position> {
    if active == [] then [p]
    else if active[0].id == p.id then [p] + active[1..]
    else [active[0]] + Put(active[1..], p)
  }

  function Pop(active: seq<Position>, id: nat): seq<Position> {
    if active == [] then []
    else if active[0].id == id then Pop(active[1..], id)
    else [active[0]] + Pop(active[1..], id)
  }

  function ApplyEvent(active: seq<Position>, e: Event): seq<Position> {
    match e.change
    case Open(p) => Put(active, p)
    case Close(id) => Pop(active, id)
    case Other => active
  }

  function Replayed(events: seq<Event>): seq<Position> {
    if events == [] then [] else ApplyEvent(Replayed(events[..|events| - 1]), events[|events| - 1])
  }

  /** The first event from i on that is later than t. */
  function Reach(events: seq<Event>, i: nat, t: int): (j: nat)
    requires i <= |events|
    ensures i <= j <= |events|
    decreases |events| - i
  {
    if i < |events| && events[i].time <= t then Reach(events, i + 1, t) else i
  }

  function Max(s: int, t: int): int { if s < t then t else s }

  /** The index never goes back: moving on to another time arrives where starting over with the later of the two
      times would. */
  lemma {:induction false} ReachOn(events: seq<Event>, i: nat, s: int, t: int)
    requires i <= |events|
    ensures Reach(events, Reach(events, i, s), t) == Reach(events, i, Max(s, t))
    decreases |events| - i
  {
    if i < |events| && events[i].time <= s {
      ReachOn(events, i + 1, s, t);
    }
  }

  /** Seconds since the epoch, truncated toward zero. */
  function Seconds(t: int): int { if t >= 0 then t / 1000000 else -((-t) / 1000000) }

  /** Floor division by the timeframe. */
  function Bucket(t: int, interval: int): int
    requires interval != 0
  {
    if interval > 0 then Seconds(t) / interval else (-Seconds(t)) / (-interval)
  }

  // ------------------------------------------------------------------------------- the prices

  /** One price per symbol held, or nothing if any is missing. */
  function PricesFor(ps: seq<Position>, price: Lookup, t: int): Option<map<nat, real>> {
    if ps == [] then Some(map[])
    else
      var before, s := PricesFor(ps[..|ps| - 1], price, t), ps[|ps| - 1].symbol;
      if before.None? then None
      else if s in before.value then before
      else if price(s, t).None? then None
      else Some(before.value[s := price(s, t).value])
  }

  /** A complete price table is the lookup itself, on exactly the symbols held. */
  lemma {:induction false} PricesAreLookups(ps: seq<Position>, price: Lookup, t: int)
    ensures PricesFor(ps, price, t).Some? ==>
      (forall p :: p in ps ==> p.symbol in PricesFor(ps, price, t).value) &&
      (forall s :: s in PricesFor(ps, price, t).value ==> price(s, t) == Some(PricesFor(ps, price, t).value[s]))
    ensures PricesFor(ps, price, t).None? <==> exists p :: p in ps && price(p.symbol, t).None?
    decreases |ps|
  {
    if ps != [] {
      var init, last := ps[..|ps| - 1], ps[|ps| - 1];
      PricesAreLookups(init, price, t);
      assert ps == init + [last];
    }
  }

  function At(prices: map<nat, real>, s: nat): real { if s in prices then prices[s] else 0.0 }

  /** What the prices moved the positions' pnl by. */
  function Moved(ps: seq<Position>, from: map<nat, real>, to: map<nat, real>): real {
    if ps == [] then 0.0
    else
      var p := ps[|ps| - 1];
      Moved(ps[..|ps| - 1], from, to) + (Pnl(p, At(to, p.symbol)) - Pnl(p, At(from, p.symbol)))
  }

  // ---------------------------------------------------------------------- the reference repair

  datatype Input = Input(events: seq<Event>, interval: int, price: Lookup)

  /** The latest time of the first k + 1 rows.  Rows come in the order of a rounded time, so that this need not be
      row k's own time. */
  function Latest(rows: seq<Row>, k: nat): (t: int)
    requires k < |rows|
    ensures forall j :: 0 <= j <= k ==> rows[j].time <= t
    ensures exists j :: 0 <= j <= k && rows[j].time == t
  {
    if k == 0 then rows[0].time else Max(Latest(rows, k - 1), rows[k].time)
  }

  /** The events up to row k, and the positions they leave. */
  function EventsBy(x: Input, rows: seq<Row>, k: nat): (n: nat)
    requires k < |rows|
    ensures n <= |x.events|
  {
    Reach(x.events, 0, Latest(rows, k))
  }

  function HeldAt(x: Input, rows: seq<Row>, k: nat): seq<Position>
    requires k < |rows|
  {
    Replayed(x.events[..EventsBy(x, rows, k)])
  }

  /** Rows that are kept as they are and anchor the following ones. */
  predicate IsAnchor(x: Input, rows: seq<Row>, k: nat)
    requires k < |rows| && x.interval != 0
  {
    || k == 0
    || EventsBy(x, rows, k) != EventsBy(x, rows, k - 1)
    || Bucket(rows[k].time, x.interval) != Bucket(rows[k - 1].time, x.interval)
    || HeldAt(x, rows, k) == []
  }

  function AnchorIndex(x: Input, rows: seq<Row>, k: nat): (a: nat)
    requires k < |rows| && x.interval != 0
    ensures a <= k && IsAnchor(x, rows, a)
  {
    if IsAnchor(x, rows, k) then k else AnchorIndex(x, rows, k - 1)
  }

  /** The price tables at the anchor and at the row. */
  function PricesThen(x: Input, rows: seq<Row>, k: nat): Option<map<nat, real>>
    requires k < |rows| && x.interval != 0
  {
    PricesFor(HeldAt(x, rows, k), x.price, rows[AnchorIndex(x, rows, k)].time)
  }

  function PricesNow(x: Input, rows: seq<Row>, k: nat): Option<map<nat, real>>
    requires k < |rows|
  {
    PricesFor(HeldAt(x, rows, k), x.price, rows[k].time)
  }

  /** A row between anchors whose positions all have both prices. */
  predicate Markable(x: Input, rows: seq<Row>, k: nat)
    requires k < |rows| && x.interval != 0
  {
    !IsAnchor(x, rows, k) && PricesNow(x, rows, k).Some? && PricesThen(x, rows, k).Some?
  }

  /** The anchor's balance plus what prices have moved since. */
  function TrueBalance(x: Input, rows: seq<Row>, k: nat): real
    requires k < |rows| && x.interval != 0 && Markable(x, rows, k)
  {
    rows[AnchorIndex(x, rows, k)].balance +
    Moved(HeldAt(x, rows, k), PricesThen(x, rows, k).value, PricesNow(x, rows, k).value)
  }

  function Capital(row: Row): real { row.balance - OrZero(row.realized) - OrZero(row.unrealized) }

  /** Writes a balance into a row unless it is there already, within the tolerance. */
  function Mark(row: Row, balance: real): Row {
    var unrealized := balance - Capital(row) - OrZero(row.realized);
    if Abs(balance - row.balance) <= TOLERANCE && Abs(unrealized - OrZero(row.unrealized)) <= TOLERANCE then row
    else row.(balance := balance, unrealized := Some(unrealized))
  }

  function RepairedRow(x: Input, rows: seq<Row>, k: nat): Row
    requires k < |rows| && x.interval != 0
  {
    if Markable(x, rows, k) then Mark(rows[k], TrueBalance(x, rows, k)) else rows[k]
  }

  function Repaired(x: Input, rows: seq<Row>): seq<Row>
    requires x.interval != 0
  {
    seq(|rows|, k requires 0 <= k < |rows| => RepairedRow(x, rows, k))
  }

  /** How many of the first k rows change. */
  function Changes(x: Input, rows: seq<Row>, k: nat): nat
    requires k <= |rows| && x.interval != 0
  {
    if k == 0 then 0 else Changes(x, rows, k - 1) + if RepairedRow(x, rows, k - 1) != rows[k - 1] then 1 else 0
  }

  // ------------------------------------------------------------------------------- its results

  /** The second tolerance test never decides anything: both differences are the same number. */
  lemma TolerancesCoincide(row: Row, balance: real)
    ensures balance - Capital(row) - OrZero(row.realized) - OrZero(row.unrealized) == balance - row.balance
    ensures Mark(row, balance) == row <==> Abs(balance - row.balance) <= TOLERANCE
  {
  }

  /** Marking moves balance and unrealised pnl together: the capital behind a row stays. */
  lemma MarkKeepsCapital(row: Row, balance: real)
    ensures Capital(Mark(row, balance)) == Capital(row) && Mark(row, balance).realized == row.realized
    ensures Mark(row, balance).time == row.time && Mark(row, balance).id == row.id
    ensures Mark(Mark(row, balance), balance) == Mark(row, balance)
  {
  }

  /** Positions do not change between a row and its anchor; so the loop's comparison of the anchor's
      positions with the current ones never finds a difference. */
  lemma {:induction false} SamePositionsSinceAnchor(x: Input, rows: seq<Row>, k: nat)
    requires k < |rows| && x.interval != 0
    ensures HeldAt(x, rows, AnchorIndex(x, rows, k)) == HeldAt(x, rows, k)
    decreases k
  {
    hide EventsBy, Replayed, Bucket;
    if !IsAnchor(x, rows, k) {
      SamePositionsSinceAnchor(x, rows, k - 1);
    }
  }

  lemma {:induction false} LatestDependsOnTimes(a: seq<Row>, b: seq<Row>, k: nat)
    requires |a| == |b| && k < |a| && forall i :: 0 <= i < |a| ==> a[i].time == b[i].time
    ensures Latest(a, k) == Latest(b, k) && (k > 0 ==> Latest(a, k - 1) == Latest(b, k - 1))
    decreases k
  {
    if k > 0 {
      LatestDependsOnTimes(a, b, k - 1);
    }
  }

  lemma HeldDependsOnTimes(x: Input, a: seq<Row>, b: seq<Row>, k: nat)
    requires |a| == |b| && k < |a| && forall i :: 0 <= i < |a| ==> a[i].time == b[i].time
    ensures EventsBy(x, a, k) == EventsBy(x, b, k) && HeldAt(x, a, k) == HeldAt(x, b, k)
  {
    LatestDependsOnTimes(a, b, k);
  }

  lemma FirstIsAnchor(x: Input, rows: seq<Row>)
    requires rows != [] && x.interval != 0
    ensures IsAnchor(x, rows, 0)
  {
  }

  lemma AnchorDependsOnTimes(x: Input, a: seq<Row>, b: seq<Row>, k: nat)
    requires |a| == |b| && k < |a| && x.interval != 0 && forall i :: 0 <= i < |a| ==> a[i].time == b[i].time
    ensures IsAnchor(x, a, k) == IsAnchor(x, b, k)
  {
    hide EventsBy, HeldAt, Bucket;
    HeldDependsOnTimes(x, a, b, k);
    if k > 0 {
      HeldDependsOnTimes(x, a, b, k - 1);
    }
  }

  lemma {:induction false} AnchorsDependOnTimes(x: Input, a: seq<Row>, b: seq<Row>, k: nat)
    requires |a| == |b| && k < |a| && x.interval != 0 && forall i :: 0 <= i < |a| ==> a[i].time == b[i].time
    ensures IsAnchor(x, a, k) == IsAnchor(x, b, k) && AnchorIndex(x, a, k) == AnchorIndex(x, b, k)
    decreases k
  {
    hide IsAnchor;
    AnchorDependsOnTimes(x, a, b, k);
    if k > 0 {
      AnchorsDependOnTimes(x, a, b, k - 1);
    } else {
      FirstIsAnchor(x, a);
    }
  }

  /** What repair does to any one row. */
  lemma RowResult(x: Input, rows: seq<Row>, k: nat)
    requires k < |rows| && x.interval != 0
    ensures var r := RepairedRow(x, rows, k);
      && (IsAnchor(x, rows, k) ==> r == rows[k])
      && Capital(r) == Capital(rows[k]) && r.realized == rows[k].realized
      && r.time == rows[k].time && r.id == rows[k].id
      && (r != rows[k] ==> Markable(x, rows, k) && r.balance == TrueBalance(x, rows, k))
      && (Markable(x, rows, k) ==> Abs(r.balance - TrueBalance(x, rows, k)) <= TOLERANCE)
  {
  }

  lemma RepairKeepsTimes(x: Input, rows: seq<Row>)
    requires x.interval != 0
    ensures forall k :: 0 <= k < |rows| ==> Repaired(x, rows)[k].time == rows[k].time
  {
  }

  /** The second repair sees the same anchors and prices, and finds each row already marked. */
  lemma RowRepairedTwice(x: Input, rows: seq<Row>, k: nat)
    requires k < |rows| && x.interval != 0
    ensures RepairedRow(x, Repaired(x, rows), k) == RepairedRow(x, rows, k)
  {
    var once := Repaired(x, rows);
    RepairKeepsTimes(x, rows);
    AnchorsDependOnTimes(x, once, rows, k);
    HeldDependsOnTimes(x, once, rows, k);
    RowResult(x, rows, AnchorIndex(x, rows, k));
    assert once[AnchorIndex(x, rows, k)] == rows[AnchorIndex(x, rows, k)];
    if Markable(x, rows, k) {
      assert TrueBalance(x, once, k) == TrueBalance(x, rows, k);
      MarkKeepsCapital(rows[k], TrueBalance(x, rows, k));
    }
  }

  /** Repairing twice is repairing once. */
  lemma RepairIsIdempotent(x: Input, rows: seq<Row>)
    requires x.interval != 0
    ensures Repaired(x, Repaired(x, rows)) == Repaired(x, rows)
  {
    forall k | 0 <= k < |rows| ensures Repaired(x, Repaired(x, rows))[k] == Repaired(x, rows)[k] {
      RowRepairedTwice(x, rows, k);
    }
  }

  /** So a second run reports no change. */
  lemma {:induction false} SecondRunChangesNothing(x: Input, rows: seq<Row>, k: nat)
    requires k <= |rows| && x.interval != 0
    ensures Changes(x, Repaired(x, rows), k) == 0
    decreases k
  {
    hide RepairedRow;
    if k > 0 {
      SecondRunChangesNothing(x, rows, k - 1);
      RowRepairedTwice(x, rows, k - 1);
    }
  }

  lemma {:induction false} MovesAdd(ps: seq<Position>, a: map<nat, real>, b: map<nat, real>, c: map<nat, real>)
    ensures Moved(ps, a, b) + Moved(ps, b, c) == Moved(ps, a, c)
    decreases |ps|
  {
    if ps != [] {
      hide Pnl;
      MovesAdd(ps[..|ps| - 1], a, b, c);
    }
  }

  /** Between two marked rows of one anchor the true balance moves by the price move alone. */
  lemma SegmentMovesWithPrices(x: Input, rows: seq<Row>, j: nat, k: nat)
    requires j <= k < |rows| && x.interval != 0 && Markable(x, rows, j) && Markable(x, rows, k)
    requires AnchorIndex(x, rows, j) == AnchorIndex(x, rows, k)
    ensures TrueBalance(x, rows, k) - TrueBalance(x, rows, j) ==
      Moved(HeldAt(x, rows, k), PricesNow(x, rows, j).value, PricesNow(x, rows, k).value)
  {
    SamePositionsSinceAnchor(x, rows, j);
    SamePositionsSinceAnchor(x, rows, k);
    MovesAdd(HeldAt(x, rows, k), PricesThen(x, rows, k).value, PricesNow(x, rows, j).value,
             PricesNow(x, rows, k).value);
  }

  // --------------------------------------------------------------------------- the loop in place

  function IdSet(ps: seq<Position>): set<nat> { if ps == [] then {} else IdSet(ps[..|ps| - 1]) + {ps[|ps| - 1].id} }

  predicate AllPriced(ps: seq<Position>, prices: map<nat, real>) {
    forall k :: 0 <= k < |ps| ==> ps[k].symbol in prices
  }

  /** The variables carried from row to row, and what they stand for after row k - 1. */
  datatype Carried = Carried(active: seq<Position>, eventIndex: nat, previousBucket: Option<int>,
                             anchorBalance: Option<real>, anchorPositions: seq<Position>, anchorPrices: map<nat, real>)

  ghost predicate StandsFor(c: Carried, x: Input, rows: seq<Row>, k: nat)
    requires k <= |rows| && x.interval != 0
  {
    if k == 0 then c == Carried([], 0, None, None, [], map[])
    else
      var a, t := AnchorIndex(x, rows, k - 1), rows[k - 1].time;
      && c.eventIndex == EventsBy(x, rows, k - 1) && c.active == HeldAt(x, rows, k - 1)
      && c.previousBucket == Some(Bucket(t, x.interval))
      && c.anchorBalance == Some(rows[a].balance) && c.anchorPositions == c.active
      && c.anchorPrices == OrEmpty(PricesFor(c.active, x.price, rows[a].time))
  }

  function OrEmpty(m: Option<map<nat, real>>): map<nat, real> { if m.Some? then m.value else map[] }

  /** The inner loop: apply the events up to a row's time. */
  method ApplyUpTo(events: seq<Event>, active: seq<Position>, from: nat, t: int)
    returns (active': seq<Position>, index: nat, applied: bool)
    requires from <= |events| && active == Replayed(events[..from])
    ensures index == Reach(events, from, t) && active' == Replayed(events[..index]) && applied == (index != from)
  {
    active', index, applied := active, from, false;
    while index < |events| && events[index].time <= t
      invariant from <= index <= |events| && active' == Replayed(events[..index])
      invariant Reach(events, index, t) == Reach(events, from, t) && applied == (index != from)
    {
      assert events[..index + 1][..index] == events[..index];
      active' := ApplyEvent(active', events[index]);
      index := index + 1;
      applied := true;
    }
  }

  /** One row: what the loop body does with it, given what it carries. */
  method RepairRow(c: Carried, x: Input, row: Row, ghost rows: seq<Row>, ghost k: nat)
    returns (c': Carried, row': Row, missing: bool)
    requires k < |rows| && x.interval != 0 && rows[k] == row && StandsFor(c, x, rows, k)
    ensures StandsFor(c', x, rows, k + 1) && row' == RepairedRow(x, rows, k)
    ensures missing <==> !IsAnchor(x, rows, k) && !Markable(x, rows, k)
  {
    if k > 0 {
      ReachOn(x.events, 0, Latest(rows, k - 1), row.time);
    }
    var active, index, applied := ApplyUpTo(x.events, c.active, c.eventIndex, row.time);
    var bucket := Bucket(row.time, x.interval);
    var reset := c.anchorBalance.None? || applied || Some(bucket) != c.previousBucket;
    row', missing := row, false;
    if reset || active == [] {
      assert IsAnchor(x, rows, k);
      var prices := OrEmpty(PricesFor(active, x.price, row.time));
      c' := Carried(active, index, Some(bucket), Some(row.balance), active, prices);
      return;
    }
    c' := Carried(active, index, Some(bucket), c.anchorBalance, c.anchorPositions, c.anchorPrices);
    SamePositionsSinceAnchor(x, rows, k);
    var current := PricesFor(active, x.price, row.time);
    PricesAreLookups(active, x.price, rows[AnchorIndex(x, rows, k)].time);
    assert active[0] in active;
    if current.None? || IdSet(c.anchorPositions) != IdSet(active) || !AllPriced(active, c.anchorPrices) {
      missing := true;
      return;
    }
    var balance := c.anchorBalance.value + Moved(active, c.anchorPrices, current.value);
    row' := Mark(row, balance);
  }

  /** How many of the first k rows have no complete price table. */
  function Misses(x: Input, rows: seq<Row>, k: nat): nat
    requires k <= |rows| && x.interval != 0
  {
    if k == 0 then 0
    else Misses(x, rows, k - 1) + if !IsAnchor(x, rows, k - 1) && !Markable(x, rows, k - 1) then 1 else 0
  }

  /** The rows after k turns of the loop. */
  function Partly(x: Input, rows: seq<Row>, k: nat): seq<Row>
    requires k <= |rows| && x.interval != 0
  {
    Repaired(x, rows)[..k] + rows[k..]
  }

  lemma PartlyNext(x: Input, rows: seq<Row>, k: nat)
    requires k < |rows| && x.interval != 0
    ensures |Partly(x, rows, k)| == |rows| && Partly(x, rows, k)[k] == rows[k]
    ensures Partly(x, rows, k + 1) == Partly(x, rows, k)[k := RepairedRow(x, rows, k)]
  {
  }

  lemma CountsNext(x: Input, rows: seq<Row>, k: nat)
    requires k < |rows| && x.interval != 0
    ensures Changes(x, rows, k + 1) == Changes(x, rows, k) + if RepairedRow(x, rows, k) != rows[k] then 1 else 0
    ensures Misses(x, rows, k + 1) ==
      Misses(x, rows, k) + if !IsAnchor(x, rows, k) && !Markable(x, rows, k) then 1 else 0
  {
  }

  const START: Carried := Carried([], 0, None, None, [], map[])

  lemma LoopEnds(x: Input, rows: seq<Row>)
    requires x.interval != 0
    ensures StandsFor(START, x, rows, 0) && Changes(x, rows, 0) == 0 == Misses(x, rows, 0)
    ensures Partly(x, rows, 0) == rows && Partly(x, rows, |rows|) == Repaired(x, rows)
  {
  }

  /** The whole alpha: the rows become their repaired form, and the counts are right. */
  method RepairShadowEquity(x: Input, rows: array<Row>) returns (changed: nat, missing: nat)
    requires x.interval != 0
    modifies rows
    ensures rows[..] == Repaired(x, old(rows[..]))
    ensures changed == Changes(x, old(rows[..]), rows.Length) && missing == Misses(x, old(rows[..]), rows.Length)
  {
    hide StandsFor, RepairedRow, Repaired, IsAnchor, Markable, Partly, Changes, Misses;
    ghost var was := rows[..];
    changed, missing := 0, 0;
    var c := START;
    LoopEnds(x, was);
    for k := 0 to rows.Length
      invariant StandsFor(c, x, was, k) && changed == Changes(x, was, k) && missing == Misses(x, was, k)
      invariant rows[..] == Partly(x, was, k)
    {
      PartlyNext(x, was, k);
      CountsNext(x, was, k);
      assert rows[k] == rows[..][k];
      var c', row', unpriced := RepairRow(c, x, rows[k], was, k);
      c := c';
      if unpriced {
        missing := missing + 1;
      }
      if row' != rows[k] {
        changed := changed + 1;
      }
      rows[k] := row';
    }
  }
}
