/** The portfolio manager's reconciliation against the worker: from a snapshot of the book and a
    target to CLOSE and OPEN signals, and what the worker makes of them. */
module PmReconcile {
  import opened Wrappers
  import opened Reals
  import opened WorkerLedger
  import opened WorkerConservation

  const WEIGHT_TOLERANCE: real := 0.000000001

  // ----------------------------------------------------------------------------- the snapshot

  /** Metadata in a snapshot entry: JSON text, or an embedded object, which the reader's text parse rejects. */
  datatype Metadata = AsText(weight: Option<real>) | AsObject(weight: Option<real>)

  datatype Snap = Snap(symbol: Key, positionId: Key, side: Side, weight: Option<real>, metadata: Metadata)

  function PositionWeight(s: Snap): Option<real> {
    if s.weight.Some? then s.weight
    else if s.metadata.AsText? then s.metadata.weight
    else None
  }

  /** A worker row in a snapshot; `asText` tells which of the two shapes its metadata takes. */
  function SnapOf(p: Position, asText: bool): Snap {
    Snap(p.symbol, p.positionId, p.side, None, if asText then AsText(p.weight) else AsObject(p.weight))
  }

  /** One alpha's open positions, in row order. */
  function AlphaRows(ps: seq<Position>, alpha: Key): seq<Position> {
    if ps == [] then []
    else
      var init, last := AlphaRows(ps[..|ps| - 1], alpha), ps[|ps| - 1];
      if last.alphaId == alpha then init + [last] else init
  }

  function Snaps(rows: seq<Position>, asText: bool): seq<Snap> {
    if rows == [] then [] else Snaps(rows[..|rows| - 1], asText) + [SnapOf(rows[|rows| - 1], asText)]
  }

  /** A dictionary by symbol: a repeated symbol keeps its place and takes the later entry. */
  function Put(d: seq<Snap>, s: Snap): seq<Snap> {
    if d == [] then [s]
    else if d[0].symbol == s.symbol then [s] + d[1..]
    else [d[0]] + Put(d[1..], s)
  }

  function BySymbol(snaps: seq<Snap>): seq<Snap> {
    if snaps == [] then []
    else
      var init, last := BySymbol(snaps[..|snaps| - 1]), snaps[|snaps| - 1];
      if last.symbol == "" then init else Put(init, last)
  }

  // ------------------------------------------------------------------------------- the target

  datatype Target = Target(symbol: Key, weight: real)

  function WeightIn(targets: seq<Target>, symbol: Key): real {
    if targets == [] then 0.0
    else if targets[|targets| - 1].symbol == symbol then targets[|targets| - 1].weight
    else WeightIn(targets[..|targets| - 1], symbol)
  }

  predicate Names(targets: seq<Target>, symbol: Key) {
    targets != [] && (targets[|targets| - 1].symbol == symbol || Names(targets[..|targets| - 1], symbol))
  }

  /** A dictionary with usable symbols. */
  predicate ProperTargets(targets: seq<Target>) {
    targets == [] ||
    (ProperTargets(targets[..|targets| - 1]) && targets[|targets| - 1].symbol != "" &&
     !Names(targets[..|targets| - 1], targets[|targets| - 1].symbol))
  }

  function SideFor(weight: real): Side { if weight > 0.0 then Long else Short }

  /** Whether a position stands on the side its weight in the target asks for. */
  predicate OnSide(side: Side, weight: real) { weight != 0.0 && side == SideFor(weight) }

  predicate Resized(current: Option<real>, weight: real) {
    current.Some? && Abs(current.value - weight) > WEIGHT_TOLERANCE
  }

  predicate NeedsClose(s: Snap, targets: seq<Target>) {
    var weight := WeightIn(targets, s.symbol);
    !OnSide(s.side, weight) || Resized(PositionWeight(s), weight)
  }

  // ------------------------------------------------------------------------------ the signals

  datatype Msg =
    | CloseMsg(symbol: Key, positionId: Key)
    | OpenMsg(symbol: Key, side: Side, entry: real, qty: real, positionId: Key, weight: real)

  /** The service's settings; `ids` hands each symbol the random id it would get in this cycle. */
  datatype Cycle = Cycle(targets: seq<Target>, prices: map<Key, real>, capital: real, ids: map<Key, Key>)

  function PriceOf(c: Cycle, symbol: Key): real { if symbol in c.prices then c.prices[symbol] else 0.0 }

  function IdFor(c: Cycle, symbol: Key): Key { if symbol in c.ids then c.ids[symbol] else symbol }

  function Closes(d: seq<Snap>, targets: seq<Target>): seq<Msg> {
    if d == [] then []
    else
      var init, last := Closes(d[..|d| - 1], targets), d[|d| - 1];
      if NeedsClose(last, targets) then init + [CloseMsg(last.symbol, last.positionId)] else init
  }

  /** The symbols the first loop closes. */
  predicate ClosedIn(d: seq<Snap>, targets: seq<Target>, symbol: Key) {
    d != [] &&
    ((d[|d| - 1].symbol == symbol && NeedsClose(d[|d| - 1], targets)) || ClosedIn(d[..|d| - 1], targets, symbol))
  }

  predicate Holding(d: seq<Snap>, symbol: Key, side: Side) {
    d != [] && ((d[|d| - 1].symbol == symbol && d[|d| - 1].side == side) || Holding(d[..|d| - 1], symbol, side))
  }

  /** A position of this symbol stays, on its target side. */
  predicate Unchanged(d: seq<Snap>, targets: seq<Target>, t: Target) {
    Holding(d, t.symbol, SideFor(t.weight)) && !ClosedIn(d, targets, t.symbol)
  }

  predicate Opening(d: seq<Snap>, c: Cycle, t: Target) {
    t.weight != 0.0 && !Unchanged(d, c.targets, t) && PriceOf(c, t.symbol) > 0.0
  }

  function OpenFrom(c: Cycle, t: Target): Msg
    requires PriceOf(c, t.symbol) > 0.0
  {
    OpenMsg(t.symbol, SideFor(t.weight), PriceOf(c, t.symbol), c.capital * Abs(t.weight) / PriceOf(c, t.symbol),
            IdFor(c, t.symbol), t.weight)
  }

  function OpensOf(d: seq<Snap>, c: Cycle, targets: seq<Target>): seq<Msg> {
    if targets == [] then []
    else
      var init, last := OpensOf(d, c, targets[..|targets| - 1]), targets[|targets| - 1];
      if Opening(d, c, last) then init + [OpenFrom(c, last)] else init
  }

  /** What one cycle publishes, in order. */
  function Published(snaps: seq<Snap>, c: Cycle): seq<Msg> {
    Closes(BySymbol(snaps), c.targets) + OpensOf(BySymbol(snaps), c, c.targets)
  }

  method ReconcileAndPublish(snaps: seq<Snap>, c: Cycle) returns (msgs: seq<Msg>, published: nat)
    ensures msgs == Published(snaps, c) && published == |msgs|
  {
    var d: seq<Snap> := [];
    for k := 0 to |snaps|
      invariant d == BySymbol(snaps[..k])
    {
      assert snaps[..k + 1][..k] == snaps[..k];
      if snaps[k].symbol != "" {
        d := Put(d, snaps[k]);
      }
    }
    assert snaps[..|snaps|] == snaps;
    msgs, published := [], 0;
    var closed: set<Key> := {};
    for k := 0 to |d|
      invariant msgs == Closes(d[..k], c.targets) && published == |msgs|
      invariant forall s :: s in closed <==> ClosedIn(d[..k], c.targets, s)
    {
      assert d[..k + 1][..k] == d[..k];
      if NeedsClose(d[k], c.targets) {
        msgs := msgs + [CloseMsg(d[k].symbol, d[k].positionId)];
        published := published + 1;
        closed := closed + {d[k].symbol};
      }
    }
    assert d[..|d|] == d;
    ghost var closing := msgs;
    for k := 0 to |c.targets|
      invariant msgs == closing + OpensOf(d, c, c.targets[..k]) && published == |msgs|
    {
      assert c.targets[..k + 1][..k] == c.targets[..k];
      var t := c.targets[k];
      if t.weight == 0.0 { continue; }
      if Holding(d, t.symbol, SideFor(t.weight)) && t.symbol !in closed { continue; }
      if PriceOf(c, t.symbol) <= 0.0 { continue; }
      msgs := msgs + [OpenFrom(c, t)];
      published := published + 1;
    }
    assert c.targets[..|c.targets|] == c.targets;
  }

  /** The published snapshots carry the metadata as an object: no weight is ever read from them. */
  lemma PublishedWeightIsUnreadable(p: Position)
    ensures PositionWeight(SnapOf(p, false)) == None && PositionWeight(SnapOf(p, true)) == p.weight
  {
  }

  // ----------------------------------------------------------------------- the worker's side

  /** How the worker receives the signals: the alpha, the fills it resolves, and the fields that are
      the same on every signal of a cycle. */
  datatype Desk = Desk(alpha: Key, closeFills: map<Key, real>, openFills: map<Key, real>, now: int, feePct: real,
                       sessionExchange: bool, settings: Settings)

  function Fill(fills: map<Key, real>, symbol: Key): Option<real> {
    if symbol in fills then Some(fills[symbol]) else None
  }

  function OpenSignalOf(m: Msg, d: Desk): OpenSignal
    requires m.OpenMsg?
  {
    OpenSignal(d.alpha, "", m.symbol, m.side, m.entry, m.qty, None, None, d.now, m.positionId, d.sessionExchange,
               d.feePct, Some(m.weight), false)
  }

  function Apply(t: Tables, m: Msg, d: Desk): Result<Tables, Error> {
    if m.CloseMsg? then
      CloseBySignal(t, CloseSignal(m.positionId, None, None, "PM_RECONCILE", d.now, false),
                    Fill(d.closeFills, m.symbol), "", d.settings)
    else Open(t, OpenSignalOf(m, d), Fill(d.openFills, m.symbol), "", d.settings)
  }

  /** All the signals in order; an error if the worker refuses any of them. */
  function ApplyAll(t: Tables, ms: seq<Msg>, d: Desk): Result<Tables, Error> {
    if ms == [] then Ok(t)
    else
      var before := ApplyAll(t, ms[..|ms| - 1], d);
      if before.Ok? then Apply(before.value, ms[|ms| - 1], d) else before
  }

  lemma {:induction false} ApplyConcat(t: Tables, a: seq<Msg>, b: seq<Msg>, d: Desk)
    requires ApplyAll(t, a, d).Ok?
    ensures ApplyAll(t, a + b, d) == ApplyAll(ApplyAll(t, a, d).value, b, d)
    decreases |b|
  {
    hide Apply;
    if b == [] {
      assert a + b == a;
    } else {
      assert (a + b)[..|a + b| - 1] == a + b[..|b| - 1];
      ApplyConcat(t, a, b[..|b| - 1], d);
    }
  }

  lemma {:induction false} ApplyStaysRefused(t: Tables, a: seq<Msg>, b: seq<Msg>, d: Desk)
    requires ApplyAll(t, a, d).Err?
    ensures ApplyAll(t, a + b, d).Err?
    decreases |b|
  {
    hide Apply;
    if b == [] {
      assert a + b == a;
    } else {
      assert (a + b)[..|a + b| - 1] == a + b[..|b| - 1];
      ApplyStaysRefused(t, a, b[..|b| - 1], d);
    }
  }

  lemma ApplyOneMore(t: Tables, ms: seq<Msg>, m: Msg, d: Desk)
    requires ApplyAll(t, ms, d).Ok?
    ensures ApplyAll(t, ms + [m], d) == Apply(ApplyAll(t, ms, d).value, m, d)
  {
  }

  /** A book the manager can work with: keys are unique, and this alpha has at most one position per symbol, each
      with a symbol.  Other alphas may hold what they like. */
  ghost predicate Ready(t: Tables, alpha: Key) {
    && UniqueIds(t.positions) && OnePerSymbol(t.positions, alpha)
    && (forall p :: p in t.positions && p.alphaId == alpha ==> p.symbol != "")
  }

  /** A position has a quantity, and no closing trade yet. */
  predicate Closable(t: Tables, p: Position) { p.qty > 0.0 && !TradeIdTaken(t.trades, p.positionId) }

  ghost predicate AllClosable(t: Tables, alpha: Key) {
    forall p :: p in t.positions && p.alphaId == alpha ==> Closable(t, p)
  }

  /** The random ids of a cycle: new to the tables, and different for different symbols. */
  ghost predicate FreshIds(t: Tables, c: Cycle) {
    && (forall s :: Names(c.targets, s) ==>
      IdFor(c, s) != "" && !Has(t.positions, IdFor(c, s)) && !TradeIdTaken(t.trades, IdFor(c, s)))
    && (forall r, s :: Names(c.targets, r) && Names(c.targets, s) && r != s ==> IdFor(c, r) != IdFor(c, s))
  }

  // -------------------------------------------------------------- the snapshot is a dictionary

  lemma {:induction false} InAlphaRows(ps: seq<Position>, alpha: Key, p: Position)
    ensures p in AlphaRows(ps, alpha) <==> p in ps && p.alphaId == alpha
    decreases |ps|
  {
    if ps != [] {
      InAlphaRows(ps[..|ps| - 1], alpha, p);
      assert p in ps <==> p in ps[..|ps| - 1] || p == ps[|ps| - 1];
    }
  }

  /** Rows with different ids and different symbols. */
  ghost predicate Apart(rows: seq<Position>) {
    rows == [] || (Apart(rows[..|rows| - 1]) && Beside(rows[..|rows| - 1], rows[|rows| - 1]))
  }

  ghost predicate Beside(rows: seq<Position>, p: Position) {
    forall r :: r in rows ==> r.positionId != p.positionId && r.symbol != p.symbol
  }

  lemma {:induction false} AlphaRowsApart(ps: seq<Position>, alpha: Key)
    requires UniqueIds(ps) && OnePerSymbol(ps, alpha)
    ensures Apart(AlphaRows(ps, alpha))
    decreases |ps|
  {
    if ps != [] {
      var init, last := ps[..|ps| - 1], ps[|ps| - 1];
      AlphaRowsApart(init, alpha);
      var rows := AlphaRows(init, alpha);
      assert (rows + [last])[..|rows|] == rows;
      if last.alphaId == alpha {
        forall r | r in rows ensures r.positionId != last.positionId && r.symbol != last.symbol {
          InAlphaRows(init, alpha, r);
          var k :| 0 <= k < |init| && init[k] == r;
          assert ps[k] == r;
        }
      }
    }
  }

  lemma {:induction false} PutNew(d: seq<Snap>, s: Snap)
    requires forall x :: x in d ==> x.symbol != s.symbol
    ensures Put(d, s) == d + [s]
    decreases |d|
  {
    if d != [] {
      PutNew(d[1..], s);
    }
  }

  lemma {:induction false} SnapsNameRows(rows: seq<Position>, asText: bool, symbol: Key)
    requires forall r :: r in rows ==> r.symbol != symbol
    ensures forall x :: x in Snaps(rows, asText) ==> x.symbol != symbol
    decreases |rows|
  {
    if rows != [] {
      assert rows[|rows| - 1] in rows;
      SnapsNameRows(rows[..|rows| - 1], asText, symbol);
    }
  }

  lemma {:induction false} BySymbolOfSnaps(rows: seq<Position>, asText: bool)
    requires Apart(rows) && forall r :: r in rows ==> r.symbol != ""
    ensures BySymbol(Snaps(rows, asText)) == Snaps(rows, asText)
    decreases |rows|
  {
    if rows != [] {
      var init, last := rows[..|rows| - 1], rows[|rows| - 1];
      assert last in rows;
      BySymbolOfSnaps(init, asText);
      SnapsNameRows(init, asText, last.symbol);
      PutNew(Snaps(init, asText), SnapOf(last, asText));
      var before := Snaps(init, asText);
      assert (before + [SnapOf(last, asText)])[..|before|] == before;
    }
  }

  // ----------------------------------------------------------------------- the closing phase

  /** Whether this row is to be closed, seen through a snapshot of the given shape. */
  predicate Leaves(p: Position, targets: seq<Target>, asText: bool) { NeedsClose(SnapOf(p, asText), targets) }

  function Keeping(ps: seq<Position>, gone: set<Key>): seq<Position> {
    if ps == [] then []
    else
      var init, last := Keeping(ps[..|ps| - 1], gone), ps[|ps| - 1];
      if last.positionId in gone then init else init + [last]
  }

  lemma {:induction false} InKeeping(ps: seq<Position>, gone: set<Key>, p: Position)
    ensures p in Keeping(ps, gone) <==> p in ps && p.positionId !in gone
    decreases |ps|
  {
    if ps != [] {
      InKeeping(ps[..|ps| - 1], gone, p);
      assert p in ps <==> p in ps[..|ps| - 1] || p == ps[|ps| - 1];
    }
  }

  lemma {:induction false} KeepingTwice(ps: seq<Position>, a: set<Key>, b: set<Key>)
    ensures Keeping(Keeping(ps, a), b) == Keeping(ps, a + b)
    decreases |ps|
  {
    if ps != [] {
      KeepingTwice(ps[..|ps| - 1], a, b);
      var init := Keeping(ps[..|ps| - 1], a);
      assert (init + [ps[|ps| - 1]])[..|init|] == init;
    }
  }

  lemma {:induction false} KeepingAll(ps: seq<Position>, gone: set<Key>)
    requires forall p :: p in ps ==> p.positionId !in gone
    ensures Keeping(ps, gone) == ps
    decreases |ps|
  {
    if ps != [] {
      assert ps[|ps| - 1] in ps;
      KeepingAll(ps[..|ps| - 1], gone);
    }
  }

  /** Deleting the row of an id is keeping all the others. */
  lemma {:induction false} DeleteIsKeeping(ps: seq<Position>, id: Key)
    requires UniqueIds(ps) && Has(ps, id)
    ensures WorkerLedger.Without(ps, RowOf(ps, id)) == Keeping(ps, {id})
    decreases |ps|
  {
    var init, last := ps[..|ps| - 1], ps[|ps| - 1];
    if last.positionId == id {
      RowIsUnique(ps, |ps| - 1);
      forall p | p in init ensures p.positionId !in {id} {
        var k :| 0 <= k < |init| && init[k] == p;
        assert ps[k].positionId != ps[|ps| - 1].positionId;
      }
      KeepingAll(init, {id});
    } else {
      DeleteIsKeeping(init, id);
    }
  }

  lemma {:induction false} KeepingUnique(ps: seq<Position>, gone: set<Key>, alpha: Key)
    requires UniqueIds(ps) && OnePerSymbol(ps, alpha)
    ensures UniqueIds(Keeping(ps, gone)) && OnePerSymbol(Keeping(ps, gone), alpha)
    decreases |ps|
  {
    if ps != [] {
      var init, last := ps[..|ps| - 1], ps[|ps| - 1];
      KeepingUnique(init, gone, alpha);
      var kept := Keeping(init, gone);
      forall r | r in kept
        ensures r.positionId != last.positionId
        ensures r.alphaId == last.alphaId == alpha ==> r.symbol != last.symbol
      {
        InKeeping(init, gone, r);
        var k :| 0 <= k < |init| && init[k] == r;
        assert ps[k] == r;
      }
      AppendUnique(kept, last, alpha);
    }
  }

  lemma AppendUnique(ps: seq<Position>, p: Position, alpha: Key)
    requires UniqueIds(ps) && OnePerSymbol(ps, alpha)
    requires forall r :: r in ps ==>
      r.positionId != p.positionId && (r.alphaId == p.alphaId == alpha ==> r.symbol != p.symbol)
    ensures UniqueIds(ps + [p]) && OnePerSymbol(ps + [p], alpha)
  {
  }

  lemma InHas(ps: seq<Position>, p: Position)
    requires UniqueIds(ps) && p in ps
    ensures Has(ps, p.positionId) && ps[RowOf(ps, p.positionId)] == p
  {
  }

  /** Closing one row in full: it goes, and its id becomes a trade id; or the worker refuses. */
  lemma CloseOne(t: Tables, p: Position, d: Desk)
    requires UniqueIds(t.positions) && p in t.positions
    ensures var done := Apply(t, CloseMsg(p.symbol, p.positionId), d);
      && (done.Ok? <==> Closable(t, p))
      && (done.Ok? ==> done.value.positions == Keeping(t.positions, {p.positionId}))
      && (done.Ok? ==>
            forall id :: TradeIdTaken(done.value.trades, id) <==> TradeIdTaken(t.trades, id) || id == p.positionId)
  {
    hide LegPnl, FixedPctFill;
    InHas(t.positions, p);
    DeleteIsKeeping(t.positions, p.positionId);
    if Closable(t, p) {
      var done := Apply(t, CloseMsg(p.symbol, p.positionId), d).value;
      forall id ensures TradeIdTaken(done.trades, id) <==> TradeIdTaken(t.trades, id) || id == p.positionId {
        LegQtyOfAppend(t.trades, done.trades[|done.trades| - 1], id);
      }
    }
  }

  /** The ids of the rows that leave. */
  function Leaving(rows: seq<Position>, targets: seq<Target>, asText: bool): set<Key> {
    if rows == [] then {}
    else
      var init, last := Leaving(rows[..|rows| - 1], targets, asText), rows[|rows| - 1];
      if Leaves(last, targets, asText) then init + {last.positionId} else init
  }

  lemma {:induction false} InLeaving(rows: seq<Position>, targets: seq<Target>, asText: bool, id: Key)
    ensures id in Leaving(rows, targets, asText) <==>
      exists p :: p in rows && p.positionId == id && Leaves(p, targets, asText)
    decreases |rows|
  {
    if rows != [] {
      var init, last := rows[..|rows| - 1], rows[|rows| - 1];
      InLeaving(init, targets, asText, id);
      assert last in rows;
      forall p | p in rows ensures p in init || p == last {}
    }
  }

  ghost predicate ClosedDown(t: Tables, u: Tables, gone: set<Key>) {
    && u.positions == Keeping(t.positions, gone)
    && (forall id :: TradeIdTaken(u.trades, id) <==> TradeIdTaken(t.trades, id) || id in gone)
  }

  /** Every row of these that leaves can be closed. */
  ghost predicate LeaversClosable(t: Tables, rows: seq<Position>, targets: seq<Target>, asText: bool) {
    forall p :: p in rows && Leaves(p, targets, asText) ==> Closable(t, p)
  }

  lemma LeaversOfMore(t: Tables, init: seq<Position>, p: Position, targets: seq<Target>, asText: bool)
    ensures LeaversClosable(t, init + [p], targets, asText) <==>
      LeaversClosable(t, init, targets, asText) && (Leaves(p, targets, asText) ==> Closable(t, p))
  {
    hide Leaves;
    assert p in init + [p] && forall q :: q in init + [p] <==> q in init || q == p;
  }

  /** The closes go through exactly if every leaving row can be closed, and then exactly those rows go. */
  lemma {:induction false} ClosePhase(t: Tables, rows: seq<Position>, targets: seq<Target>, asText: bool, d: Desk)
    requires Ready(t, d.alpha) && Apart(rows) && forall p :: p in rows ==> p in t.positions && p.alphaId == d.alpha
    ensures var done := ApplyAll(t, Closes(Snaps(rows, asText), targets), d);
      && (done.Ok? <==> LeaversClosable(t, rows, targets, asText))
      && (done.Ok? ==> ClosedDown(t, done.value, Leaving(rows, targets, asText)))
    decreases |rows|
  {
    if rows == [] {
      KeepingAll(t.positions, {});
    } else {
      hide Apply, NeedsClose, Ready, ClosedDown, LeaversClosable, Closable;
      var init, last := rows[..|rows| - 1], rows[|rows| - 1];
      assert last in rows && rows == init + [last];
      ClosePhase(t, init, targets, asText, d);
      LeaversOfMore(t, init, last, targets, asText);
      var before := Snaps(init, asText);
      assert (before + [SnapOf(last, asText)])[..|before|] == before;
      if Leaves(last, targets, asText) && LeaversClosable(t, init, targets, asText) {
        ApplyOneMore(t, Closes(before, targets), CloseMsg(last.symbol, last.positionId), d);
        CloseNext(t, ApplyAll(t, Closes(before, targets), d).value, init, last, targets, asText, d);
      }
    }
  }

  lemma CloseNext(t: Tables, mid: Tables, init: seq<Position>, p: Position, targets: seq<Target>, asText: bool, d: Desk)
    requires Ready(t, d.alpha) && p in t.positions && p.alphaId == d.alpha && Beside(init, p)
    requires ClosedDown(t, mid, Leaving(init, targets, asText))
    ensures var done := Apply(mid, CloseMsg(p.symbol, p.positionId), d);
      && (done.Ok? <==> Closable(t, p))
      && (done.Ok? ==> ClosedDown(t, done.value, Leaving(init, targets, asText) + {p.positionId}))
  {
    hide Apply, NeedsClose;
    var gone := Leaving(init, targets, asText);
    InLeaving(init, targets, asText, p.positionId);
    InKeeping(t.positions, gone, p);
    KeepingUnique(t.positions, gone, d.alpha);
    CloseOne(mid, p, d);
    KeepingTwice(t.positions, gone, {p.positionId});
  }

  // ----------------------------------------------------------------------- the opening phase

  function NewRow(c: Cycle, d: Desk, t: Target): Position
    requires PriceOf(c, t.symbol) > 0.0
  {
    var m := OpenFrom(c, t);
    NewPosition(OpenSignalOf(m, d), m.positionId,
                FillOr(Fill(d.openFills, m.symbol), FixedPctFill(m.entry, m.side, d.settings.slippage, false)))
  }

  function NewRows(snaps: seq<Snap>, c: Cycle, d: Desk, targets: seq<Target>): seq<Position> {
    if targets == [] then []
    else
      var init, last := NewRows(snaps, c, d, targets[..|targets| - 1]), targets[|targets| - 1];
      if Opening(snaps, c, last) then init + [NewRow(c, d, last)] else init
  }

  lemma {:induction false} TargetIsNamed(targets: seq<Target>, t: Target)
    requires t in targets
    ensures Names(targets, t.symbol)
    decreases |targets|
  {
    if t != targets[|targets| - 1] {
      TargetIsNamed(targets[..|targets| - 1], t);
    }
  }

  lemma {:induction false} NamedIsTarget(targets: seq<Target>, symbol: Key)
    ensures Names(targets, symbol) <==> exists t :: t in targets && t.symbol == symbol
    decreases |targets|
  {
    if targets != [] {
      var init, last := targets[..|targets| - 1], targets[|targets| - 1];
      NamedIsTarget(init, symbol);
      assert last in targets;
      forall t | t in targets ensures t in init || t == last {}
    }
  }

  lemma {:induction false} WeightOfTarget(targets: seq<Target>, t: Target)
    requires ProperTargets(targets) && t in targets
    ensures WeightIn(targets, t.symbol) == t.weight && t.symbol != ""
    decreases |targets|
  {
    if t != targets[|targets| - 1] {
      WeightOfTarget(targets[..|targets| - 1], t);
      TargetIsNamed(targets[..|targets| - 1], t);
    }
  }

  /** A position that the cycle opened: its side, its weight and its quantity are the target's. */
  predicate Fits(p: Position, c: Cycle, d: Desk) {
    && p.alphaId == d.alpha && PriceOf(c, p.symbol) > 0.0
    && OnSide(p.side, WeightIn(c.targets, p.symbol))
    && p.weight == Some(WeightIn(c.targets, p.symbol))
    && p.qty == c.capital * Abs(WeightIn(c.targets, p.symbol)) / PriceOf(c, p.symbol)
  }

  ghost predicate AllFit(rows: seq<Position>, c: Cycle, d: Desk, targets: seq<Target>) {
    forall p :: p in rows ==> Fits(p, c, d) && Names(targets, p.symbol) && p.positionId == IdFor(c, p.symbol)
  }

  lemma {:induction false} NewRowsFit(snaps: seq<Snap>, c: Cycle, d: Desk, targets: seq<Target>)
    requires ProperTargets(c.targets) && forall t :: t in targets ==> t in c.targets
    ensures AllFit(NewRows(snaps, c, d, targets), c, d, targets)
    decreases |targets|
  {
    if targets != [] {
      var init, last := targets[..|targets| - 1], targets[|targets| - 1];
      assert last in targets;
      NewRowsFit(snaps, c, d, init);
      WeightOfTarget(c.targets, last);
      hide Opening, WeightIn, ProperTargets;
    }
  }

  /** Slots that opening needs are empty. */
  ghost predicate SlotsFree(ps: seq<Position>, snaps: seq<Snap>, c: Cycle, alpha: Key) {
    forall t :: t in c.targets && Opening(snaps, c, t) ==>
      forall p :: p in ps ==> p.alphaId != alpha || p.symbol != t.symbol
  }

  ghost predicate OpenedUp(t: Tables, u: Tables, added: seq<Position>, alpha: Key) {
    u == Tables(t.positions + added, t.trades) && UniqueIds(u.positions) && OnePerSymbol(u.positions, alpha)
  }

  lemma {:induction false} OpenPhase(t: Tables, snaps: seq<Snap>, c: Cycle, d: Desk, targets: seq<Target>)
    requires UniqueIds(t.positions) && OnePerSymbol(t.positions, d.alpha) && FreshIds(t, c)
    requires SlotsFree(t.positions, snaps, c, d.alpha)
    requires ProperTargets(c.targets) && ProperTargets(targets) && forall x :: x in targets ==> x in c.targets
    ensures var done := ApplyAll(t, OpensOf(snaps, c, targets), d);
      done.Ok? && OpenedUp(t, done.value, NewRows(snaps, c, d, targets), d.alpha)
    decreases |targets|
  {
    if targets == [] {
      assert t.positions + NewRows(snaps, c, d, []) == t.positions;
    } else {
      hide Apply, Opening, OpenedUp, FreshIds, SlotsFree, NewRow, UniqueIds, OnePerSymbol;
      var init, last := targets[..|targets| - 1], targets[|targets| - 1];
      assert last in targets;
      OpenPhase(t, snaps, c, d, init);
      NewRowsFit(snaps, c, d, init);
      if Opening(snaps, c, last) {
        OpenNext(t, ApplyAll(t, OpensOf(snaps, c, init), d).value, snaps, c, d, init, last);
        ApplyOneMore(t, OpensOf(snaps, c, init), OpenFrom(c, last), d);
      }
    }
  }

  lemma OpenNext(t: Tables, mid: Tables, snaps: seq<Snap>, c: Cycle, d: Desk, init: seq<Target>, tgt: Target)
    requires FreshIds(t, c) && SlotsFree(t.positions, snaps, c, d.alpha) && tgt in c.targets && Opening(snaps, c, tgt)
    requires AllFit(NewRows(snaps, c, d, init), c, d, init) && !Names(init, tgt.symbol)
    requires forall x :: x in init ==> x in c.targets
    requires OpenedUp(t, mid, NewRows(snaps, c, d, init), d.alpha)
    ensures PriceOf(c, tgt.symbol) > 0.0
    ensures var done := Apply(mid, OpenFrom(c, tgt), d);
      done.Ok? && OpenedUp(t, done.value, NewRows(snaps, c, d, init) + [NewRow(c, d, tgt)], d.alpha)
  {
    hide FixedPctFill, Fits, NeedsClose, Unchanged, NewRows;
    var added, row := NewRows(snaps, c, d, init), NewRow(c, d, tgt);
    TargetIsNamed(c.targets, tgt);
    forall r | r in mid.positions
      ensures r.positionId != row.positionId && (r.alphaId != row.alphaId || r.symbol != row.symbol)
    {
      if r in added {
        NamedInBoth(init, c.targets, r.symbol);
      } else {
        var k :| 0 <= k < |t.positions| && t.positions[k] == r;
        NoRow(t.positions, row.positionId, k);
      }
    }
    NotThere(mid.positions, row.positionId);
    AppendUnique(mid.positions, row, d.alpha);
    assert t.positions + (added + [row]) == t.positions + added + [row];
  }

  lemma NamedInBoth(a: seq<Target>, b: seq<Target>, symbol: Key)
    requires Names(a, symbol) && forall x :: x in a ==> x in b
    ensures Names(b, symbol)
  {
    NamedIsTarget(a, symbol);
    NamedIsTarget(b, symbol);
  }

  lemma NotThere(ps: seq<Position>, id: Key)
    requires forall r :: r in ps ==> r.positionId != id
    ensures !Has(ps, id)
  {
  }

  // ------------------------------------------------------------------------- one whole cycle

  /** What a cycle leaves of a book t: other alphas as they were; of this alpha only target symbols on target
      sides, each either a row that was not to be closed or one opened at the target's weight and quantity;
      and a position for every target that has a price. */
  ghost predicate Reconciled(t: Tables, u: Tables, c: Cycle, d: Desk, asText: bool) {
    && (forall p: Position :: p.alphaId != d.alpha ==> (p in u.positions <==> p in t.positions))
    && (forall p :: p in u.positions && p.alphaId == d.alpha ==>
      OnSide(p.side, WeightIn(c.targets, p.symbol)) &&
      ((p in t.positions && !Leaves(p, c.targets, asText)) || Fits(p, c, d)))
    && (forall p :: p in t.positions && p.alphaId == d.alpha && !Leaves(p, c.targets, asText) ==> p in u.positions)
    && (forall x :: x in c.targets && x.weight != 0.0 && PriceOf(c, x.symbol) > 0.0 ==>
      OpenFor(u.positions, d.alpha, x.symbol))
  }

  lemma {:induction false} HoldingRows(rows: seq<Position>, asText: bool, symbol: Key, side: Side)
    ensures Holding(Snaps(rows, asText), symbol, side) <==>
      exists p :: p in rows && p.symbol == symbol && p.side == side
    decreases |rows|
  {
    if rows != [] {
      var init, last := rows[..|rows| - 1], rows[|rows| - 1];
      HoldingRows(init, asText, symbol, side);
      assert last in rows;
      forall p | p in rows ensures p in init || p == last {}
      var before := Snaps(init, asText);
      assert (before + [SnapOf(last, asText)])[..|before|] == before;
    }
  }

  lemma {:induction false} ClosedRows(rows: seq<Position>, targets: seq<Target>, asText: bool, symbol: Key)
    ensures ClosedIn(Snaps(rows, asText), targets, symbol) <==>
      exists p :: p in rows && p.symbol == symbol && Leaves(p, targets, asText)
    decreases |rows|
  {
    if rows != [] {
      hide NeedsClose;
      var init, last := rows[..|rows| - 1], rows[|rows| - 1];
      ClosedRows(init, targets, asText, symbol);
      assert last in rows;
      forall p | p in rows ensures p in init || p == last {}
      var before := Snaps(init, asText);
      assert (before + [SnapOf(last, asText)])[..|before|] == before;
    }
  }

  lemma {:induction false} OneRowPerSymbol(rows: seq<Position>, p: Position, q: Position)
    requires Apart(rows) && p in rows && q in rows && p.symbol == q.symbol
    ensures p == q
    decreases |rows|
  {
    if p in rows[..|rows| - 1] && q in rows[..|rows| - 1] {
      OneRowPerSymbol(rows[..|rows| - 1], p, q);
    }
  }

  /** Among an alpha's rows a target is unchanged exactly when the row of its symbol is there and stays. */
  lemma UnchangedMeansStays(rows: seq<Position>, targets: seq<Target>, asText: bool, t: Target)
    requires Apart(rows) && ProperTargets(targets) && t in targets
    ensures Unchanged(Snaps(rows, asText), targets, t) <==>
      exists p :: p in rows && p.symbol == t.symbol && !Leaves(p, targets, asText)
  {
    HoldingRows(rows, asText, t.symbol, SideFor(t.weight));
    ClosedRows(rows, targets, asText, t.symbol);
    WeightOfTarget(targets, t);
    if p :| p in rows && p.symbol == t.symbol && !Leaves(p, targets, asText) {
      assert p.side == SideFor(t.weight);
      forall q | q in rows && q.symbol == t.symbol ensures q == p { OneRowPerSymbol(rows, p, q); }
    }
  }

  /** After the closes, the slots the opens need are empty. */
  lemma ClosesFreeSlots(t: Tables, mid: Tables, c: Cycle, d: Desk, asText: bool)
    requires Ready(t, d.alpha) && ProperTargets(c.targets)
    requires ClosedDown(t, mid, Leaving(AlphaRows(t.positions, d.alpha), c.targets, asText))
    ensures SlotsFree(mid.positions, Snaps(AlphaRows(t.positions, d.alpha), asText), c, d.alpha)
  {
    hide NeedsClose;
    var rows := AlphaRows(t.positions, d.alpha);
    AlphaRowsApart(t.positions, d.alpha);
    forall x, p | x in c.targets && Opening(Snaps(rows, asText), c, x) && p in mid.positions
      ensures p.alphaId != d.alpha || p.symbol != x.symbol
    {
      InKeeping(t.positions, Leaving(rows, c.targets, asText), p);
      InAlphaRows(t.positions, d.alpha, p);
      InLeaving(rows, c.targets, asText, p.positionId);
      UnchangedMeansStays(rows, c.targets, asText, x);
    }
  }

  /** The rows after the closes: those of other alphas, and this alpha's that stay. */
  lemma RowsAfterCloses(t: Tables, mid: Tables, c: Cycle, d: Desk, asText: bool, p: Position)
    requires Ready(t, d.alpha)
    requires ClosedDown(t, mid, Leaving(AlphaRows(t.positions, d.alpha), c.targets, asText))
    ensures p in mid.positions <==> p in t.positions && (p.alphaId == d.alpha ==> !Leaves(p, c.targets, asText))
  {
    hide NeedsClose;
    var rows := AlphaRows(t.positions, d.alpha);
    var gone := Leaving(rows, c.targets, asText);
    InKeeping(t.positions, gone, p);
    InLeaving(rows, c.targets, asText, p.positionId);
    InAlphaRows(t.positions, d.alpha, p);
    if p in t.positions && p.positionId in gone {
      var q :| q in rows && q.positionId == p.positionId && Leaves(q, c.targets, asText);
      InAlphaRows(t.positions, d.alpha, q);
      InHas(t.positions, p);
      InHas(t.positions, q);
    }
  }

  lemma StillFresh(t: Tables, mid: Tables, c: Cycle, gone: set<Key>)
    requires FreshIds(t, c) && ClosedDown(t, mid, gone) && forall id :: id in gone ==> Has(t.positions, id)
    ensures FreshIds(mid, c)
  {
    forall s | Names(c.targets, s) ensures !Has(mid.positions, IdFor(c, s)) && !TradeIdTaken(mid.trades, IdFor(c, s)) {
      if Has(mid.positions, IdFor(c, s)) {
        var r := mid.positions[RowOf(mid.positions, IdFor(c, s))];
        InKeeping(t.positions, gone, r);
        var k :| 0 <= k < |t.positions| && t.positions[k] == r;
        NoRow(t.positions, IdFor(c, s), k);
      }
    }
  }

  lemma LeavingAreRows(t: Tables, c: Cycle, alpha: Key, asText: bool)
    requires UniqueIds(t.positions)
    ensures forall id :: id in Leaving(AlphaRows(t.positions, alpha), c.targets, asText) ==> Has(t.positions, id)
  {
    hide NeedsClose;
    forall id | id in Leaving(AlphaRows(t.positions, alpha), c.targets, asText) ensures Has(t.positions, id) {
      InLeaving(AlphaRows(t.positions, alpha), c.targets, asText, id);
      var p :| p in AlphaRows(t.positions, alpha) && p.positionId == id && Leaves(p, c.targets, asText);
      InAlphaRows(t.positions, alpha, p);
      InHas(t.positions, p);
    }
  }

  /** From a snapshot of the worker's book, the worker refuses none of a cycle's signals exactly if every position
      that leaves has a quantity and no closing trade yet. */
  lemma NothingIsRejected(t: Tables, c: Cycle, d: Desk, asText: bool)
    requires Ready(t, d.alpha) && FreshIds(t, c) && ProperTargets(c.targets)
    ensures var rows := AlphaRows(t.positions, d.alpha);
      var done := ApplyAll(t, Published(Snaps(rows, asText), c), d);
      && (done.Ok? <==> LeaversClosable(t, rows, c.targets, asText))
      && (done.Ok? ==> exists mid :: ClosedDown(t, mid, Leaving(rows, c.targets, asText)) &&
                                     OpenedUp(mid, done.value, NewRows(Snaps(rows, asText), c, d, c.targets), d.alpha))
  {
    hide Apply, Opening, NeedsClose, OpenedUp, ClosedDown, LeaversClosable;
    var rows := AlphaRows(t.positions, d.alpha);
    var snaps := Snaps(rows, asText);
    AlphaRowsApart(t.positions, d.alpha);
    forall p | p in rows ensures p in t.positions && p.alphaId == d.alpha { InAlphaRows(t.positions, d.alpha, p); }
    BySymbolOfSnaps(rows, asText);
    ClosePhase(t, rows, c.targets, asText, d);
    if LeaversClosable(t, rows, c.targets, asText) {
      OpensGoThrough(t, c, d, asText);
    } else {
      ApplyStaysRefused(t, Closes(snaps, c.targets), OpensOf(snaps, c, c.targets), d);
    }
  }

  lemma OpensGoThrough(t: Tables, c: Cycle, d: Desk, asText: bool)
    requires Ready(t, d.alpha) && FreshIds(t, c) && ProperTargets(c.targets)
    requires var closes := Closes(Snaps(AlphaRows(t.positions, d.alpha), asText), c.targets);
      && ApplyAll(t, closes, d).Ok?
      && ClosedDown(t, ApplyAll(t, closes, d).value, Leaving(AlphaRows(t.positions, d.alpha), c.targets, asText))
    ensures var rows := AlphaRows(t.positions, d.alpha);
      var snaps := Snaps(rows, asText);
      var mid := ApplyAll(t, Closes(snaps, c.targets), d).value;
      var done := ApplyAll(t, Closes(snaps, c.targets) + OpensOf(snaps, c, c.targets), d);
      done.Ok? && OpenedUp(mid, done.value, NewRows(snaps, c, d, c.targets), d.alpha)
  {
    hide Apply, Opening, NeedsClose, OpenedUp, ClosedDown;
    var rows := AlphaRows(t.positions, d.alpha);
    var snaps := Snaps(rows, asText);
    var mid := ApplyAll(t, Closes(snaps, c.targets), d).value;
    KeepsUnique(t, mid, Leaving(rows, c.targets, asText), d.alpha);
    LeavingAreRows(t, c, d.alpha, asText);
    StillFresh(t, mid, c, Leaving(rows, c.targets, asText));
    ClosesFreeSlots(t, mid, c, d, asText);
    OpenPhase(mid, snaps, c, d, c.targets);
    ApplyConcat(t, Closes(snaps, c.targets), OpensOf(snaps, c, c.targets), d);
  }

  lemma KeepsUnique(t: Tables, mid: Tables, gone: set<Key>, alpha: Key)
    requires UniqueIds(t.positions) && OnePerSymbol(t.positions, alpha) && ClosedDown(t, mid, gone)
    ensures UniqueIds(mid.positions) && OnePerSymbol(mid.positions, alpha)
  {
    KeepingUnique(t.positions, gone, alpha);
  }

  lemma {:induction false} OpenedRowsCover(snaps: seq<Snap>, c: Cycle, d: Desk, targets: seq<Target>, x: Target)
    requires x in targets && Opening(snaps, c, x)
    ensures exists r :: r in NewRows(snaps, c, d, targets) && r.alphaId == d.alpha && r.symbol == x.symbol
    decreases |targets|
  {
    hide Opening;
    var init, last := targets[..|targets| - 1], targets[|targets| - 1];
    if x == last {
      assert PriceOf(c, x.symbol) > 0.0 by { PricedIfOpening(snaps, c, x); }
      assert NewRow(c, d, x) in NewRows(snaps, c, d, targets);
    } else {
      OpenedRowsCover(snaps, c, d, init, x);
    }
  }

  lemma PricedIfOpening(snaps: seq<Snap>, c: Cycle, x: Target)
    requires Opening(snaps, c, x)
    ensures PriceOf(c, x.symbol) > 0.0
  {
  }

  lemma InOpenFor(ps: seq<Position>, p: Position)
    requires p in ps
    ensures OpenFor(ps, p.alphaId, p.symbol)
  {
  }

  /** Every target with a price has its position after the cycle: one that stayed, or a new one. */
  lemma TargetsAreCovered(t: Tables, mid: Tables, u: Tables, c: Cycle, d: Desk, asText: bool, x: Target)
    requires Ready(t, d.alpha) && ProperTargets(c.targets)
    requires ClosedDown(t, mid, Leaving(AlphaRows(t.positions, d.alpha), c.targets, asText))
    requires OpenedUp(mid, u, NewRows(Snaps(AlphaRows(t.positions, d.alpha), asText), c, d, c.targets), d.alpha)
    requires x in c.targets && x.weight != 0.0 && PriceOf(c, x.symbol) > 0.0
    ensures OpenFor(u.positions, d.alpha, x.symbol)
  {
    hide NeedsClose, Ready, ClosedDown;
    var rows := AlphaRows(t.positions, d.alpha);
    var snaps := Snaps(rows, asText);
    ReadyIsUnique(t, d.alpha);
    AlphaRowsApart(t.positions, d.alpha);
    UnchangedMeansStays(rows, c.targets, asText, x);
    if Unchanged(snaps, c.targets, x) {
      var p :| p in rows && p.symbol == x.symbol && !Leaves(p, c.targets, asText);
      InAlphaRows(t.positions, d.alpha, p);
      RowsAfterCloses(t, mid, c, d, asText, p);
      InOpenFor(u.positions, p);
    } else {
      OpenedRowsCover(snaps, c, d, c.targets, x);
      var r :| r in NewRows(snaps, c, d, c.targets) && r.alphaId == d.alpha && r.symbol == x.symbol;
      InOpenFor(u.positions, r);
    }
  }

  lemma ReadyIsUnique(t: Tables, alpha: Key)
    requires Ready(t, alpha)
    ensures UniqueIds(t.positions) && OnePerSymbol(t.positions, alpha)
  {
  }

  lemma StayingIsOnSide(p: Position, targets: seq<Target>, asText: bool)
    requires !Leaves(p, targets, asText)
    ensures OnSide(p.side, WeightIn(targets, p.symbol))
    ensures !Resized(PositionWeight(SnapOf(p, asText)), WeightIn(targets, p.symbol))
  {
  }

  lemma RowsAfterCycle(t: Tables, mid: Tables, u: Tables, c: Cycle, d: Desk, asText: bool)
    requires Ready(t, d.alpha) && ProperTargets(c.targets)
    requires ClosedDown(t, mid, Leaving(AlphaRows(t.positions, d.alpha), c.targets, asText))
    requires OpenedUp(mid, u, NewRows(Snaps(AlphaRows(t.positions, d.alpha), asText), c, d, c.targets), d.alpha)
    ensures Reconciled(t, u, c, d, asText)
  {
    hide NeedsClose, Ready, ClosedDown, OnSide, UniqueIds, OnePerSymbol;
    var added := NewRows(Snaps(AlphaRows(t.positions, d.alpha), asText), c, d, c.targets);
    NewRowsFit(Snaps(AlphaRows(t.positions, d.alpha), asText), c, d, c.targets);
    forall p: Position ensures p in u.positions <==>
      p in added || (p in t.positions && (p.alphaId == d.alpha ==> !Leaves(p, c.targets, asText)))
    {
      RowsAfterCloses(t, mid, c, d, asText, p);
    }
    forall p | p in u.positions && p.alphaId == d.alpha ensures OnSide(p.side, WeightIn(c.targets, p.symbol)) {
      if p !in added {
        StayingIsOnSide(p, c.targets, asText);
      }
    }
    forall x | x in c.targets && x.weight != 0.0 && PriceOf(c, x.symbol) > 0.0
      ensures OpenFor(u.positions, d.alpha, x.symbol)
    {
      TargetsAreCovered(t, mid, u, c, d, asText, x);
    }
  }

  lemma SizeIsPositive(c: Cycle, d: Desk, p: Position)
    requires Fits(p, c, d) && c.capital > 0.0
    ensures p.qty > 0.0
  {
  }

  lemma ReadyAgain(t: Tables, mid: Tables, u: Tables, c: Cycle, d: Desk, asText: bool)
    requires Ready(t, d.alpha) && ProperTargets(c.targets) && FreshIds(t, c)
    requires ClosedDown(t, mid, Leaving(AlphaRows(t.positions, d.alpha), c.targets, asText))
    requires OpenedUp(mid, u, NewRows(Snaps(AlphaRows(t.positions, d.alpha), asText), c, d, c.targets), d.alpha)
    ensures Ready(u, d.alpha)
    ensures AllClosable(t, d.alpha) && c.capital > 0.0 ==> AllClosable(u, d.alpha)
  {
    hide NeedsClose, OnSide, Fits, Leaves;
    var rows := AlphaRows(t.positions, d.alpha);
    var added := NewRows(Snaps(rows, asText), c, d, c.targets);
    NewRowsFit(Snaps(rows, asText), c, d, c.targets);
    LeavingAreRows(t, c, d.alpha, asText);
    forall p | p in u.positions && p.alphaId == d.alpha
      ensures p.symbol != "" && (AllClosable(t, d.alpha) && c.capital > 0.0 ==> Closable(u, p))
    {
      if p in added {
        if c.capital > 0.0 {
          SizeIsPositive(c, d, p);
        }
        NamedIsTarget(c.targets, p.symbol);
        var x :| x in c.targets && x.symbol == p.symbol;
        WeightOfTarget(c.targets, x);
      } else {
        InKeeping(t.positions, Leaving(rows, c.targets, asText), p);
      }
    }
  }

  /** One cycle, its signals applied in order.  None is refused exactly if every position that leaves can be closed;
      then the book is reconciled and ready for the next cycle.  With positive capital, positions that can be closed
      stay so for good. */
  lemma CycleReconciles(t: Tables, c: Cycle, d: Desk, asText: bool)
    requires Ready(t, d.alpha) && FreshIds(t, c) && ProperTargets(c.targets)
    ensures var rows := AlphaRows(t.positions, d.alpha);
      var done := ApplyAll(t, Published(Snaps(rows, asText), c), d);
      && (done.Ok? <==> LeaversClosable(t, rows, c.targets, asText))
      && (done.Ok? ==> Reconciled(t, done.value, c, d, asText) && Ready(done.value, d.alpha))
      && (AllClosable(t, d.alpha) ==> done.Ok? && (c.capital > 0.0 ==> AllClosable(done.value, d.alpha)))
  {
    hide Apply, Opening, NeedsClose, OpenedUp, ClosedDown, Ready, Reconciled, FreshIds;
    var rows := AlphaRows(t.positions, d.alpha);
    NothingIsRejected(t, c, d, asText);
    if AllClosable(t, d.alpha) {
      forall p | p in rows ensures Closable(t, p) { InAlphaRows(t.positions, d.alpha, p); }
    }
    if LeaversClosable(t, rows, c.targets, asText) {
      var u := ApplyAll(t, Published(Snaps(rows, asText), c), d).value;
      var mid :| ClosedDown(t, mid, Leaving(rows, c.targets, asText)) &&
                 OpenedUp(mid, u, NewRows(Snaps(rows, asText), c, d, c.targets), d.alpha);
      RowsAfterCycle(t, mid, u, c, d, asText);
      ReadyAgain(t, mid, u, c, d, asText);
    }
  }

  // ------------------------------------------------------------------------- a second cycle

  lemma {:induction false} NothingToClose(rows: seq<Position>, targets: seq<Target>, asText: bool)
    requires forall p :: p in rows ==> !Leaves(p, targets, asText)
    ensures Closes(Snaps(rows, asText), targets) == []
    decreases |rows|
  {
    if rows != [] {
      hide NeedsClose;
      var init, last := rows[..|rows| - 1], rows[|rows| - 1];
      assert last in rows;
      NothingToClose(init, targets, asText);
      var before := Snaps(init, asText);
      assert (before + [SnapOf(last, asText)])[..|before|] == before;
    }
  }

  lemma {:induction false} NothingToOpen(snaps: seq<Snap>, c: Cycle, targets: seq<Target>)
    requires forall x :: x in targets ==> !Opening(snaps, c, x)
    ensures OpensOf(snaps, c, targets) == []
    decreases |targets|
  {
    if targets != [] {
      hide Opening;
      assert targets[|targets| - 1] in targets;
      NothingToOpen(snaps, c, targets[..|targets| - 1]);
    }
  }

  lemma FittingStays(p: Position, c: Cycle, d: Desk, asText: bool)
    requires Fits(p, c, d)
    ensures !Leaves(p, c.targets, asText)
  {
  }

  /** With the same target and prices, a second cycle over the snapshot of the result publishes nothing,
      also where a target has no price or a weight could not be read. */
  lemma SecondCycleIsSilent(t: Tables, u: Tables, c: Cycle, d: Desk, asText: bool, ids: map<Key, Key>)
    requires Ready(u, d.alpha) && ProperTargets(c.targets) && Reconciled(t, u, c, d, asText)
    ensures Published(Snaps(AlphaRows(u.positions, d.alpha), asText), c.(ids := ids)) == []
  {
    hide NeedsClose;
    var rows, again := AlphaRows(u.positions, d.alpha), c.(ids := ids);
    AlphaRowsApart(u.positions, d.alpha);
    forall p | p in rows ensures p in u.positions && p.alphaId == d.alpha && !Leaves(p, c.targets, asText) {
      InAlphaRows(u.positions, d.alpha, p);
      if Fits(p, c, d) {
        FittingStays(p, c, d, asText);
      }
    }
    BySymbolOfSnaps(rows, asText);
    NothingToClose(rows, c.targets, asText);
    forall x | x in c.targets ensures !Opening(Snaps(rows, asText), again, x) {
      UnchangedMeansStays(rows, c.targets, asText, x);
      if x.weight != 0.0 && PriceOf(c, x.symbol) > 0.0 {
        var k :| 0 <= k < |u.positions| && u.positions[k].alphaId == d.alpha && u.positions[k].symbol == x.symbol;
        InAlphaRows(u.positions, d.alpha, u.positions[k]);
      }
    }
    NothingToOpen(Snaps(rows, asText), again, c.targets);
  }

  // -------------------------------------------------------------------------------- resizing

  /** A position whose stored weight is the target's, within the tolerance. */
  predicate Tracks(p: Position, targets: seq<Target>) {
    p.weight.Some? && Abs(p.weight.value - WeightIn(targets, p.symbol)) <= WEIGHT_TOLERANCE
  }

  /** When a cycle leaves every position at its target weight: exactly when each position that already stood on
      its target side either had that weight, or had one that the snapshot let the manager read. */
  lemma WeightsTrackIff(t: Tables, u: Tables, c: Cycle, d: Desk, asText: bool)
    requires Reconciled(t, u, c, d, asText)
    ensures (forall p :: p in u.positions && p.alphaId == d.alpha ==> Tracks(p, c.targets)) <==>
      (forall p :: p in t.positions && p.alphaId == d.alpha && OnSide(p.side, WeightIn(c.targets, p.symbol)) ==>
        Tracks(p, c.targets) || (asText && p.weight.Some?))
  {
  }

  lemma OneSnap(p: Position, asText: bool)
    requires p.symbol != ""
    ensures BySymbol(Snaps([p], asText)) == [SnapOf(p, asText)]
  {
  }

  lemma OneClose(s: Snap, targets: seq<Target>)
    ensures Closes([s], targets) == if NeedsClose(s, targets) then [CloseMsg(s.symbol, s.positionId)] else []
    ensures ClosedIn([s], targets, s.symbol) == NeedsClose(s, targets)
    ensures Holding([s], s.symbol, s.side)
  {
  }

  lemma OneOpen(d: seq<Snap>, c: Cycle, t: Target)
    ensures OpensOf(d, c, [t]) == if Opening(d, c, t) then [OpenFrom(c, t)] else []
    ensures WeightIn([t], t.symbol) == t.weight
  {
  }

  /** With the snapshots the worker publishes, a position on its target side is never resized: here the target
      asks for five times the weight and nothing is published. */
  lemma PublishedSnapshotHidesResize(p: Position, c: Cycle)
    requires p.side == Long && p.weight == Some(0.1) && p.symbol == "BTCUSDT" && c.targets == [Target("BTCUSDT", 0.5)]
    ensures Published(Snaps([p], false), c) == []
    ensures PriceOf(c, p.symbol) > 0.0 ==>
      Published(Snaps([p], true), c) == [CloseMsg(p.symbol, p.positionId), OpenFrom(c, c.targets[0])]
  {
    hide Closes, OpensOf, BySymbol, Snaps, ClosedIn, Holding, WeightIn;
    var target := c.targets[0];
    OneSnap(p, false);
    OneSnap(p, true);
    OneClose(SnapOf(p, false), c.targets);
    OneClose(SnapOf(p, true), c.targets);
    OneOpen([SnapOf(p, false)], c, target);
    OneOpen([SnapOf(p, true)], c, target);
  }
}
