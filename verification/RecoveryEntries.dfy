/** What a replay ledger says, entry by entry: which positions a point closes and at what price, which it opens,
    how large and at what leverage, all in terms of the baseline rows and the points. */
module RecoveryEntries {
  import opened Wrappers
  import opened RecoveryCandidate
  import opened RecoveryReplay
  import opened RecoverySimulation
  import SortedKeys
  import W = RecoveryWeights

  // ---------------------------------------------------------------------------- the leverage

  /** The alpha's first row, or the number of rows. */
  function FirstOf(rows: seq<PositionRow>, alpha: nat): (i: nat)
    ensures i <= |rows| && (i < |rows| ==> rows[i].alpha == alpha)
    ensures forall j :: 0 <= j < i ==> rows[j].alpha != alpha
  {
    if rows == [] then 0
    else
      var i := FirstOf(rows[..|rows| - 1], alpha);
      if i < |rows| - 1 || rows[|rows| - 1].alpha == alpha then i else |rows|
  }

  /** The leverage stored with the alpha's first row: 1 if it stores none, or if there is no row. */
  function StoredLeverage(rows: seq<PositionRow>, alpha: nat): real {
    var i := FirstOf(rows, alpha);
    if i < |rows| && rows[i].meta.leverage.Some? then rows[i].meta.leverage.value else 1.0
  }

  predicate WantsNothing(step: Step) { W.BalancedWeights(step.weights, step.prices) == [] }

  /** Some point wants nothing for the alpha. */
  predicate Emptied(steps: seq<Step>, alpha: nat) {
    exists i :: 0 <= i < |steps| && steps[i].alpha == alpha && WantsNothing(steps[i])
  }

  /** The leverage after these points: the first baseline row's, until a point leaves the alpha no position. */
  function LeverageAfter(rows: seq<PositionRow>, steps: seq<Step>, alpha: nat): real {
    if Emptied(steps, alpha) then 1.0 else StoredLeverage(rows, alpha)
  }

  lemma {:induction false} FirstIsFirst(rows: seq<PositionRow>, alpha: nat)
    ensures var b, i := BookOf(rows, alpha), FirstOf(rows, alpha);
      && (b.order == [] <==> i == |rows|)
      && (i < |rows| ==> b.order[0] == rows[i].symbol)
      && (forall s :: s in b.order <==> s in b.at)
    decreases |rows|
  {
    if rows != [] {
      FirstIsFirst(rows[..|rows| - 1], alpha);
    }
  }

  /** The loaded dictionary lists each symbol once. */
  lemma {:induction false} OrderIsOnce(rows: seq<PositionRow>, alpha: nat)
    ensures var order := BookOf(rows, alpha).order;
      forall i, j :: 0 <= i < j < |order| ==> order[i] != order[j]
    decreases |rows|
  {
    if rows != [] {
      OrderIsOnce(rows[..|rows| - 1], alpha);
      FirstIsFirst(rows[..|rows| - 1], alpha);
    }
  }

  lemma BaselineLeverage(rows: seq<PositionRow>, alpha: nat)
    requires UniqueSlots(rows, {alpha})
    ensures StrategyLeverage(BookOf(rows, alpha)) == StoredLeverage(rows, alpha)
  {
    FirstIsFirst(rows, alpha);
    if FirstOf(rows, alpha) < |rows| {
      RowHasEntry(rows, {alpha}, rows[FirstOf(rows, alpha)]);
    }
  }

  /** A weight of the trimmed target book. */
  predicate Wants(step: Step, s: nat, w: real) {
    W.Weight(s, w) in W.BalancedWeights(step.weights, step.prices)
  }

  lemma {:induction false} ByWeightHas(ws: seq<W.Weight>, s: nat, w: real)
    requires W.Distinct(ws)
    ensures s in ByWeight(ws) && ByWeight(ws)[s] == w <==> W.Weight(s, w) in ws
    decreases |ws|
  {
    if ws != [] {
      var init, last := ws[..|ws| - 1], ws[|ws| - 1];
      ByWeightHas(init, s, w);
      assert W.Weight(s, w) in ws <==> W.Weight(s, w) in init || W.Weight(s, w) == last;
      if last.symbol == s && W.Weight(s, w) in init {
        W.SymbolOf(init, W.Weight(s, w));
      }
    }
  }

  lemma TargetsAreWanted(step: Step, s: nat, w: real)
    ensures s in Targets(step) && Targets(step)[s] == w <==> Wants(step, s, w)
    ensures Wants(step, s, w) ==> s in step.prices && step.prices[s] > 0.0
  {
    W.BookIsTradable(step.weights, step.prices, W.Weight(s, w));
    ByWeightHas(W.BalancedWeights(step.weights, step.prices), s, w);
  }

  lemma NoTargets(step: Step)
    ensures Targets(step) == map[] <==> W.BalancedWeights(step.weights, step.prices) == []
  {
    var ws := W.BalancedWeights(step.weights, step.prices);
    if ws != [] {
      assert ws[0] in ws && ws[0] == W.Weight(ws[0].symbol, ws[0].value);
      TargetsAreWanted(step, ws[0].symbol, ws[0].value);
    }
  }

  /** The leverage the planner reads off its book is that of the first baseline row, until a point leaves the alpha
      no position; from then on it is 1. */
  lemma {:induction false} LeverageRuns(configs: map<nat, Config>, rows: seq<PositionRow>, state: map<nat, Book>,
                                        steps: seq<Step>, alpha: nat)
    requires Mirrors(state, rows) && UniqueSlots(rows, {alpha}) && PlanAll(configs, state, steps).Ok?
    ensures StrategyLeverage(BookIn(PlanAll(configs, state, steps).value.state, alpha)) ==
      LeverageAfter(rows, steps, alpha)
    decreases |steps|
  {
    hide StrategyLeverage, Targets, Reopened, Closes, Opens, UniqueSlots, StoredLeverage, BookOf;
    if steps == [] {
      BaselineLeverage(rows, alpha);
    } else {
      var init, last := steps[..|steps| - 1], steps[|steps| - 1];
      LeverageRuns(configs, rows, state, init, alpha);
      NoTargets(last);
      OneMorePoint(init, last, alpha);
      assert steps == init + [last];
      if last.alpha == alpha {
        LeveragePersists(configs[alpha], last, BookIn(PlanAll(configs, state, init).value.state, alpha));
      }
    }
  }

  lemma OneMorePoint(init: seq<Step>, last: Step, alpha: nat)
    ensures Emptied(init + [last], alpha) <==>
      Emptied(init, alpha) || (last.alpha == alpha && WantsNothing(last))
  {
    var steps := init + [last];
    if Emptied(init, alpha) {
      var i :| 0 <= i < |init| && init[i].alpha == alpha && WantsNothing(init[i]);
      assert steps[i] == init[i];
    }
    if last.alpha == alpha && WantsNothing(last) {
      assert steps[|init|] == last;
    }
  }

  // ----------------------------------------------------------------------------- the entries

  /** What recovery needs to know of an open position. */
  datatype Held = Held(symbol: nat, id: Id, side: Side, fee: real, price: real)

  function HeldRow(row: PositionRow): Held {
    Held(row.symbol, row.id, row.side, if row.fee.Some? then row.fee.value else 0.0,
         if row.meta.decision.Some? then row.meta.decision.value else row.entry)
  }

  function SideFor(w: real): Side { if w > 0.0 then Long else Short }

  function HeldTarget(c: Config, step: Step, s: nat, w: real): Held
    requires s in step.prices
  {
    Held(s, Derived(step.alpha, step.candle, s, SideFor(w)), SideFor(w), c.feeBps / 10000.0, step.prices[s])
  }

  /** The alpha holds this position after the points: one of its baseline rows, or a target of its last point. */
  ghost predicate Holds(configs: map<nat, Config>, rows: seq<PositionRow>, steps: seq<Step>, alpha: nat, h: Held) {
    if steps == [] then exists row :: row in rows && row.alpha == alpha && h == HeldRow(row)
    else
      var last := steps[|steps| - 1];
      if last.alpha != alpha then Holds(configs, rows, steps[..|steps| - 1], alpha, h)
      else
        alpha in configs &&
        exists w :: Wants(last, h.symbol, w) && h.symbol in last.prices &&
          h == HeldTarget(configs[alpha], last, h.symbol, w)
  }

  /** Its close, at the price now or, without one, at the price it was decided on. */
  predicate IsClosing(c: Config, step: Step, h: Held, e: Entry) {
    && e.CloseEntry? && e.alpha == step.alpha && e.pid == h.id && e.symbol == h.symbol && e.side == h.side
    && e.price == (if h.symbol in step.prices then step.prices[h.symbol] else h.price) && e.fee == h.fee
    && e.sid == Logical(step.alpha, c.version, false, h.symbol, step.timeframe, None, h.id, step.candle)
    && e.candle == step.candle && e.eventAt == step.eventAt
  }

  /** The opening of a target, at its share of the leveraged capital. */
  predicate IsOpening(c: Config, step: Step, w: real, leverage: real, e: Entry) {
    && e.OpenEntry? && e.symbol in step.prices && step.prices[e.symbol] > 0.0 && e.alpha == step.alpha
    && e.weight == w && e.side == SideFor(w) && e.price == step.prices[e.symbol] && e.leverage == leverage
    && e.qty == c.capital * (if w < 0.0 then -w else w) * leverage / e.price && e.fee == c.feeBps / 10000.0
    && e.pid == Derived(step.alpha, step.candle, e.symbol, e.side)
    && e.sid == Logical(step.alpha, c.version, true, e.symbol, step.timeframe, Some(e.side), e.pid, step.candle)
    && e.candle == step.candle && e.eventAt == step.eventAt
  }

  function HeldState(p: PositionState): Held { Held(p.symbol, p.id, p.side, p.fee, p.price) }

  /** The planner's book lists what is held. */
  ghost predicate Lists(configs: map<nat, Config>, rows: seq<PositionRow>, steps: seq<Step>, alpha: nat, b: Book) {
    && (forall s :: s in b.at ==> b.at[s].symbol == s && Holds(configs, rows, steps, alpha, HeldState(b.at[s])))
    && (forall h :: Holds(configs, rows, steps, alpha, h) ==> h.symbol in b.at && HeldState(b.at[h.symbol]) == h)
  }

  lemma {:induction false} EntryIsRow(rows: seq<PositionRow>, alpha: nat, s: nat)
    requires s in BookOf(rows, alpha).at
    ensures BookOf(rows, alpha).at[s].symbol == s
    ensures exists row :: row in rows && row.alpha == alpha && HeldState(BookOf(rows, alpha).at[s]) == HeldRow(row)
    decreases |rows|
  {
    var init, last := rows[..|rows| - 1], rows[|rows| - 1];
    if last.alpha == alpha && last.symbol == s {
      assert last in rows;
    } else {
      EntryIsRow(init, alpha, s);
      var row :| row in init && row.alpha == alpha && HeldState(BookOf(init, alpha).at[s]) == HeldRow(row);
      assert row in rows;
    }
  }

  lemma BaselineLists(configs: map<nat, Config>, rows: seq<PositionRow>, alpha: nat)
    requires UniqueSlots(rows, {alpha})
    ensures Lists(configs, rows, [], alpha, BookOf(rows, alpha))
  {
    var b := BookOf(rows, alpha);
    forall s | s in b.at ensures b.at[s].symbol == s && Holds(configs, rows, [], alpha, HeldState(b.at[s])) {
      EntryIsRow(rows, alpha, s);
    }
    forall h | Holds(configs, rows, [], alpha, h) ensures h.symbol in b.at && HeldState(b.at[h.symbol]) == h {
      var row :| row in rows && row.alpha == alpha && h == HeldRow(row);
      RowHasEntry(rows, {alpha}, row);
    }
  }

  /** The book that the openings of some symbols build. */
  lemma {:induction false} BuiltBook(c: Config, step: Step, leverage: real, symbols: seq<nat>)
    requires Openable(step, symbols) && AllOpens(OpensFor(c, step, leverage, symbols))
    ensures var b := BookFrom(OpensFor(c, step, leverage, symbols));
      && (forall s :: s in b.at <==> s in symbols)
      && (forall s :: s in symbols ==>
            b.at[s].symbol == s && HeldState(b.at[s]) == HeldTarget(c, step, s, Targets(step)[s]))
    decreases |symbols|
  {
    if symbols != [] {
      hide Targets;
      var init, s := symbols[..|symbols| - 1], symbols[|symbols| - 1];
      assert symbols == init + [s];
      OpensAreOpens(c, step, leverage, init);
      BuiltBook(c, step, leverage, init);
      var before, e := OpensFor(c, step, leverage, init), OpenOf(c, step, leverage, s);
      assert (before + [e])[..|before|] == before;
    }
  }

  lemma ReopenedLists(configs: map<nat, Config>, rows: seq<PositionRow>, steps: seq<Step>, b: Book)
    requires steps != [] && steps[|steps| - 1].alpha in configs
    ensures var last := steps[|steps| - 1];
      Lists(configs, rows, steps, last.alpha, Reopened(configs[last.alpha], last, b))
  {
    var last := steps[|steps| - 1];
    var c, symbols := configs[last.alpha], SortedKeys.Sorted(Targets(last).Keys);
    SortedKeys.SortedHasAll(Targets(last).Keys);
    TargetsAreOpenable(last);
    OpensAreOpens(c, last, StrategyLeverage(b), symbols);
    BuiltBook(c, last, StrategyLeverage(b), symbols);
    hide Targets, OpensFor, BookFrom, StrategyLeverage;
    var next := Reopened(c, last, b);
    forall s | s in next.at ensures Holds(configs, rows, steps, last.alpha, HeldState(next.at[s])) {
      TargetsAreWanted(last, s, Targets(last)[s]);
    }
    forall h | Holds(configs, rows, steps, last.alpha, h)
      ensures h.symbol in next.at && HeldState(next.at[h.symbol]) == h
    {
      var w :| Wants(last, h.symbol, w) && h.symbol in last.prices && h == HeldTarget(c, last, h.symbol, w);
      TargetsAreWanted(last, h.symbol, w);
    }
  }

  lemma {:induction false} PlanLists(configs: map<nat, Config>, rows: seq<PositionRow>, state: map<nat, Book>,
                                     steps: seq<Step>, alpha: nat)
    requires Mirrors(state, rows) && UniqueSlots(rows, {alpha}) && PlanAll(configs, state, steps).Ok?
    ensures Lists(configs, rows, steps, alpha, BookIn(PlanAll(configs, state, steps).value.state, alpha))
    decreases |steps|
  {
    hide Reopened, Closes, Opens, UniqueSlots, BookOf;
    if steps == [] {
      BaselineLists(configs, rows, alpha);
    } else {
      var init, last := steps[..|steps| - 1], steps[|steps| - 1];
      PlanLists(configs, rows, state, init, alpha);
      if last.alpha == alpha {
        ReopenedLists(configs, rows, steps, BookIn(PlanAll(configs, state, init).value.state, alpha));
      }
    }
  }

  // ------------------------------------------------------------------- one point of the ledger

  /** Closes before opens, each in the order of the symbols. */
  ghost predicate InOrder(es: seq<Entry>) {
    forall i, j :: 0 <= i < j < |es| ==>
      if es[i].CloseEntry? == es[j].CloseEntry? then es[i].symbol < es[j].symbol else es[i].CloseEntry?
  }

  /** The entries of one point: a close for each position held and no other, an opening for each target and no
      other, at this leverage. */
  ghost predicate SaysPoint(configs: map<nat, Config>, rows: seq<PositionRow>, steps: seq<Step>, step: Step,
                            leverage: real, es: seq<Entry>)
  {
    && step.alpha in configs && InOrder(es)
    && (forall e :: e in es && e.CloseEntry? ==>
          exists h :: Holds(configs, rows, steps, step.alpha, h) && IsClosing(configs[step.alpha], step, h, e))
    && (forall h :: Holds(configs, rows, steps, step.alpha, h) ==>
          exists e :: e in es && IsClosing(configs[step.alpha], step, h, e))
    && (forall e :: e in es && e.OpenEntry? ==>
          Wants(step, e.symbol, e.weight) && IsOpening(configs[step.alpha], step, e.weight, leverage, e))
    && (forall s, w :: Wants(step, s, w) ==>
          exists e :: e in es && e.symbol == s && IsOpening(configs[step.alpha], step, w, leverage, e))
  }

  lemma {:induction false} ClosesAt(c: Config, step: Step, b: Book, symbols: seq<nat>)
    requires forall s :: s in symbols ==> s in b.at
    ensures |ClosesFor(c, step, b, symbols)| == |symbols|
    ensures forall i :: 0 <= i < |symbols| ==> ClosesFor(c, step, b, symbols)[i] == CloseOf(c, step, b.at[symbols[i]])
    decreases |symbols|
  {
    if symbols != [] {
      ClosesAt(c, step, b, symbols[..|symbols| - 1]);
    }
  }

  lemma {:induction false} OpensAt(c: Config, step: Step, leverage: real, symbols: seq<nat>)
    requires Openable(step, symbols)
    ensures |OpensFor(c, step, leverage, symbols)| == |symbols|
    ensures forall i :: 0 <= i < |symbols| ==>
      OpensFor(c, step, leverage, symbols)[i] == OpenOf(c, step, leverage, symbols[i])
    decreases |symbols|
  {
    if symbols != [] {
      OpensAt(c, step, leverage, symbols[..|symbols| - 1]);
    }
  }

  lemma CloseSays(c: Config, step: Step, p: PositionState)
    ensures IsClosing(c, step, HeldState(p), CloseOf(c, step, p))
  {
  }

  lemma OpenSays(c: Config, step: Step, leverage: real, s: nat)
    requires s in Targets(step) && s in step.prices && step.prices[s] > 0.0
    ensures var e := OpenOf(c, step, leverage, s);
      Wants(step, s, e.weight) && e.symbol == s && IsOpening(c, step, e.weight, leverage, e)
  {
    TargetsAreWanted(step, s, Targets(step)[s]);
  }

  lemma {:induction false} AscendsPairwise(r: seq<nat>)
    requires SortedKeys.Ascending(r)
    ensures forall i, j :: 0 <= i < j < |r| ==> r[i] < r[j]
    decreases |r|
  {
    if r != [] {
      AscendsPairwise(r[..|r| - 1]);
      forall i, j | 0 <= i < j < |r| ensures r[i] < r[j] {
        assert r[i] in r[..|r| - 1];
        assert j < |r| - 1 ==> r[..|r| - 1][i] < r[..|r| - 1][j];
      }
    }
  }

  /** Each entry is the close of one symbol's position, in the order of the symbols. */
  ghost predicate ClosesEach(c: Config, step: Step, b: Book, symbols: seq<nat>, es: seq<Entry>) {
    && |es| == |symbols|
    && (forall i :: 0 <= i < |es| ==> symbols[i] in b.at && es[i].symbol == symbols[i])
    && (forall i :: 0 <= i < |es| ==> symbols[i] in b.at && IsClosing(c, step, HeldState(b.at[symbols[i]]), es[i]))
  }

  lemma ClosesAreEach(c: Config, step: Step, b: Book, symbols: seq<nat>)
    requires (forall s :: s in symbols ==> s in b.at) && forall s :: s in b.at ==> b.at[s].symbol == s
    ensures ClosesEach(c, step, b, symbols, ClosesFor(c, step, b, symbols))
  {
    ClosesAt(c, step, b, symbols);
    hide ClosesFor, IsClosing;
    forall i | 0 <= i < |symbols| ensures symbols[i] in b.at {
      assert symbols[i] in symbols;
      CloseSays(c, step, b.at[symbols[i]]);
    }
  }

  lemma ClosesSay(configs: map<nat, Config>, rows: seq<PositionRow>, steps: seq<Step>, step: Step, b: Book)
    requires step.alpha in configs && Lists(configs, rows, steps, step.alpha, b)
    ensures var c, es := configs[step.alpha], Closes(configs[step.alpha], step, b);
      && InOrder(es) && (forall e :: e in es ==> e.CloseEntry?)
      && (forall e :: e in es ==> exists h :: Holds(configs, rows, steps, step.alpha, h) && IsClosing(c, step, h, e))
      && (forall h :: Holds(configs, rows, steps, step.alpha, h) ==> exists e :: e in es && IsClosing(c, step, h, e))
  {
    var c, symbols := configs[step.alpha], SortedKeys.Sorted(b.at.Keys);
    SortedKeys.SortedHasAll(b.at.Keys);
    SortedKeys.SortedIsAscending(b.at.Keys);
    AscendsPairwise(symbols);
    ClosesAreEach(c, step, b, symbols);
    var es := Closes(c, step, b);
    EachIsClose(c, step, b, symbols, es);
    hide Closes, ClosesFor, ClosesEach, Lists, Holds, IsClosing, HeldState, SortedKeys.Ascending, SortedKeys.Sorted;
    forall e | e in es ensures exists h :: Holds(configs, rows, steps, step.alpha, h) && IsClosing(c, step, h, e) {
      var h := CloseHasHolding(configs, rows, steps, step, b, symbols, es, e);
    }
    forall h | Holds(configs, rows, steps, step.alpha, h) ensures exists e :: e in es && IsClosing(c, step, h, e) {
      var e := HoldingHasClose(configs, rows, steps, step, b, symbols, es, h);
    }
  }

  lemma CloseHasHolding(configs: map<nat, Config>, rows: seq<PositionRow>, steps: seq<Step>, step: Step, b: Book,
                        symbols: seq<nat>, es: seq<Entry>, e: Entry) returns (h: Held)
    requires step.alpha in configs && Lists(configs, rows, steps, step.alpha, b) && e in es
    requires ClosesEach(configs[step.alpha], step, b, symbols, es)
    ensures Holds(configs, rows, steps, step.alpha, h) && IsClosing(configs[step.alpha], step, h, e)
  {
    hide Holds, IsClosing, HeldState;
    var i :| 0 <= i < |es| && es[i] == e;
    h := HeldState(b.at[symbols[i]]);
  }

  lemma HoldingHasClose(configs: map<nat, Config>, rows: seq<PositionRow>, steps: seq<Step>, step: Step, b: Book,
                        symbols: seq<nat>, es: seq<Entry>, h: Held) returns (e: Entry)
    requires step.alpha in configs && Lists(configs, rows, steps, step.alpha, b)
    requires ClosesEach(configs[step.alpha], step, b, symbols, es) && forall s :: s in b.at ==> s in symbols
    requires Holds(configs, rows, steps, step.alpha, h)
    ensures e in es && IsClosing(configs[step.alpha], step, h, e)
  {
    hide Holds, IsClosing, HeldState;
    assert h.symbol in symbols;
    var i :| 0 <= i < |symbols| && symbols[i] == h.symbol;
    e := es[i];
  }

  lemma EachIsClose(c: Config, step: Step, b: Book, symbols: seq<nat>, es: seq<Entry>)
    requires ClosesEach(c, step, b, symbols, es) && forall i, j :: 0 <= i < j < |symbols| ==> symbols[i] < symbols[j]
    ensures InOrder(es) && forall e :: e in es ==> e.CloseEntry?
  {
    assert forall i :: 0 <= i < |es| ==> IsClosing(c, step, HeldState(b.at[symbols[i]]), es[i]) && es[i].CloseEntry?;
  }

  lemma OpensSay(c: Config, step: Step, b: Book)
    ensures var es, leverage := Opens(c, step, b), StrategyLeverage(b);
      && InOrder(es) && (forall e :: e in es ==> e.OpenEntry?)
      && (forall e :: e in es ==> Wants(step, e.symbol, e.weight) && IsOpening(c, step, e.weight, leverage, e))
      && (forall s, w :: Wants(step, s, w) ==>
            exists e :: e in es && e.symbol == s && IsOpening(c, step, w, leverage, e))
  {
    var leverage, symbols := StrategyLeverage(b), SortedKeys.Sorted(Targets(step).Keys);
    SortedKeys.SortedHasAll(Targets(step).Keys);
    SortedKeys.SortedIsAscending(Targets(step).Keys);
    AscendsPairwise(symbols);
    TargetsAreOpenable(step);
    OpensAt(c, step, leverage, symbols);
    var es := Opens(c, step, b);
    hide Opens, OpensFor, Wants, IsOpening, SortedKeys.Ascending, StrategyLeverage, Targets;
    forall i | 0 <= i < |es|
      ensures es[i].OpenEntry? && es[i].symbol == symbols[i]
      ensures Wants(step, es[i].symbol, es[i].weight) && IsOpening(c, step, es[i].weight, leverage, es[i])
    {
      assert symbols[i] in symbols;
      OpenSays(c, step, leverage, symbols[i]);
    }
    forall s, w | Wants(step, s, w) ensures exists e :: e in es && e.symbol == s && IsOpening(c, step, w, leverage, e) {
      TargetsAreWanted(step, s, w);
      assert s in symbols;
      var i :| 0 <= i < |symbols| && symbols[i] == s;
      TargetsAreWanted(step, s, es[i].weight);
      assert es[i] in es;
    }
  }

  /** The ledger, point by point: the entries of point k close exactly what its alpha holds then, and open exactly
      its targets, at the leverage of the alpha's first baseline row or 1. */
  lemma PointMeans(configs: map<nat, Config>, rows: seq<PositionRow>, state: map<nat, Book>, steps: seq<Step>, k: nat)
    requires k < |steps| && Mirrors(state, rows) && UniqueSlots(rows, {steps[k].alpha})
    requires PlanAll(configs, state, steps).Ok?
    ensures PlanAll(configs, state, steps[..k]).Ok? && PlanAll(configs, state, steps[..k + 1]).Ok?
    ensures var before, after := PlanAll(configs, state, steps[..k]).value.entries,
                                 PlanAll(configs, state, steps[..k + 1]).value.entries;
      && before <= after <= PlanAll(configs, state, steps).value.entries
      && SaysPoint(configs, rows, steps[..k], steps[k], LeverageAfter(rows, steps[..k], steps[k].alpha),
                   after[|before|..])
  {
    PlanNext(configs, state, steps, k);
    hide PlanAll, Closes, Opens, UniqueSlots, InOrder, Holds, IsClosing, IsOpening, Wants, LeverageAfter, Lists;
    hide SaysPoint, StrategyLeverage, BookIn;
    var init, step := steps[..k], steps[k];
    PlanLists(configs, rows, state, init, step.alpha);
    LeverageRuns(configs, rows, state, init, step.alpha);
    var b, c := BookIn(PlanAll(configs, state, init).value.state, step.alpha), configs[step.alpha];
    ClosesSay(configs, rows, init, step, b);
    OpensSay(c, step, b);
    var closes, opens := Closes(c, step, b), Opens(c, step, b);
    InOrderTogether(closes, opens);
    SaysTogether(configs, rows, init, step, StrategyLeverage(b), closes, opens);
  }

  /** What one more point adds to the plan. */
  lemma PlanNext(configs: map<nat, Config>, state: map<nat, Book>, steps: seq<Step>, k: nat)
    requires k < |steps| && PlanAll(configs, state, steps).Ok?
    ensures PlanAll(configs, state, steps[..k]).Ok? && PlanAll(configs, state, steps[..k + 1]).Ok?
    ensures steps[k].alpha in configs
    ensures var c, step, plan := configs[steps[k].alpha], steps[k], PlanAll(configs, state, steps[..k]).value;
      var b, after := BookIn(plan.state, step.alpha), PlanAll(configs, state, steps[..k + 1]).value.entries;
      && plan.entries <= after <= PlanAll(configs, state, steps).value.entries
      && after[|plan.entries|..] == Closes(c, step, b) + Opens(c, step, b)
  {
    hide Closes, Opens, Reopened;
    PlanPrefix(configs, state, steps, k);
    PlanPrefix(configs, state, steps, k + 1);
    assert steps[..k + 1][..k] == steps[..k] && steps[..k + 1][k] == steps[k];
  }

  lemma InOrderTogether(closes: seq<Entry>, opens: seq<Entry>)
    requires InOrder(closes) && InOrder(opens)
    requires (forall e :: e in closes ==> e.CloseEntry?) && (forall e :: e in opens ==> e.OpenEntry?)
    ensures InOrder(closes + opens)
  {
    var es := closes + opens;
    forall i, j | 0 <= i < j < |es|
      ensures if es[i].CloseEntry? == es[j].CloseEntry? then es[i].symbol < es[j].symbol else es[i].CloseEntry?
    {
      assert es[i] == if i < |closes| then closes[i] else opens[i - |closes|];
      assert es[j] == if j < |closes| then closes[j] else opens[j - |closes|];
      assert i < |closes| ==> closes[i] in closes;
      assert i >= |closes| ==> opens[i - |closes|] in opens;
      assert j < |closes| ==> closes[j] in closes;
      assert j >= |closes| ==> opens[j - |closes|] in opens;
    }
  }

  lemma SaysTogether(configs: map<nat, Config>, rows: seq<PositionRow>, steps: seq<Step>, step: Step, leverage: real,
                     closes: seq<Entry>, opens: seq<Entry>)
    requires step.alpha in configs && InOrder(closes + opens)
    requires (forall e :: e in closes ==> e.CloseEntry?) && (forall e :: e in opens ==> e.OpenEntry?)
    requires forall e :: e in closes ==>
      exists h :: Holds(configs, rows, steps, step.alpha, h) && IsClosing(configs[step.alpha], step, h, e)
    requires forall h :: Holds(configs, rows, steps, step.alpha, h) ==>
      exists e :: e in closes && IsClosing(configs[step.alpha], step, h, e)
    requires forall e :: e in opens ==>
      Wants(step, e.symbol, e.weight) && IsOpening(configs[step.alpha], step, e.weight, leverage, e)
    requires forall s, w :: Wants(step, s, w) ==>
      exists e :: e in opens && e.symbol == s && IsOpening(configs[step.alpha], step, w, leverage, e)
    ensures SaysPoint(configs, rows, steps, step, leverage, closes + opens)
  {
    hide Holds, IsClosing, IsOpening, Wants, InOrder;
    var es := closes + opens;
    forall h | Holds(configs, rows, steps, step.alpha, h)
      ensures exists e :: e in es && IsClosing(configs[step.alpha], step, h, e)
    {
      var e :| e in closes && IsClosing(configs[step.alpha], step, h, e);
      assert e in es;
    }
    forall s, w | Wants(step, s, w)
      ensures exists e :: e in es && e.symbol == s && IsOpening(configs[step.alpha], step, w, leverage, e)
    {
      var e :| e in opens && e.symbol == s && IsOpening(configs[step.alpha], step, w, leverage, e);
      assert e in es;
    }
  }

  // --------------------------------------------------------- what an entry does to the tables

  predicate TradeSays(row: PositionRow, e: Entry, slippage: real, x: TradeRow)
    requires e.CloseEntry?
  {
    var slip := e.price * (slippage / 1000.0);
    var fee := if row.fee.Some? && row.fee.value != 0.0 then row.fee.value else e.fee;
    var exit := if e.side == Long then e.price - slip else e.price + slip;
    var gain := if e.side == Long then exit - row.entry else row.entry - exit;
    && x.position == e.pid && x.alpha == e.alpha && x.sid == row.sid && x.symbol == e.symbol && x.side == e.side
    && x.entry == row.entry && x.exit == exit && x.qty == row.qty
    && x.fee == (row.entry + exit) * row.qty * fee && x.pnl == gain * row.qty - x.fee
    && x.pnlPercent == (if row.entry * row.qty != 0.0 then x.pnl / (row.entry * row.qty) * 100.0 else 0.0)
    && x.tp == row.tp && x.sl == row.sl && x.openedAt == row.openedAt && x.closedAt == e.eventAt
    && x.hours == (e.eventAt - row.openedAt) as real / 3600000000.0
  }

  predicate RowSays(e: Entry, slippage: real, row: PositionRow)
    requires e.OpenEntry?
  {
    var slip := e.price * (slippage / 1000.0);
    && row.id == e.pid && row.alpha == e.alpha && row.sid == e.sid && row.symbol == e.symbol && row.side == e.side
    && row.entry == (if e.side == Long then e.price + slip else e.price - slip) && row.qty == e.qty
    && row.tp == None && row.sl == None && row.openedAt == e.eventAt && row.fee == Some(e.fee)
    && row.meta == Meta(Some(e.leverage), Some(e.price))
  }

  /** An entry that applies leaves its audit signal, and either moves its row to the trades, with the slip against the
      position and the fee on both fills, or adds a row with the slip against it. */
  lemma EntryMeans(known: set<nat>, t: Tables, e: Entry, slippage: real)
    requires UniqueIds(t.positions) && Apply(known, t, e, slippage).Ok?
    ensures var u := Apply(known, t, e, slippage).value;
      && u.next == t.next + 1 && t.next in u.signals
      && u.signals == t.signals[t.next := SignalRow(e.sid, e.alpha, e.OpenEntry?, e.symbol, e.pid, Some(e.candle))]
      && (e.CloseEntry? ==>
            && e.pid !in t.trades && e.pid in u.trades && u.trades - {e.pid} == t.trades
            && (forall r :: r in u.positions <==> r in t.positions && r.id != e.pid)
            && exists row :: row in t.positions && row.id == e.pid && TradeSays(row, e, slippage, u.trades[e.pid]))
      && (e.OpenEntry? ==>
            && u.trades == t.trades && |u.positions| == |t.positions| + 1 && u.positions[..|t.positions|] == t.positions
            && RowSays(e, slippage, u.positions[|t.positions|]))
  {
    if e.CloseEntry? {
      FoundIsRow(t.positions, e.pid);
      var row := RowById(t.positions, e.pid).value;
      ClosedSays(row, e, slippage);
      forall r ensures r in Keep(t.positions, {e.pid}) <==> r in t.positions && r.id != e.pid {
        InKept(t.positions, e.pid, r);
      }
    }
  }

  lemma ClosedSays(row: PositionRow, e: Entry, slippage: real)
    requires e.CloseEntry?
    ensures TradeSays(row, e, slippage, TradeOf(row, e, slippage))
  {
  }

  lemma {:induction false} InKept(rows: seq<PositionRow>, id: Id, r: PositionRow)
    ensures r in Keep(rows, {id}) <==> r in rows && r.id != id
    decreases |rows|
  {
    if rows != [] {
      InKept(rows[..|rows| - 1], id, r);
      assert r in rows <==> r in rows[..|rows| - 1] || r == rows[|rows| - 1];
    }
  }

  // ------------------------------------------------------------------------- refused points

  predicate NamesPoint(x: SignalRow, step: Step) { x.alpha == step.alpha && x.candle == Some(step.candle) }

  /** A replay is refused exactly when some stored signal of a point's alpha names the point's candle. */
  lemma RefusedIff(t: Tables, steps: seq<Step>)
    ensures AllMissing(t, steps) <==>
      forall n, k :: n in t.signals && 0 <= k < |steps| ==> !NamesPoint(t.signals[n], steps[k])
  {
    if AllMissing(t, steps) {
      forall n, k | n in t.signals && 0 <= k < |steps| ensures !NamesPoint(t.signals[n], steps[k]) {
        assert steps[k] in steps;
      }
    } else {
      var step :| step in steps && Taken(t, step.alpha, step.candle);
      var k :| 0 <= k < |steps| && steps[k] == step;
      var n :| n in t.signals && t.signals[n].alpha == step.alpha && t.signals[n].candle == Some(step.candle);
      assert NamesPoint(t.signals[n], steps[k]);
    }
  }

  /** So a ledger that was applied is refused the next time, whatever else is asked for with it. */
  lemma AppliedIsRefused(known: set<nat>, t: Tables, es: seq<Entry>, slippage: real, i: nat, steps: seq<Step>, k: nat)
    requires UniqueIds(t.positions) && Numbered(t) && ApplyAll(known, t, es, slippage).Ok? && i < |es| && k < |steps|
    requires es[i].alpha == steps[k].alpha && es[i].candle == steps[k].candle
    ensures !AllMissing(ApplyAll(known, t, es, slippage).value, steps)
  {
    AppliedPointsAreTaken(known, t, es, slippage, i);
    assert steps[k] in steps;
  }
}
