/** The replay planner: from the baseline's open book and each point's target weights to a ledger of
    closes and opens.  Its in-memory book is proved to simulate the candidate database. */
module RecoveryReplay {
  import opened Wrappers
  import opened Reals
  import opened RecoveryCandidate
  import SortedKeys
  import W = RecoveryWeights

  // ---------------------------------------------------------------------- the planner's book

  datatype PositionState = PositionState(id: Id, symbol: nat, side: Side, qty: real, fee: real, leverage: real,
                                         price: real)

  /** A Python dictionary by symbol: insertion order matters to the leverage rule. */
  datatype Book = Book(order: seq<nat>, at: map<nat, PositionState>)

  const EMPTY: Book := Book([], map[])

  function Put(b: Book, s: nat, p: PositionState): Book {
    Book(if s in b.at then b.order else b.order + [s], b.at[s := p])
  }

  function StateOf(row: PositionRow): PositionState {
    PositionState(row.id, row.symbol, row.side, row.qty, if row.fee.Some? then row.fee.value else 0.0,
                  if row.meta.leverage.Some? then row.meta.leverage.value else 1.0,
                  if row.meta.decision.Some? then row.meta.decision.value else row.entry)
  }

  /** What loading the rows gives for one alpha. */
  function BookOf(rows: seq<PositionRow>, alpha: nat): Book {
    if rows == [] then EMPTY
    else
      var init, last := BookOf(rows[..|rows| - 1], alpha), rows[|rows| - 1];
      if last.alpha == alpha then Put(init, last.symbol, StateOf(last)) else init
  }

  function BookIn(state: map<nat, Book>, alpha: nat): Book { if alpha in state then state[alpha] else EMPTY }

  method LoadPositionState(rows: seq<PositionRow>) returns (state: map<nat, Book>)
    ensures forall a :: BookIn(state, a) == BookOf(rows, a)
  {
    state := map[];
    for k := 0 to |rows|
      invariant forall a :: BookIn(state, a) == BookOf(rows[..k], a)
    {
      assert rows[..k + 1][..k] == rows[..k];
      var row := rows[k];
      state := state[row.alpha := Put(BookIn(state, row.alpha), row.symbol, StateOf(row))];
    }
    assert rows[..|rows|] == rows;
  }

  /** The leverage stored with the first position, 1 for an empty book. */
  function StrategyLeverage(b: Book): real {
    if b.order != [] && b.order[0] in b.at then b.at[b.order[0]].leverage else 1.0
  }

  // ------------------------------------------------------------------------------- one point

  datatype Config = Config(version: nat, capital: real, feeBps: real)

  type WeightDict = ws: seq<W.Weight> | W.Distinct(ws) witness []

  /** A recovery point with the selection and prices computed for it. */
  datatype Step = Step(alpha: nat, timeframe: nat, candle: int, eventAt: int, weights: WeightDict,
                       prices: map<nat, real>)

  function CloseOf(c: Config, step: Step, p: PositionState): Entry {
    CloseEntry(step.alpha, Logical(step.alpha, c.version, false, p.symbol, step.timeframe, None, p.id, step.candle),
               p.id, p.symbol, p.side,
               if p.symbol in step.prices then step.prices[p.symbol] else p.price, step.candle,
               step.eventAt, p.fee)
  }

  function ClosesFor(c: Config, step: Step, b: Book, symbols: seq<nat>): seq<Entry>
    requires forall s :: s in symbols ==> s in b.at
  {
    if symbols == [] then []
    else ClosesFor(c, step, b, symbols[..|symbols| - 1]) + [CloseOf(c, step, b.at[symbols[|symbols| - 1]])]
  }

  function ByWeight(ws: seq<W.Weight>): map<nat, real> {
    if ws == [] then map[] else ByWeight(ws[..|ws| - 1])[ws[|ws| - 1].symbol := ws[|ws| - 1].value]
  }

  function Targets(step: Step): map<nat, real> { ByWeight(W.BalancedWeights(step.weights, step.prices)) }

  function SideOf(weight: real): Side { if weight > 0.0 then Long else Short }

  function PositionIdOf(step: Step, s: nat, side: Side): Id { Derived(step.alpha, step.candle, s, side) }

  function OpenOf(c: Config, step: Step, leverage: real, s: nat): Entry
    requires s in Targets(step) && s in step.prices && step.prices[s] > 0.0
  {
    var weight, price := Targets(step)[s], step.prices[s];
    var pid := PositionIdOf(step, s, SideOf(weight));
    OpenEntry(step.alpha,
              Logical(step.alpha, c.version, true, s, step.timeframe, Some(SideOf(weight)), pid, step.candle),
              pid, s, SideOf(weight), price, c.capital * Abs(weight) * leverage / price, weight, leverage, step.candle,
              step.eventAt, c.feeBps / 10000.0)
  }

  ghost predicate Openable(step: Step, symbols: seq<nat>) {
    forall s :: s in symbols ==> s in Targets(step) && s in step.prices && step.prices[s] > 0.0
  }

  function OpensFor(c: Config, step: Step, leverage: real, symbols: seq<nat>): seq<Entry>
    requires Openable(step, symbols)
  {
    if symbols == [] then []
    else
      OpensFor(c, step, leverage, symbols[..|symbols| - 1]) + [OpenOf(c, step, leverage, symbols[|symbols| - 1])]
  }

  function OpenedState(e: Entry): PositionState
    requires e.OpenEntry?
  {
    PositionState(e.pid, e.symbol, e.side, e.qty, e.fee, e.leverage, e.price)
  }

  ghost predicate AllOpens(es: seq<Entry>) { forall e :: e in es ==> e.OpenEntry? }

  function BookFrom(es: seq<Entry>): Book
    requires AllOpens(es)
  {
    if es == [] then EMPTY
    else Put(BookFrom(es[..|es| - 1]), es[|es| - 1].symbol, OpenedState(es[|es| - 1]))
  }

  lemma {:induction false} WeightsNameEntries(ws: seq<W.Weight>, s: nat)
    requires s in ByWeight(ws)
    ensures exists w :: w in ws && w.symbol == s
    decreases |ws|
  {
    if ws[|ws| - 1].symbol != s {
      WeightsNameEntries(ws[..|ws| - 1], s);
      var w :| w in ws[..|ws| - 1] && w.symbol == s;
      assert w in ws;
    } else {
      assert ws[|ws| - 1] in ws;
    }
  }

  /** Every target symbol has a positive price, so no quantity divides by zero. */
  lemma TargetsAreOpenable(step: Step)
    ensures Openable(step, SortedKeys.Sorted(Targets(step).Keys))
  {
    SortedKeys.SortedHasAll(Targets(step).Keys);
    forall s | s in Targets(step) ensures s in step.prices && step.prices[s] > 0.0 {
      WeightsNameEntries(W.BalancedWeights(step.weights, step.prices), s);
      var w :| w in W.BalancedWeights(step.weights, step.prices) && w.symbol == s;
      W.BookIsTradable(step.weights, step.prices, w);
    }
  }

  lemma {:induction false} OpensAreOpens(c: Config, step: Step, leverage: real, symbols: seq<nat>)
    requires Openable(step, symbols)
    ensures AllOpens(OpensFor(c, step, leverage, symbols)) && |OpensFor(c, step, leverage, symbols)| == |symbols|
    decreases |symbols|
  {
    if symbols != [] {
      OpensAreOpens(c, step, leverage, symbols[..|symbols| - 1]);
    }
  }

  /** An open is worth its weight's share of the capital, leveraged, on the weight's side. */
  lemma OpenHasItsNotional(c: Config, step: Step, leverage: real, s: nat)
    requires s in Targets(step) && s in step.prices && step.prices[s] > 0.0
    ensures var e := OpenOf(c, step, leverage, s);
      && e.qty * e.price == c.capital * Abs(e.weight) * leverage && e.weight == Targets(step)[s]
      && (e.side == Long <==> e.weight > 0.0) && e.pid == Derived(step.alpha, step.candle, s, e.side)
  {
  }

  lemma {:induction false} BookFromKeepsLeverage(c: Config, step: Step, leverage: real, symbols: seq<nat>)
    requires Openable(step, symbols) && AllOpens(OpensFor(c, step, leverage, symbols))
    ensures var b := BookFrom(OpensFor(c, step, leverage, symbols));
      && (symbols != [] ==> b.order != [])
      && (forall s :: s in b.order ==> s in b.at)
      && (forall s :: s in b.at ==> b.at[s].leverage == leverage)
    decreases |symbols|
  {
    if symbols != [] {
      hide Targets;
      var init := symbols[..|symbols| - 1];
      OpensAreOpens(c, step, leverage, init);
      BookFromKeepsLeverage(c, step, leverage, init);
      var before := OpensFor(c, step, leverage, init);
      var e := OpenOf(c, step, leverage, symbols[|symbols| - 1]);
      assert (before + [e])[..|before|] == before;
    }
  }

  /** The leverage read off a book is the one its successor will be read to have, unless a point leaves no
      position: then the next point starts over at 1. */
  lemma LeveragePersists(c: Config, step: Step, b: Book)
    ensures StrategyLeverage(Reopened(c, step, b)) ==
      if Targets(step) == map[] then 1.0 else StrategyLeverage(b)
  {
    var symbols := SortedKeys.Sorted(Targets(step).Keys);
    SortedKeys.SortedHasAll(Targets(step).Keys);
    TargetsAreOpenable(step);
    OpensAreOpens(c, step, StrategyLeverage(b), symbols);
    BookFromKeepsLeverage(c, step, StrategyLeverage(b), symbols);
    if Targets(step) != map[] {
      var s :| s in Targets(step);
      assert s in symbols;
    }
  }

  function Closes(c: Config, step: Step, b: Book): seq<Entry> {
    SortedKeys.SortedHasAll(b.at.Keys);
    ClosesFor(c, step, b, SortedKeys.Sorted(b.at.Keys))
  }

  function Opens(c: Config, step: Step, b: Book): seq<Entry> {
    TargetsAreOpenable(step);
    OpensFor(c, step, StrategyLeverage(b), SortedKeys.Sorted(Targets(step).Keys))
  }

  function Reopened(c: Config, step: Step, b: Book): Book {
    TargetsAreOpenable(step);
    OpensAreOpens(c, step, StrategyLeverage(b), SortedKeys.Sorted(Targets(step).Keys));
    BookFrom(Opens(c, step, b))
  }

  // -------------------------------------------------------------------------------- the plan

  datatype PlanError = Unconfigured(alpha: nat) | NotMissing

  datatype Plan = Plan(state: map<nat, Book>, entries: seq<Entry>)

  /** Close the alpha's whole book, then open its targets. */
  function PlanStep(c: Config, p: Plan, step: Step): Plan {
    var b := BookIn(p.state, step.alpha);
    Plan(p.state[step.alpha := Reopened(c, step, b)], p.entries + Closes(c, step, b) + Opens(c, step, b))
  }

  function PlanAll(configs: map<nat, Config>, state: map<nat, Book>, steps: seq<Step>): Result<Plan, PlanError> {
    if steps == [] then Ok(Plan(state, []))
    else
      var before, step := PlanAll(configs, state, steps[..|steps| - 1]), steps[|steps| - 1];
      if before.Err? then before
      else if step.alpha !in configs then Err(Unconfigured(step.alpha))
      else Ok(PlanStep(configs[step.alpha], before.value, step))
  }

  ghost predicate AllMissing(t: Tables, steps: seq<Step>) {
    forall step :: step in steps ==> !Taken(t, step.alpha, step.candle)
  }

  predicate Conflicting(t: Tables, step: Step) {
    exists n | n in t.signals :: t.signals[n].alpha == step.alpha && t.signals[n].candle == Some(step.candle)
  }

  /** Refuses a target cycle that already has signals. */
  method AssertPointsAreMissing(t: Tables, steps: seq<Step>) returns (ok: bool)
    ensures ok <==> AllMissing(t, steps)
  {
    ok := true;
    for k := 0 to |steps|
      invariant ok <==> AllMissing(t, steps[..k])
    {
      assert steps[..k + 1] == steps[..k] + [steps[k]];
      assert Conflicting(t, steps[k]) <==> Taken(t, steps[k].alpha, steps[k].candle);
      if Conflicting(t, steps[k]) {
        ok := false;
      }
    }
    assert steps[..|steps|] == steps;
  }

  method AppendCloses(c: Config, step: Step, current: Book, entries: seq<Entry>) returns (out: seq<Entry>)
    ensures out == entries + Closes(c, step, current)
  {
    var symbols := SortedKeys.Sorted(current.at.Keys);
    SortedKeys.SortedHasAll(current.at.Keys);
    out := entries;
    for k := 0 to |symbols|
      invariant out == entries + ClosesFor(c, step, current, symbols[..k])
    {
      assert symbols[..k + 1][..k] == symbols[..k];
      assert symbols[..k + 1][k] in symbols;
      out := out + [CloseOf(c, step, current.at[symbols[k]])];
    }
    assert symbols[..|symbols|] == symbols;
  }

  /** Where the opening loop stands after k symbols. */
  ghost predicate OpenedSoFar(c: Config, step: Step, leverage: real, symbols: seq<nat>, k: nat, out: seq<Entry>,
                              next: Book)
    requires k <= |symbols|
  {
    && Openable(step, symbols[..k])
    && out == OpensFor(c, step, leverage, symbols[..k])
    && AllOpens(out) && next == BookFrom(out)
  }

  lemma OneMoreOpen(c: Config, step: Step, leverage: real, symbols: seq<nat>, k: nat, out: seq<Entry>, next: Book)
    requires k < |symbols| && Openable(step, symbols) && OpenedSoFar(c, step, leverage, symbols, k, out, next)
    ensures symbols[k] in Targets(step) && symbols[k] in step.prices && step.prices[symbols[k]] > 0.0
    ensures var e := OpenOf(c, step, leverage, symbols[k]);
      OpenedSoFar(c, step, leverage, symbols, k + 1, out + [e], Put(next, symbols[k], OpenedState(e)))
  {
    hide Targets;
    assert symbols[..k + 1][..k] == symbols[..k];
    assert symbols[k] in symbols;
    assert Openable(step, symbols[..k + 1]);
    var e := OpenOf(c, step, leverage, symbols[k]);
    assert (out + [e])[..|out|] == out;
  }

  /** Opens each target and enters it in the cleared book. */
  method AppendOpens(c: Config, step: Step, current: Book, entries: seq<Entry>)
    returns (out: seq<Entry>, next: Book)
    ensures out == entries + Opens(c, step, current) && next == Reopened(c, step, current)
  {
    var symbols := SortedKeys.Sorted(Targets(step).Keys);
    var leverage := StrategyLeverage(current);
    TargetsAreOpenable(step);
    var added: seq<Entry>;
    added, next := OpenEach(c, step, leverage, symbols);
    assert symbols[..|symbols|] == symbols;
    out := entries + added;
  }

  method OpenEach(c: Config, step: Step, leverage: real, symbols: seq<nat>) returns (out: seq<Entry>, next: Book)
    requires Openable(step, symbols)
    ensures OpenedSoFar(c, step, leverage, symbols, |symbols|, out, next)
  {
    out, next := [], EMPTY;
    for k := 0 to |symbols|
      invariant OpenedSoFar(c, step, leverage, symbols, k, out, next)
    {
      hide OpenedSoFar, Targets, Put, OpenedState, OpenOf;
      OneMoreOpen(c, step, leverage, symbols, k, out, next);
      var e := OpenOf(c, step, leverage, symbols[k]);
      out, next := out + [e], Put(next, symbols[k], OpenedState(e));
    }
  }

  method BuildRecoveryLedger(baseline: Tables, configs: map<nat, Config>, steps: seq<Step>)
    returns (ledger: Result<seq<Entry>, PlanError>)
    ensures !AllMissing(baseline, steps) ==> ledger == Err(NotMissing)
    ensures AllMissing(baseline, steps) ==>
      exists state: map<nat, Book> :: (forall a :: BookIn(state, a) == BookOf(baseline.positions, a)) &&
        ledger == LedgerOf(PlanAll(configs, state, steps))
  {
    var missing := AssertPointsAreMissing(baseline, steps);
    if !missing {
      return Err(NotMissing);
    }
    var state: map<nat, Book> := LoadPositionState(baseline.positions);
    ghost var loaded := state;
    var entries: seq<Entry> := [];
    for k := 0 to |steps|
      invariant PlanAll(configs, loaded, steps[..k]) == Ok(Plan(state, entries))
    {
      hide Closes, Opens, Reopened;
      assert steps[..k + 1][..k] == steps[..k];
      var step := steps[k];
      if step.alpha !in configs {
        PlanFailureStays(configs, loaded, steps, k + 1);
        return Err(Unconfigured(step.alpha));
      }
      var current := BookIn(state, step.alpha);
      entries := AppendCloses(configs[step.alpha], step, current, entries);
      var next: Book;
      entries, next := AppendOpens(configs[step.alpha], step, current, entries);
      state := state[step.alpha := next];
    }
    assert steps[..|steps|] == steps;
    ledger := Ok(entries);
  }

  function LedgerOf(r: Result<Plan, PlanError>): Result<seq<Entry>, PlanError> {
    if r.Ok? then Ok(r.value.entries) else Err(r.error)
  }

  lemma {:induction false} PlanFailureStays(configs: map<nat, Config>, state: map<nat, Book>, steps: seq<Step>, k: nat)
    requires k <= |steps| && PlanAll(configs, state, steps[..k]).Err?
    ensures PlanAll(configs, state, steps) == PlanAll(configs, state, steps[..k])
    decreases |steps|
  {
    hide PlanStep;
    if k == |steps| {
      assert steps[..k] == steps;
    } else {
      assert steps[..|steps| - 1][..k] == steps[..k];
      PlanFailureStays(configs, state, steps[..|steps| - 1], k);
    }
  }

  /** The plan for the first points is the start of the plan for all of them: each of its ends is an
      end of a point in the whole ledger. */
  lemma {:induction false} PlanPrefix(configs: map<nat, Config>, state: map<nat, Book>, steps: seq<Step>, k: nat)
    requires k <= |steps| && PlanAll(configs, state, steps).Ok?
    ensures PlanAll(configs, state, steps[..k]).Ok?
    ensures PlanAll(configs, state, steps[..k]).value.entries <= PlanAll(configs, state, steps).value.entries
    decreases |steps|
  {
    hide Closes, Opens, Reopened;
    if k == |steps| {
      assert steps[..k] == steps;
    } else {
      assert steps[..|steps| - 1][..k] == steps[..k];
      PlanPrefix(configs, state, steps[..|steps| - 1], k);
    }
  }
}
