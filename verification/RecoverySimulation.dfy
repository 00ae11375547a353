/** The planner's in-memory book simulates the candidate database: from a baseline with one position
    per symbol of the ledger's alphas, a replay ledger never misses or mistakes a position.  It applies
    unless a position it closes has its closing trade already, and after every point the open rows are
    exactly the planner's book. */
module RecoverySimulation {
  import opened Wrappers
  import opened RecoveryCandidate
  import opened RecoveryReplay
  import SortedKeys

  // ---------------------------------------------------------------- what a sound database is

  ghost predicate SlotFree(rows: seq<PositionRow>, alpha: nat, symbol: nat) {
    forall r :: r in rows ==> !(r.alpha == alpha && r.symbol == symbol)
  }

  /** At most one position per symbol for each of these alphas. */
  ghost predicate UniqueSlots(rows: seq<PositionRow>, scope: set<nat>) {
    rows == [] ||
    var init, last := rows[..|rows| - 1], rows[|rows| - 1];
    UniqueSlots(init, scope) && (last.alpha in scope ==> SlotFree(init, last.alpha, last.symbol))
  }

  ghost predicate Sound(t: Tables, scope: set<nat>) {
    UniqueIds(t.positions) && UniqueSlots(t.positions, scope) && Numbered(t)
  }

  /** No open position of the alpha has its closing trade already. */
  ghost predicate Untraded(t: Tables, alpha: nat) {
    forall r :: r in t.positions && r.alpha == alpha ==> r.id !in t.trades
  }

  predicate Names(id: Id, step: Step) { id.Derived? && id.alpha == step.alpha && id.candle == step.candle }

  /** None of the ids this point derives is in use. */
  ghost predicate Unused(t: Tables, step: Step) {
    (forall id :: id in t.trades ==> !Names(id, step)) && (forall r :: r in t.positions ==> !Names(r.id, step))
  }

  ghost predicate AllUnused(t: Tables, steps: seq<Step>) { forall step :: step in steps ==> Unused(t, step) }

  predicate SamePoint(a: Step, b: Step) { a.alpha == b.alpha && a.candle == b.candle }

  ghost predicate Apart(steps: seq<Step>, step: Step) { forall s :: s in steps ==> !SamePoint(s, step) }

  ghost predicate DistinctPoints(steps: seq<Step>) {
    steps == [] || (DistinctPoints(steps[..|steps| - 1]) && Apart(steps[..|steps| - 1], steps[|steps| - 1]))
  }

  /** The planner's book is the loaded book, alpha by alpha. */
  ghost predicate Mirrors(state: map<nat, Book>, rows: seq<PositionRow>) {
    forall a :: BookIn(state, a) == BookOf(rows, a)
  }

  // ------------------------------------------------------------------- rows behind the book

  /** A book entry has its row, found by its id. */
  lemma {:induction false} EntryHasRow(rows: seq<PositionRow>, a: nat, s: nat)
    requires UniqueIds(rows) && s in BookOf(rows, a).at
    ensures var found := RowById(rows, BookOf(rows, a).at[s].id);
      found.Some? && found.value.alpha == a && found.value.symbol == s && StateOf(found.value) == BookOf(rows, a).at[s]
    decreases |rows|
  {
    var init, last := rows[..|rows| - 1], rows[|rows| - 1];
    if !(last.alpha == a && last.symbol == s) {
      EntryHasRow(init, a, s);
      FoundIsRow(init, BookOf(init, a).at[s].id);
    }
  }

  /** A row has its book entry. */
  lemma {:induction false} RowHasEntry(rows: seq<PositionRow>, scope: set<nat>, r: PositionRow)
    requires UniqueSlots(rows, scope) && r in rows && r.alpha in scope
    ensures r.symbol in BookOf(rows, r.alpha).at && BookOf(rows, r.alpha).at[r.symbol] == StateOf(r)
    decreases |rows|
  {
    if r != rows[|rows| - 1] {
      RowHasEntry(rows[..|rows| - 1], scope, r);
    }
  }

  lemma IdsDiffer(rows: seq<PositionRow>, a: nat, s: nat, s': nat)
    requires UniqueIds(rows) && s in BookOf(rows, a).at && s' in BookOf(rows, a).at && s != s'
    ensures BookOf(rows, a).at[s].id != BookOf(rows, a).at[s'].id
  {
    EntryHasRow(rows, a, s);
    EntryHasRow(rows, a, s');
  }

  // ----------------------------------------------------------------------- the closing phase

  function IdsOf(b: Book, symbols: seq<nat>): set<Id>
    requires forall s :: s in symbols ==> s in b.at
  {
    if symbols == [] then {} else IdsOf(b, symbols[..|symbols| - 1]) + {b.at[symbols[|symbols| - 1]].id}
  }

  lemma {:induction false} InIds(b: Book, symbols: seq<nat>, id: Id)
    requires forall s :: s in symbols ==> s in b.at
    ensures id in IdsOf(b, symbols) <==> exists s :: s in symbols && b.at[s].id == id
    decreases |symbols|
  {
    if symbols != [] {
      var init, last := symbols[..|symbols| - 1], symbols[|symbols| - 1];
      InIds(b, init, id);
      assert last in symbols;
      forall s | s in symbols ensures s in init || s == last {}
    }
  }

  lemma {:induction false} KeepKeep(rows: seq<PositionRow>, a: set<Id>, b: set<Id>)
    ensures Keep(Keep(rows, a), b) == Keep(rows, a + b)
    decreases |rows|
  {
    if rows != [] {
      KeepKeep(rows[..|rows| - 1], a, b);
      var init := Keep(rows[..|rows| - 1], a);
      assert (init + [rows[|rows| - 1]])[..|init|] == init;
    }
  }

  /** The ids behind an ascending list of symbols do not include the next symbol's. */
  lemma NextIdIsNew(rows: seq<PositionRow>, a: nat, symbols: seq<nat>)
    requires UniqueIds(rows) && symbols != [] && SortedKeys.Ascending(symbols)
    requires forall s :: s in symbols ==> s in BookOf(rows, a).at
    ensures BookOf(rows, a).at[symbols[|symbols| - 1]].id !in IdsOf(BookOf(rows, a), symbols[..|symbols| - 1])
  {
    var init, last := symbols[..|symbols| - 1], symbols[|symbols| - 1];
    InIds(BookOf(rows, a), init, BookOf(rows, a).at[last].id);
    forall s | s in init ensures BookOf(rows, a).at[s].id != BookOf(rows, a).at[last].id {
      assert s < last;
      IdsDiffer(rows, a, s, last);
    }
  }

  /** None of these entries has its closing trade already. */
  ghost predicate NoneTraded(t: Tables, b: Book, symbols: seq<nat>)
    requires forall s :: s in symbols ==> s in b.at
  {
    forall s :: s in symbols ==> b.at[s].id !in t.trades
  }

  lemma NoneTradedOfMore(t: Tables, b: Book, symbols: seq<nat>)
    requires symbols != [] && forall s :: s in symbols ==> s in b.at
    ensures NoneTraded(t, b, symbols) <==>
      NoneTraded(t, b, symbols[..|symbols| - 1]) && b.at[symbols[|symbols| - 1]].id !in t.trades
  {
    assert symbols == symbols[..|symbols| - 1] + [symbols[|symbols| - 1]];
  }

  /** The closes went through exactly if none of the entries has its trade already, and then removed exactly their
      rows and recorded exactly their trades; any failure is a clash of trade ids. */
  ghost predicate ClosesDone(done: Result<Tables, Error>, t: Tables, b: Book, symbols: seq<nat>)
    requires forall s :: s in symbols ==> s in b.at
  {
    && (done.Ok? <==> NoneTraded(t, b, symbols)) && (done.Err? ==> done.error.Integrity?)
    && (done.Ok? ==> done.value.positions == Keep(t.positions, IdsOf(b, symbols)))
    && (done.Ok? ==> done.value.trades.Keys == t.trades.Keys + IdsOf(b, symbols))
  }

  /** Closing some of an alpha's symbols finds every position. */
  lemma {:induction false} ClosePhase(known: set<nat>, t: Tables, c: Config, step: Step, symbols: seq<nat>,
                                      slippage: real)
    requires UniqueIds(t.positions) && step.alpha in known && SortedKeys.Ascending(symbols)
    requires forall s :: s in symbols ==> s in BookOf(t.positions, step.alpha).at
    ensures var b := BookOf(t.positions, step.alpha);
      ClosesDone(ApplyAll(known, t, ClosesFor(c, step, b, symbols), slippage), t, b, symbols)
    decreases |symbols|
  {
    if symbols == [] {
      KeepNone(t.positions);
    } else {
      hide ClosesDone, BookOf, ClosesFor, ApplyAll, UniqueIds;
      InitAscends(symbols);
      ClosePhase(known, t, c, step, symbols[..|symbols| - 1], slippage);
      CloseOneMore(known, t, c, step, symbols, slippage);
    }
  }

  lemma InitAscends(symbols: seq<nat>)
    requires symbols != [] && SortedKeys.Ascending(symbols)
    ensures SortedKeys.Ascending(symbols[..|symbols| - 1])
  {
  }

  lemma CloseOneMore(known: set<nat>, t: Tables, c: Config, step: Step, symbols: seq<nat>, slippage: real)
    requires UniqueIds(t.positions) && step.alpha in known && symbols != [] && SortedKeys.Ascending(symbols)
    requires forall s :: s in symbols ==> s in BookOf(t.positions, step.alpha).at
    requires var b, init := BookOf(t.positions, step.alpha), symbols[..|symbols| - 1];
      ClosesDone(ApplyAll(known, t, ClosesFor(c, step, b, init), slippage), t, b, init)
    ensures var b := BookOf(t.positions, step.alpha);
      ClosesDone(ApplyAll(known, t, ClosesFor(c, step, b, symbols), slippage), t, b, symbols)
  {
    hide NoneTraded, Apply, SortedKeys.Ascending, CloseOf, BookOf, UniqueIds, Keep, IdsOf;
    var b, init, last := BookOf(t.positions, step.alpha), symbols[..|symbols| - 1], symbols[|symbols| - 1];
    NoneTradedOfMore(t, b, symbols);
    var before := ClosesFor(c, step, b, init);
    assert (before + [CloseOf(c, step, b.at[last])])[..|before|] == before;
    if NoneTraded(t, b, init) {
      CloseNext(known, t, ApplyAll(known, t, before, slippage).value, c, step, symbols, slippage);
    }
  }

  lemma {:induction false} KeepNone(rows: seq<PositionRow>)
    ensures Keep(rows, {}) == rows
    decreases |rows|
  {
    if rows != [] {
      KeepNone(rows[..|rows| - 1]);
    }
  }

  lemma CloseNext(known: set<nat>, t: Tables, mid: Tables, c: Config, step: Step, symbols: seq<nat>, slippage: real)
    requires UniqueIds(t.positions) && step.alpha in known && symbols != [] && SortedKeys.Ascending(symbols)
    requires forall s :: s in symbols ==> s in BookOf(t.positions, step.alpha).at
    requires var b := BookOf(t.positions, step.alpha);
      && mid.positions == Keep(t.positions, IdsOf(b, symbols[..|symbols| - 1]))
      && mid.trades.Keys == t.trades.Keys + IdsOf(b, symbols[..|symbols| - 1])
    ensures var b, last := BookOf(t.positions, step.alpha), symbols[|symbols| - 1];
      var done := Apply(known, mid, CloseOf(c, step, b.at[last]), slippage);
      && (done.Ok? <==> b.at[last].id !in t.trades) && (done.Err? ==> done.error.Integrity?)
      && (done.Ok? ==> done.value.positions == Keep(t.positions, IdsOf(b, symbols)))
      && (done.Ok? ==> done.value.trades.Keys == t.trades.Keys + IdsOf(b, symbols))
  {
    hide Apply;
    var b, last := BookOf(t.positions, step.alpha), symbols[|symbols| - 1];
    var gone := IdsOf(b, symbols[..|symbols| - 1]);
    NextIdIsNew(t.positions, step.alpha, symbols);
    EntryHasRow(t.positions, step.alpha, last);
    FoundIsRow(t.positions, b.at[last].id);
    IdAfterKeep(t.positions, gone, b.at[last].id);
    KeepKeep(t.positions, gone, {b.at[last].id});
    assert IdsOf(b, symbols) == gone + {b.at[last].id};
    CloseApplies(known, mid, CloseOf(c, step, b.at[last]), slippage);
  }

  /** The close of a position that is there, as the entry says, fails only on a trade with its id. */
  lemma CloseApplies(known: set<nat>, t: Tables, e: Entry, slippage: real)
    requires e.CloseEntry? && RowById(t.positions, e.pid).Some? && e.alpha in known
    requires var row := RowById(t.positions, e.pid).value;
      row.alpha == e.alpha && row.symbol == e.symbol && row.side == e.side
    ensures var done := Apply(known, t, e, slippage);
      && (done.Ok? <==> e.pid !in t.trades) && (done.Err? ==> done.error == Integrity(e.pid))
      && (done.Ok? ==> done.value.positions == Keep(t.positions, {e.pid}))
      && (done.Ok? ==> done.value.trades.Keys == t.trades.Keys + {e.pid})
  {
    hide TradeOf;
  }

  /** The trade a close writes carries the planner's quantity, and the planner's fee rate even where the row has
      none. */
  lemma TradeFollowsPlan(known: set<nat>, t: Tables, c: Config, step: Step, s: nat, slippage: real)
    requires UniqueIds(t.positions) && step.alpha in known && s in BookOf(t.positions, step.alpha).at
    ensures var p := BookOf(t.positions, step.alpha).at[s];
      var done := Apply(known, t, CloseOf(c, step, p), slippage);
      && (done.Ok? <==> p.id !in t.trades)
      && (done.Ok? ==> p.id in done.value.trades && FollowsPlan(done.value.trades[p.id], p))
  {
    var p := BookOf(t.positions, step.alpha).at[s];
    EntryHasRow(t.positions, step.alpha, s);
    FoundIsRow(t.positions, p.id);
    TradeTakesRates(RowById(t.positions, p.id).value, CloseOf(c, step, p), slippage);
    hide TradeOf;
  }

  predicate FollowsPlan(x: TradeRow, p: PositionState) {
    x.qty == p.qty && x.fee == (x.entry + x.exit) * p.qty * p.fee
  }

  lemma TradeTakesRates(row: PositionRow, e: Entry, slippage: real)
    requires e.CloseEntry?
    ensures var x := TradeOf(row, e, slippage);
      x.qty == row.qty && x.fee == (x.entry + x.exit) * row.qty * Rate(row.fee, e.fee)
  {
  }

  /** The rows of the other alphas. */
  lemma {:induction false} KeepIsOffBook(rows: seq<PositionRow>, gone: set<Id>, a: nat)
    requires forall r :: r in rows ==> (r.id in gone <==> r.alpha == a)
    ensures Keep(rows, gone) == OffBook(rows, {a})
    decreases |rows|
  {
    if rows != [] {
      KeepIsOffBook(rows[..|rows| - 1], gone, a);
      assert rows[|rows| - 1] in rows;
    }
  }

  /** The id of a row of this alpha. */
  predicate IsOwn(rows: seq<PositionRow>, id: Id, a: nat) {
    RowById(rows, id).Some? && RowById(rows, id).value.alpha == a
  }

  /** Closing the whole book removes every row of the alpha and no other. */
  lemma WholeBookIsGone(rows: seq<PositionRow>, scope: set<nat>, a: nat)
    requires UniqueIds(rows) && UniqueSlots(rows, scope) && a in scope
    ensures forall s :: s in SortedKeys.Sorted(BookOf(rows, a).at.Keys) <==> s in BookOf(rows, a).at
    ensures Keep(rows, IdsOf(BookOf(rows, a), SortedKeys.Sorted(BookOf(rows, a).at.Keys))) == OffBook(rows, {a})
    ensures forall id :: id in IdsOf(BookOf(rows, a), SortedKeys.Sorted(BookOf(rows, a).at.Keys)) <==>
      IsOwn(rows, id, a)
  {
    var b := BookOf(rows, a);
    var symbols := SortedKeys.Sorted(b.at.Keys);
    SortedKeys.SortedHasAll(b.at.Keys);
    var gone := IdsOf(b, symbols);
    forall r | r in rows ensures r.id in gone <==> r.alpha == a {
      InIds(b, symbols, r.id);
      RowIsFound(rows, r);
      if r.alpha == a {
        RowHasEntry(rows, scope, r);
        assert b.at[r.symbol].id == r.id;
      }
      if s :| s in symbols && b.at[s].id == r.id {
        EntryHasRow(rows, a, s);
      }
    }
    KeepIsOffBook(rows, gone, a);
    forall id ensures id in gone <==> IsOwn(rows, id, a) {
      InIds(b, symbols, id);
      FoundIsRow(rows, id);
      if s :| s in symbols && b.at[s].id == id {
        EntryHasRow(rows, a, s);
      }
    }
  }

  // ----------------------------------------------------------------------- the opening phase

  function RowsFrom(es: seq<Entry>, slippage: real): seq<PositionRow>
    requires AllOpens(es)
  {
    if es == [] then [] else RowsFrom(es[..|es| - 1], slippage) + [RowOf(es[|es| - 1], slippage)]
  }

  /** What opening adds: one row per symbol, all of this alpha, with ids derived from the point. */
  ghost predicate Fresh(rows: seq<PositionRow>, step: Step, symbols: seq<nat>) {
    forall r :: r in rows ==>
      Names(r.id, step) && r.alpha == step.alpha && r.symbol in symbols && r.id.symbol == r.symbol
  }

  lemma {:induction false} OpenedRowsAreFresh(c: Config, step: Step, leverage: real, symbols: seq<nat>, slippage: real)
    requires Openable(step, symbols) && AllOpens(OpensFor(c, step, leverage, symbols))
    ensures Fresh(RowsFrom(OpensFor(c, step, leverage, symbols), slippage), step, symbols)
    decreases |symbols|
  {
    if symbols != [] {
      var init := symbols[..|symbols| - 1];
      OpensAreOpens(c, step, leverage, init);
      OpenedRowsAreFresh(c, step, leverage, init, slippage);
      var before := OpensFor(c, step, leverage, init);
      assert (before + [OpenOf(c, step, leverage, symbols[|symbols| - 1])])[..|before|] == before;
    }
  }

  lemma AppendRow(rows: seq<PositionRow>, scope: set<nat>, row: PositionRow)
    requires UniqueIds(rows) && UniqueSlots(rows, scope)
    requires RowById(rows, row.id).None? && SlotFree(rows, row.alpha, row.symbol)
    ensures UniqueIds(rows + [row]) && UniqueSlots(rows + [row], scope)
  {
  }

  lemma OpenShape(c: Config, step: Step, leverage: real, s: nat)
    requires Openable(step, [s])
    ensures var e := OpenOf(c, step, leverage, s);
      e.OpenEntry? && Names(e.pid, step) && e.pid.symbol == e.symbol == s && e.alpha == step.alpha
  {
  }

  /** Opens that all apply, each appending its row. */
  ghost predicate OpensApply(known: set<nat>, scope: set<nat>, t: Tables, opens: seq<Entry>, slippage: real)
    requires AllOpens(opens)
  {
    var done := ApplyAll(known, t, opens, slippage);
    && done.Ok? && done.value.positions == t.positions + RowsFrom(opens, slippage)
    && done.value.trades == t.trades
    && UniqueIds(done.value.positions) && UniqueSlots(done.value.positions, scope)
  }

  lemma OneMoreApplies(known: set<nat>, scope: set<nat>, t: Tables, before: seq<Entry>, step: Step, e: Entry,
                       symbols: seq<nat>, slippage: real)
    requires AllOpens(before) && OpensApply(known, scope, t, before, slippage) && Unused(t, step)
    requires symbols != [] && SortedKeys.Ascending(symbols)
    requires Fresh(RowsFrom(before, slippage), step, symbols[..|symbols| - 1])
    requires forall r :: r in t.positions ==> r.alpha != step.alpha
    requires e.OpenEntry? && Names(e.pid, step) && e.pid.symbol == e.symbol == symbols[|symbols| - 1]
    requires e.alpha == step.alpha && e.alpha in known
    ensures AllOpens(before + [e]) && OpensApply(known, scope, t, before + [e], slippage)
  {
    hide Apply, RowOf, Unused, Fresh, UniqueIds, UniqueSlots, SortedKeys.Ascending, Names;
    var mid, added := ApplyAll(known, t, before, slippage).value, RowsFrom(before, slippage);
    OpenNext(known, scope, t, mid, added, step, e, symbols, slippage);
    assert (before + [e])[..|before|] == before;
    assert t.positions + (added + [RowOf(e, slippage)]) == t.positions + added + [RowOf(e, slippage)];
  }

  /** Opening the first symbols succeeds and appends their rows. */
  lemma {:induction false} OpenPhase(known: set<nat>, scope: set<nat>, t: Tables, c: Config, step: Step,
                                     leverage: real, symbols: seq<nat>, slippage: real)
    requires UniqueIds(t.positions) && UniqueSlots(t.positions, scope) && step.alpha in known && Unused(t, step)
    requires Openable(step, symbols) && SortedKeys.Ascending(symbols) && AllOpens(OpensFor(c, step, leverage, symbols))
    requires forall r :: r in t.positions ==> r.alpha != step.alpha
    ensures OpensApply(known, scope, t, OpensFor(c, step, leverage, symbols), slippage)
    decreases |symbols|
  {
    if symbols == [] {
      assert t.positions + RowsFrom([], slippage) == t.positions;
    } else {
      hide OpensApply, OpenOf, Unused, Fresh, UniqueIds, UniqueSlots;
      var init, last := symbols[..|symbols| - 1], symbols[|symbols| - 1];
      OpensAreOpens(c, step, leverage, init);
      OpenPhase(known, scope, t, c, step, leverage, init, slippage);
      OpenedRowsAreFresh(c, step, leverage, init, slippage);
      assert last in symbols && Openable(step, [last]);
      OpenShape(c, step, leverage, last);
      OneMoreApplies(known, scope, t, OpensFor(c, step, leverage, init), step, OpenOf(c, step, leverage, last), symbols,
                     slippage);
    }
  }

  lemma OpenNext(known: set<nat>, scope: set<nat>, t: Tables, mid: Tables, added: seq<PositionRow>, step: Step,
                 e: Entry, symbols: seq<nat>, slippage: real)
    requires Unused(t, step) && mid.positions == t.positions + added && UniqueIds(mid.positions)
    requires UniqueSlots(mid.positions, scope)
    requires symbols != [] && SortedKeys.Ascending(symbols) && Fresh(added, step, symbols[..|symbols| - 1])
    requires forall r :: r in t.positions ==> r.alpha != step.alpha
    requires e.OpenEntry? && Names(e.pid, step) && e.pid.symbol == e.symbol == symbols[|symbols| - 1]
    requires e.alpha == step.alpha && e.alpha in known
    ensures var done := Apply(known, mid, e, slippage);
      && done.Ok? && done.value.positions == mid.positions + [RowOf(e, slippage)] && done.value.trades == mid.trades
      && UniqueIds(done.value.positions) && UniqueSlots(done.value.positions, scope)
  {
    hide FixedFill;
    FoundIsRow(mid.positions, e.pid);
    forall r | r in mid.positions ensures r.id != e.pid && !(r.alpha == e.alpha && r.symbol == e.symbol) {
      if r in added {
        assert r.symbol < e.symbol;
      }
    }
    AppendRow(mid.positions, scope, RowOf(e, slippage));
  }

  // ----------------------------------------------------------------- the book of the new rows

  lemma {:induction false} BookOfConcat(rows: seq<PositionRow>, added: seq<PositionRow>, b: nat)
    requires forall r :: r in added ==> r.alpha != b
    ensures BookOf(rows + added, b) == BookOf(rows, b)
    decreases |added|
  {
    if added == [] {
      assert rows + added == rows;
    } else {
      assert (rows + added)[..|rows + added| - 1] == rows + added[..|added| - 1];
      BookOfConcat(rows, added[..|added| - 1], b);
    }
  }

  lemma {:induction false} BookOfOthers(rows: seq<PositionRow>, a: nat, b: nat)
    ensures BookOf(OffBook(rows, {a}), b) == if a == b then EMPTY else BookOf(rows, b)
    decreases |rows|
  {
    if rows != [] {
      BookOfOthers(rows[..|rows| - 1], a, b);
      var init := OffBook(rows[..|rows| - 1], {a});
      assert (init + [rows[|rows| - 1]])[..|init|] == init;
    }
  }

  /** Loading the rows that opens wrote gives the planner's own entries, decision price and all. */
  lemma {:induction false} BookOfOpened(rows: seq<PositionRow>, es: seq<Entry>, a: nat, slippage: real)
    requires AllOpens(es) && (forall e :: e in es ==> e.alpha == a) && BookOf(rows, a) == EMPTY
    ensures BookOf(rows + RowsFrom(es, slippage), a) == BookFrom(es)
    decreases |es|
  {
    if es == [] {
      assert rows + RowsFrom(es, slippage) == rows;
    } else {
      var init, last := es[..|es| - 1], es[|es| - 1];
      BookOfOpened(rows, init, a, slippage);
      var all := rows + RowsFrom(es, slippage);
      assert all[..|all| - 1] == rows + RowsFrom(init, slippage);
      assert StateOf(RowOf(last, slippage)) == OpenedState(last);
    }
  }

  lemma {:induction false} OpensAreOwn(c: Config, step: Step, leverage: real, symbols: seq<nat>)
    requires Openable(step, symbols)
    ensures forall e :: e in OpensFor(c, step, leverage, symbols) ==> e.alpha == step.alpha
    decreases |symbols|
  {
    if symbols != [] {
      OpensAreOwn(c, step, leverage, symbols[..|symbols| - 1]);
    }
  }

  // ---------------------------------------------------------------------------- one whole point

  lemma {:induction false} OffBookRows(rows: seq<PositionRow>, a: nat, r: PositionRow)
    ensures r in OffBook(rows, {a}) <==> r in rows && r.alpha != a
    decreases |rows|
  {
    if rows != [] {
      OffBookRows(rows[..|rows| - 1], a, r);
      assert r in rows <==> r in rows[..|rows| - 1] || r == rows[|rows| - 1];
    }
  }

  lemma {:induction false} OffBookUnique(rows: seq<PositionRow>, scope: set<nat>, a: nat)
    requires UniqueSlots(rows, scope)
    ensures UniqueSlots(OffBook(rows, {a}), scope)
    decreases |rows|
  {
    if rows != [] {
      var init, last := rows[..|rows| - 1], rows[|rows| - 1];
      OffBookUnique(init, scope, a);
      var kept := OffBook(init, {a});
      assert (kept + [last])[..|kept|] == kept;
      forall r | r in kept && last.alpha in scope ensures !(r.alpha == last.alpha && r.symbol == last.symbol) {
        OffBookRows(init, a, r);
      }
    }
  }

  /** The rows and trades after a point: the alpha's rows are new, the others as before, and exactly the alpha's
      closed positions have become trades. */
  ghost predicate Moved(t: Tables, after: Tables, step: Step) {
    && (forall r :: r in after.positions ==>
          if r.alpha == step.alpha then Names(r.id, step) else r in t.positions)
    && (forall r :: r in t.positions && r.alpha != step.alpha ==> r in after.positions)
    && (forall id :: id in after.trades <==> id in t.trades || IsOwn(t.positions, id, step.alpha))
  }

  /** The closes of a point go through exactly if none of the alpha's positions has its trade already.  Then they
      empty the alpha's book and leave the others alone. */
  lemma CloseAll(known: set<nat>, scope: set<nat>, t: Tables, c: Config, step: Step, slippage: real)
    requires Sound(t, scope) && Unused(t, step) && step.alpha in known && step.alpha in scope
    ensures var b := BookOf(t.positions, step.alpha);
      var done := ApplyAll(known, t, Closes(c, step, b), slippage);
      && (done.Ok? <==> Untraded(t, step.alpha)) && (done.Err? ==> done.error.Integrity?)
      && (done.Ok? ==> done.value.positions == OffBook(t.positions, {step.alpha}))
      && (done.Ok? ==> Sound(done.value, scope) && Unused(done.value, step))
      && (done.Ok? ==>
            forall id :: id in done.value.trades <==> id in t.trades || IsOwn(t.positions, id, step.alpha))
  {
    var b := BookOf(t.positions, step.alpha);
    var symbols := SortedKeys.Sorted(b.at.Keys);
    WholeBookIsGone(t.positions, scope, step.alpha);
    SortedKeys.SortedIsAscending(b.at.Keys);
    ClosePhase(known, t, c, step, symbols, slippage);
    UntradedBook(t, scope, step.alpha, symbols);
    if Untraded(t, step.alpha) {
      hide Untraded, NoneTraded;
      CandidateExtends(known, t, Closes(c, step, b), slippage);
      OffBookUnique(t.positions, scope, step.alpha);
      var after := ApplyAll(known, t, Closes(c, step, b), slippage).value;
      forall r | r in after.positions ensures r in t.positions {
        OffBookRows(t.positions, step.alpha, r);
      }
      forall id | id in after.trades ensures !Names(id, step) {
        if id !in t.trades {
          FoundIsRow(t.positions, id);
        }
      }
    }
  }

  /** The whole book has no trades exactly if the alpha's rows have none. */
  lemma UntradedBook(t: Tables, scope: set<nat>, a: nat, symbols: seq<nat>)
    requires UniqueIds(t.positions) && UniqueSlots(t.positions, scope) && a in scope
    requires forall s :: s in symbols <==> s in BookOf(t.positions, a).at
    ensures NoneTraded(t, BookOf(t.positions, a), symbols) <==> Untraded(t, a)
  {
    var b := BookOf(t.positions, a);
    if NoneTraded(t, b, symbols) {
      forall r | r in t.positions && r.alpha == a ensures r.id !in t.trades {
        RowHasEntry(t.positions, scope, r);
        assert r.symbol in symbols;
      }
    }
    if Untraded(t, a) {
      forall s | s in symbols ensures b.at[s].id !in t.trades {
        EntryHasRow(t.positions, a, s);
        FoundIsRow(t.positions, b.at[s].id);
      }
    }
  }

  /** The opens of a point, on the emptied book. */
  lemma OpenAll(known: set<nat>, scope: set<nat>, t: Tables, c: Config, step: Step, b: Book, slippage: real)
    requires Sound(t, scope) && Unused(t, step) && step.alpha in known
    requires forall r :: r in t.positions ==> r.alpha != step.alpha
    requires BookOf(t.positions, step.alpha) == EMPTY
    ensures var done := ApplyAll(known, t, Opens(c, step, b), slippage);
      && done.Ok? && Sound(done.value, scope) && done.value.trades == t.trades
      && (forall r :: r in done.value.positions ==>
            if r.alpha == step.alpha then Names(r.id, step) else r in t.positions)
      && (forall r :: r in t.positions ==> r in done.value.positions)
      && BookOf(done.value.positions, step.alpha) == Reopened(c, step, b)
      && (forall a :: a != step.alpha ==> BookOf(done.value.positions, a) == BookOf(t.positions, a))
  {
    var symbols, leverage := SortedKeys.Sorted(Targets(step).Keys), StrategyLeverage(b);
    TargetsAreOpenable(step);
    SortedKeys.SortedIsAscending(Targets(step).Keys);
    OpensAreOpens(c, step, leverage, symbols);
    OpenPhase(known, scope, t, c, step, leverage, symbols, slippage);
    CandidateExtends(known, t, Opens(c, step, b), slippage);
    OpenedRowsAreFresh(c, step, leverage, symbols, slippage);
    OpensAreOwn(c, step, leverage, symbols);
    BookOfOpened(t.positions, Opens(c, step, b), step.alpha, slippage);
    var after := ApplyAll(known, t, Opens(c, step, b), slippage).value;
    forall a | a != step.alpha ensures BookOf(after.positions, a) == BookOf(t.positions, a) {
      BookOfConcat(t.positions, RowsFrom(Opens(c, step, b), slippage), a);
    }
  }

  /** One point.  Its entries apply exactly if none of the alpha's positions has its trade already; then the
      alpha's rows become the planner's new book and no other row moves. */
  lemma StepSimulates(known: set<nat>, scope: set<nat>, t: Tables, c: Config, step: Step, slippage: real)
    requires Sound(t, scope) && Unused(t, step) && step.alpha in known && step.alpha in scope
    ensures var b := BookOf(t.positions, step.alpha);
      var done := ApplyAll(known, t, Closes(c, step, b) + Opens(c, step, b), slippage);
      && (done.Ok? <==> Untraded(t, step.alpha)) && (done.Err? ==> done.error.Integrity?)
      && (done.Ok? ==> Sound(done.value, scope) && Moved(t, done.value, step))
      && (done.Ok? ==> BookOf(done.value.positions, step.alpha) == Reopened(c, step, b))
      && (done.Ok? ==> forall a :: a != step.alpha ==> BookOf(done.value.positions, a) == BookOf(t.positions, a))
  {
    hide Closes, Opens, Reopened, Sound, Untraded, Unused;
    var b := BookOf(t.positions, step.alpha);
    CloseAll(known, scope, t, c, step, slippage);
    if Untraded(t, step.alpha) {
      var mid := ApplyAll(known, t, Closes(c, step, b), slippage).value;
      BooksOfOthers(t.positions, step.alpha);
      forall r ensures r in mid.positions <==> r in t.positions && r.alpha != step.alpha {
        OffBookRows(t.positions, step.alpha, r);
      }
      OpenAll(known, scope, mid, c, step, b, slippage);
      ApplyConcat(known, t, Closes(c, step, b), Opens(c, step, b), slippage);
    } else {
      FailureStays(known, t, Closes(c, step, b), Opens(c, step, b), slippage);
    }
  }

  lemma BooksOfOthers(rows: seq<PositionRow>, a: nat)
    ensures BookOf(OffBook(rows, {a}), a) == EMPTY
    ensures forall b :: b != a ==> BookOf(OffBook(rows, {a}), b) == BookOf(rows, b)
  {
  }

  /** Ids of a later point stay free. */
  lemma StaysUnused(t: Tables, after: Tables, step: Step, later: Step)
    requires Moved(t, after, step) && Unused(t, later) && !SamePoint(step, later)
    ensures Unused(after, later)
  {
    forall id | id in after.trades ensures !Names(id, later) {
      if id !in t.trades {
        FoundIsRow(t.positions, id);
      }
    }
  }

  // ----------------------------------------------------------------------------- the whole replay

  ghost predicate AllKnown(configs: map<nat, Config>, known: set<nat>, scope: set<nat>, steps: seq<Step>) {
    forall step :: step in steps ==> step.alpha in configs && step.alpha in known && step.alpha in scope
  }

  function AlphasIn(steps: seq<Step>): set<nat> { set step | step in steps :: step.alpha }

  /** No position that a point of the ledger closes has its closing trade in the baseline already. */
  ghost predicate NothingTraded(t: Tables, steps: seq<Step>) {
    forall step :: step in steps ==> Untraded(t, step.alpha)
  }

  /** How tables after some points stand to the baseline: rows of the alphas not yet visited are as they were, with
      the trades they had, and no row of a visited alpha has a trade. */
  ghost predicate Follows(t: Tables, mid: Tables, alphas: set<nat>) {
    && (forall r: PositionRow :: r.alpha !in alphas ==> (r in mid.positions <==> r in t.positions))
    && (forall r :: r in mid.positions && r.alpha in alphas ==> r.id !in mid.trades)
    && (forall r :: r in t.positions && r.alpha !in alphas ==> (r.id in mid.trades <==> r.id in t.trades))
  }

  lemma FollowsOn(t: Tables, mid: Tables, after: Tables, alphas: set<nat>, step: Step)
    requires Follows(t, mid, alphas) && Moved(mid, after, step) && Unused(mid, step) && UniqueIds(mid.positions)
    ensures Follows(t, after, alphas + {step.alpha})
  {
    forall r | r in mid.positions && r.alpha != step.alpha ensures !IsOwn(mid.positions, r.id, step.alpha) {
      RowIsFound(mid.positions, r);
    }
    forall r | r in after.positions && r.alpha == step.alpha ensures r.id !in after.trades {
      FoundIsRow(mid.positions, r.id);
    }
  }

  /** A point can be applied exactly if its alpha was visited before or had nothing traded in the baseline. */
  lemma UntradedNow(t: Tables, mid: Tables, alphas: set<nat>, a: nat)
    requires Follows(t, mid, alphas)
    ensures Untraded(mid, a) <==> a in alphas || Untraded(t, a)
  {
  }

  /** What is true after each point. */
  ghost predicate Simulated(known: set<nat>, scope: set<nat>, t: Tables, plan: Plan, slippage: real) {
    var done := ApplyAll(known, t, plan.entries, slippage);
    done.Ok? && Sound(done.value, scope) && Mirrors(plan.state, done.value.positions)
  }

  /** The plan is made, and its ledger applies exactly if nothing it closes was traded already; any failure is such
      a clash.  Then the candidate is sound, its open rows are the planner's book, alpha by alpha, and the derived
      ids of later points are still free. */
  ghost predicate Replayed(configs: map<nat, Config>, known: set<nat>, scope: set<nat>, t: Tables,
                           state: map<nat, Book>, steps: seq<Step>, later: seq<Step>, slippage: real)
  {
    PlanAll(configs, state, steps).Ok? &&
    var plan := PlanAll(configs, state, steps).value;
    var done := ApplyAll(known, t, plan.entries, slippage);
    && (done.Ok? <==> NothingTraded(t, steps)) && (done.Err? ==> done.error.Integrity?)
    && (done.Ok? ==> Simulated(known, scope, t, plan, slippage))
    && (done.Ok? ==> Follows(t, done.value, AlphasIn(steps)) && AllUnused(done.value, later))
  }

  /** With one position per symbol for the ledger's alphas, distinct points and derived ids that are not in use, the
      ledger never misses or mistakes a position: see `Replayed`. */
  lemma {:induction false} ReplaySimulates(configs: map<nat, Config>, known: set<nat>, scope: set<nat>, t: Tables,
                                           state: map<nat, Book>, steps: seq<Step>, later: seq<Step>, slippage: real)
    requires Sound(t, scope) && Mirrors(state, t.positions) && AllKnown(configs, known, scope, steps)
    requires DistinctPoints(steps) && AllUnused(t, steps)
    requires AllUnused(t, later) && forall q :: q in later ==> Apart(steps, q)
    ensures Replayed(configs, known, scope, t, state, steps, later, slippage)
    decreases |steps|
  {
    if steps == [] {
      assert AlphasIn(steps) == {};
    } else {
      hide Sound, Replayed, Unused, Mirrors;
      var init, step := steps[..|steps| - 1], steps[|steps| - 1];
      assert step in steps && steps == init + [step];
      ReplaySimulates(configs, known, scope, t, state, init, later + [step], slippage);
      ReplayOneMore(configs, known, scope, t, state, init, step, later, slippage);
    }
  }

  lemma ReplayOneMore(configs: map<nat, Config>, known: set<nat>, scope: set<nat>, t: Tables, state: map<nat, Book>,
                      init: seq<Step>, step: Step, later: seq<Step>, slippage: real)
    requires AllKnown(configs, known, scope, [step])
    requires Replayed(configs, known, scope, t, state, init, later + [step], slippage)
    requires forall q :: q in later ==> Apart(init + [step], q)
    ensures Replayed(configs, known, scope, t, state, init + [step], later, slippage)
  {
    hide Sound, Unused, Untraded, Follows, AlphasIn, PlanStep, Apply, Mirrors, Apart, Moved, NothingTraded;
    var c, plan := configs[step.alpha], PlanAll(configs, state, init).value;
    assert step in [step] && step in later + [step] && (init + [step])[..|init|] == init;
    var done := ApplyAll(known, t, plan.entries, slippage);
    NothingTradedOfMore(t, init, step);
    if done.Ok? {
      LaterUnused(done.value, later, step);
      PointSimulates(c, known, scope, t, done.value, plan, step, slippage);
      PointFollows(known, scope, t, done.value, init, step, later, c, plan, slippage);
    } else {
      PlanFails(c, known, t, plan, step, slippage);
    }
  }

  lemma NothingTradedOfMore(t: Tables, init: seq<Step>, step: Step)
    ensures NothingTraded(t, init + [step]) <==> NothingTraded(t, init) && Untraded(t, step.alpha)
  {
    assert step in init + [step] && forall s :: s in init + [step] <==> s in init || s == step;
  }

  lemma LaterUnused(t: Tables, later: seq<Step>, step: Step)
    requires AllUnused(t, later + [step])
    ensures AllUnused(t, later) && Unused(t, step)
  {
    assert step in later + [step];
  }

  lemma PlanFails(c: Config, known: set<nat>, t: Tables, plan: Plan, step: Step, slippage: real)
    requires ApplyAll(known, t, plan.entries, slippage).Err?
    ensures ApplyAll(known, t, PlanStep(c, plan, step).entries, slippage) == ApplyAll(known, t, plan.entries, slippage)
  {
    hide Closes, Opens, Reopened;
    var b := BookIn(plan.state, step.alpha);
    FailureStays(known, t, plan.entries, Closes(c, step, b), slippage);
    FailureStays(known, t, plan.entries + Closes(c, step, b), Opens(c, step, b), slippage);
  }

  lemma PointSimulates(c: Config, known: set<nat>, scope: set<nat>, t: Tables, mid: Tables, plan: Plan, step: Step,
                       slippage: real)
    requires ApplyAll(known, t, plan.entries, slippage) == Ok(mid)
    requires Sound(mid, scope) && Mirrors(plan.state, mid.positions)
    requires Unused(mid, step) && step.alpha in known && step.alpha in scope
    ensures var done := ApplyAll(known, t, PlanStep(c, plan, step).entries, slippage);
      && (done.Ok? <==> Untraded(mid, step.alpha)) && (done.Err? ==> done.error.Integrity?)
      && (done.Ok? ==> Simulated(known, scope, t, PlanStep(c, plan, step), slippage) && Moved(mid, done.value, step))
  {
    hide Sound, Closes, Opens, Reopened, Apply, Unused, Untraded, Moved;
    var b := BookIn(plan.state, step.alpha);
    StepSimulates(known, scope, mid, c, step, slippage);
    var entries := Closes(c, step, b) + Opens(c, step, b);
    assert plan.entries + Closes(c, step, b) + Opens(c, step, b) == plan.entries + entries;
    ApplyConcat(known, t, plan.entries, entries, slippage);
  }

  /** What a point that was applied, or could not be, says of all points so far. */
  lemma PointFollows(known: set<nat>, scope: set<nat>, t: Tables, mid: Tables, init: seq<Step>, step: Step,
                     later: seq<Step>, c: Config, plan: Plan, slippage: real)
    requires Follows(t, mid, AlphasIn(init)) && NothingTraded(t, init) && Unused(mid, step) && Sound(mid, scope)
    requires AllUnused(mid, later) && forall q :: q in later ==> Apart(init + [step], q)
    ensures Untraded(mid, step.alpha) <==> NothingTraded(t, init + [step])
    ensures var done := ApplyAll(known, t, PlanStep(c, plan, step).entries, slippage);
      done.Ok? && Moved(mid, done.value, step) ==>
        Follows(t, done.value, AlphasIn(init + [step])) && AllUnused(done.value, later)
  {
    hide Follows, Moved, Unused, Untraded, PlanStep, Apply;
    UntradedNow(t, mid, AlphasIn(init), step.alpha);
    assert step in init + [step] && forall s :: s in init + [step] <==> s in init || s == step;
    assert AlphasIn(init + [step]) == AlphasIn(init) + {step.alpha};
    if step.alpha in AlphasIn(init) {
      var s :| s in init && s.alpha == step.alpha;
    }
    var done := ApplyAll(known, t, PlanStep(c, plan, step).entries, slippage);
    if done.Ok? && Moved(mid, done.value, step) {
      FollowsOn(t, mid, done.value, AlphasIn(init), step);
      forall q | q in later ensures Unused(done.value, q) {
        StaysUnused(mid, done.value, step, q);
      }
    }
  }

  /** The same after every point of the ledger, not only the last. */
  lemma EveryPointSimulates(configs: map<nat, Config>, known: set<nat>, scope: set<nat>, t: Tables,
                            state: map<nat, Book>, steps: seq<Step>, slippage: real, k: nat)
    requires Sound(t, scope) && Mirrors(state, t.positions) && AllKnown(configs, known, scope, steps) && k <= |steps|
    requires DistinctPoints(steps) && AllUnused(t, steps)
    ensures PlanAll(configs, state, steps).Ok? && PlanAll(configs, state, steps[..k]).Ok?
    ensures PlanAll(configs, state, steps[..k]).value.entries <= PlanAll(configs, state, steps).value.entries
    ensures var plan := PlanAll(configs, state, steps[..k]).value;
      if NothingTraded(t, steps[..k]) then Simulated(known, scope, t, plan, slippage)
      else ApplyAll(known, t, plan.entries, slippage).Err?
  {
    hide Sound, AllUnused, Follows, Untraded;
    PrefixUnused(t, steps, k);
    ReplaySimulates(configs, known, scope, t, state, steps, [], slippage);
    PlanPrefix(configs, state, steps, k);
    PrefixDistinct(steps, k);
    ReplaySimulates(configs, known, scope, t, state, steps[..k], [], slippage);
  }

  lemma PrefixUnused(t: Tables, steps: seq<Step>, k: nat)
    requires AllUnused(t, steps) && k <= |steps|
    ensures AllUnused(t, steps[..k]) && AllUnused(t, [])
  {
  }

  lemma {:induction false} PrefixDistinct(steps: seq<Step>, k: nat)
    requires DistinctPoints(steps) && k <= |steps|
    ensures DistinctPoints(steps[..k])
    decreases |steps|
  {
    if k < |steps| {
      PrefixDistinct(steps[..|steps| - 1], k);
      assert steps[..|steps| - 1][..k] == steps[..k];
    } else {
      assert steps[..k] == steps;
    }
  }

  lemma OneRow(row: PositionRow, scope: set<nat>)
    ensures UniqueIds([row]) && UniqueSlots([row], scope)
    ensures forall a :: BookOf([row], a) == if a == row.alpha then Put(EMPTY, row.symbol, StateOf(row)) else EMPTY
  {
    var rows := [row];
    assert rows[..|rows| - 1] == [];
  }

  lemma OnePoint(step: Step)
    ensures DistinctPoints([step])
  {
    var steps := [step];
    assert steps[..|steps| - 1] == [];
  }

  /** A baseline that meets every other condition and still cannot be recovered: one open position with a trade
      under its own id. */
  lemma TradedPositionBlocks(configs: map<nat, Config>, step: Step, row: PositionRow, trade: TradeRow, slippage: real)
    requires row.id.Live? && row.alpha == step.alpha && step.alpha in configs
    ensures var t := Tables([row], map[row.id := trade], map[], 0);
      var state := map[row.alpha := Put(EMPTY, row.symbol, StateOf(row))];
      && Sound(t, {step.alpha}) && Mirrors(state, t.positions) && AllUnused(t, [step])
      && DistinctPoints([step]) && PlanAll(configs, state, [step]).Ok?
      && ApplyAll({step.alpha}, t, PlanAll(configs, state, [step]).value.entries, slippage).Err?
  {
    var t := Tables([row], map[row.id := trade], map[], 0);
    var state := map[row.alpha := Put(EMPTY, row.symbol, StateOf(row))];
    OneRow(row, {step.alpha});
    OnePoint(step);
    assert row in t.positions && !Untraded(t, step.alpha);
    ReplaySimulates(configs, {step.alpha}, {step.alpha}, t, state, [step], [], slippage);
    assert step in [step];
  }
}
