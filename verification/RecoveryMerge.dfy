/** The guarded merge of a recovery candidate into an unchanged production database. */
module RecoveryMerge {
  import opened Wrappers
  import opened RecoveryCandidate

  datatype MergeError = EmptyScope | BaselineDrift | SchemaDrift | KeyClash | CandidateDrift

  /** Table equality is equality of row sets; row order does not count. */
  ghost predicate SameRows(a: seq<PositionRow>, b: seq<PositionRow>) {
    forall r :: r in a <==> r in b
  }

  predicate Within(a: seq<PositionRow>, b: seq<PositionRow>) { forall k :: 0 <= k < |a| ==> a[k] in b }

  lemma WithinIsSame(a: seq<PositionRow>, b: seq<PositionRow>)
    ensures Within(a, b) && Within(b, a) <==> SameRows(a, b)
  {
  }

  /** The rows of the given alphas. */
  function OnBook(rows: seq<PositionRow>, alphas: set<nat>): seq<PositionRow> {
    if rows == [] then []
    else
      var init, last := OnBook(rows[..|rows| - 1], alphas), rows[|rows| - 1];
      if last.alpha in alphas then init + [last] else init
  }

  /** The rows of one dictionary that are not rows of another. */
  function Delta<K, V(==)>(candidate: map<K, V>, baseline: map<K, V>): map<K, V> {
    map k | k in candidate && !(k in baseline && baseline[k] == candidate[k]) :: candidate[k]
  }

  predicate Clash(rows: seq<PositionRow>, added: seq<PositionRow>) {
    exists k :: 0 <= k < |added| && RowById(rows, added[k].id).Some?
  }

  /** What the guards amount to, in terms of the inputs alone. */
  ghost predicate Mergeable(production: Tables, baseline: Tables, candidate: Tables, affected: set<nat>) {
    && affected != {}
    && SameRows(production.positions, baseline.positions)
    && production.trades == baseline.trades && production.signals == baseline.signals
    && Extends(baseline.trades, candidate.trades) && Extends(baseline.signals, candidate.signals)
    && SameRows(OffBook(baseline.positions, affected), OffBook(candidate.positions, affected))
  }

  lemma {:induction false} InOffBook(rows: seq<PositionRow>, alphas: set<nat>, r: PositionRow)
    ensures r in OffBook(rows, alphas) <==> r in rows && r.alpha !in alphas
    decreases |rows|
  {
    if rows != [] {
      InOffBook(rows[..|rows| - 1], alphas, r);
      assert r in rows <==> r in rows[..|rows| - 1] || r == rows[|rows| - 1];
    }
  }

  lemma {:induction false} InOnBook(rows: seq<PositionRow>, alphas: set<nat>, r: PositionRow)
    ensures r in OnBook(rows, alphas) <==> r in rows && r.alpha in alphas
    decreases |rows|
  {
    if rows != [] {
      InOnBook(rows[..|rows| - 1], alphas, r);
      assert r in rows <==> r in rows[..|rows| - 1] || r == rows[|rows| - 1];
    }
  }

  /** Adding the delta gives the candidate exactly when the candidate only grew. */
  lemma DeltaCompletes<K, V>(baseline: map<K, V>, candidate: map<K, V>)
    ensures var delta := Delta(candidate, baseline);
      (delta.Keys * baseline.Keys == {} && baseline + delta == candidate) <==>
      Extends(baseline, candidate)
  {
    var delta := Delta(candidate, baseline);
    if Extends(baseline, candidate) {
      forall k | k in delta ensures k !in baseline {}
      assert baseline + delta == candidate;
    }
    if delta.Keys * baseline.Keys == {} && baseline + delta == candidate {
      forall k | k in baseline ensures k in candidate && candidate[k] == baseline[k] {
        assert k in baseline + delta && k !in delta.Keys * baseline.Keys;
      }
    }
  }

  /** Swapping the affected alphas' rows gives the candidate exactly when the rest already agree;
      and then no key can clash. */
  lemma SwapCompletes(production: seq<PositionRow>, candidate: seq<PositionRow>, affected: set<nat>)
    requires UniqueIds(production) && UniqueIds(candidate)
    ensures var kept, added := OffBook(production, affected), OnBook(candidate, affected);
      (!Clash(kept, added) && SameRows(kept + added, candidate)) <==> SameRows(kept, OffBook(candidate, affected))
  {
    var kept, added := OffBook(production, affected), OnBook(candidate, affected);
    forall r: PositionRow ensures r in kept + added <==> r in kept || r in added {}
    forall r ensures r in kept <==> r in production && r.alpha !in affected { InOffBook(production, affected, r); }
    forall r ensures r in OffBook(candidate, affected) <==> r in candidate && r.alpha !in affected {
      InOffBook(candidate, affected, r);
    }
    forall r ensures r in added <==> r in candidate && r.alpha in affected { InOnBook(candidate, affected, r); }
    if SameRows(kept, OffBook(candidate, affected)) {
      if k :| 0 <= k < |added| && RowById(kept, added[k].id).Some? {
        NoClash(kept, candidate, affected, added[k]);
      }
    }
    if SameRows(kept + added, candidate) {
      forall r ensures r in kept <==> r in OffBook(candidate, affected) {
        assert r in kept + added <==> r in candidate;
      }
    }
  }

  lemma NoClash(kept: seq<PositionRow>, candidate: seq<PositionRow>, affected: set<nat>, r: PositionRow)
    requires UniqueIds(candidate) && r in candidate && r.alpha in affected
    requires forall k :: k in kept ==> k in candidate && k.alpha !in affected
    ensures RowById(kept, r.id).None?
  {
    FoundIsRow(kept, r.id);
    RowIsFound(candidate, r);
    if RowById(kept, r.id).Some? {
      RowIsFound(candidate, RowById(kept, r.id).value);
    }
  }

  lemma SameOffBook(a: seq<PositionRow>, b: seq<PositionRow>, alphas: set<nat>)
    requires SameRows(a, b)
    ensures SameRows(OffBook(a, alphas), OffBook(b, alphas))
  {
    forall r ensures r in OffBook(a, alphas) <==> r in OffBook(b, alphas) {
      InOffBook(a, alphas, r);
      InOffBook(b, alphas, r);
    }
  }

  // ------------------------------------------------------------------------- the statements

  /** The columns of the three tables in one database; a table without columns is missing. */
  datatype Columns = Columns(positions: seq<string>, trades: seq<string>, signals: seq<string>) {
    predicate Complete() { positions != [] && trades != [] && signals != [] }
  }

  datatype Schemas = Schemas(production: Columns, baseline: Columns, candidate: Columns) {
    predicate Agree() { production == baseline == candidate && production.Complete() }
  }

  predicate AllIn(names: seq<string>, others: seq<string>) { forall n :: n in names ==> n in others }

  /** The three tables that are merged. */
  datatype Merged = Merged(positions: seq<PositionRow>, trades: map<Id, TradeRow>, signals: map<nat, SignalRow>)

  predicate SameTables(m: Merged, other: Tables) {
    && Within(m.positions, other.positions) && Within(other.positions, m.positions)
    && m.trades == other.trades && m.signals == other.signals
  }

  /** Append the new history, then swap the affected alphas' rows; any clash or drift, of rows or of columns, stops
      it. */
  function Statements(m: Merged, baseline: Tables, candidate: Tables, affected: set<nat>, schemas: Schemas)
    : Result<Merged, MergeError>
  {
    var newTrades, newSignals := Delta(candidate.trades, baseline.trades), Delta(candidate.signals, baseline.signals);
    var kept, added := OffBook(m.positions, affected), OnBook(candidate.positions, affected);
    var after := Merged(kept + added, m.trades + newTrades, m.signals + newSignals);
    var main, other := schemas.production, schemas.candidate;
    if !main.Complete() || main != schemas.baseline || !SameTables(m, baseline) then Err(BaselineDrift)
    else if main.trades != other.trades then Err(SchemaDrift)
    else if newTrades.Keys * m.trades.Keys != {} then Err(KeyClash)
    else if main.signals != other.signals then Err(SchemaDrift)
    else if newSignals.Keys * m.signals.Keys != {} then Err(KeyClash)
    else if !AllIn(main.positions, other.positions) then Err(SchemaDrift)
    else if Clash(kept, added) then Err(KeyClash)
    else if main.positions != other.positions || !SameTables(after, candidate) then Err(CandidateDrift)
    else Ok(after)
  }

  /** With a scope, the statements go through exactly on mergeable inputs with one schema, and then leave the
      candidate's tables. */
  lemma StatementsSucceed(m: Merged, baseline: Tables, candidate: Tables, affected: set<nat>, schemas: Schemas)
    requires UniqueIds(m.positions) && UniqueIds(candidate.positions) && affected != {}
    ensures Statements(m, baseline, candidate, affected, schemas).Ok? <==>
      schemas.Agree() && Mergeable(Tables(m.positions, m.trades, m.signals, 0), baseline, candidate, affected)
    ensures Statements(m, baseline, candidate, affected, schemas).Ok? ==>
      var after := Statements(m, baseline, candidate, affected, schemas).value;
      SameRows(after.positions, candidate.positions) && after.trades == candidate.trades &&
      after.signals == candidate.signals
  {
    hide SameRows, Extends, Within, Clash, Delta, OffBook, OnBook, UniqueIds;
    var kept, added := OffBook(m.positions, affected), OnBook(candidate.positions, affected);
    WithinIsSame(m.positions, baseline.positions);
    WithinIsSame(kept + added, candidate.positions);
    if SameRows(m.positions, baseline.positions) && m.trades == baseline.trades && m.signals == baseline.signals {
      DeltaCompletes(baseline.trades, candidate.trades);
      DeltaCompletes(baseline.signals, candidate.signals);
      SwapCompletes(m.positions, candidate.positions, affected);
      SameOffBook(m.positions, baseline.positions, affected);
      SameThrough(kept, OffBook(baseline.positions, affected), OffBook(candidate.positions, affected));
    }
  }

  lemma SameThrough(a: seq<PositionRow>, b: seq<PositionRow>, c: seq<PositionRow>)
    requires SameRows(a, b)
    ensures SameRows(a, c) <==> SameRows(b, c)
  {
  }

  // ------------------------------------------------------------------ the production database

  class Production {
    var positions: seq<PositionRow>
    var trades: map<Id, TradeRow>
    var signals: map<nat, SignalRow>

    function Now(): Merged
      reads this
    {
      Merged(positions, trades, signals)
    }

    /** The statements inside the write transaction; a failed run is undone by the transaction around it. */
    method RunStatements(baseline: Tables, candidate: Tables, affected: set<nat>, schemas: Schemas)
      returns (failure: Option<MergeError>)
      modifies this
      ensures var done := Statements(old(Now()), baseline, candidate, affected, schemas);
        if done.Ok? then failure.None? && Now() == done.value else failure == Some(done.error)
    {
      hide Within, Clash, Delta, OffBook, OnBook, AllIn;
      var main, other := schemas.production, schemas.candidate;
      if !main.Complete() || main != schemas.baseline || !SameTables(Now(), baseline) {
        return Some(BaselineDrift);
      }
      if main.trades != other.trades {
        return Some(SchemaDrift);
      }
      var newTrades := Delta(candidate.trades, baseline.trades);
      if newTrades.Keys * trades.Keys != {} {
        return Some(KeyClash);
      }
      trades := trades + newTrades;
      if main.signals != other.signals {
        return Some(SchemaDrift);
      }
      var newSignals := Delta(candidate.signals, baseline.signals);
      if newSignals.Keys * signals.Keys != {} {
        return Some(KeyClash);
      }
      signals := signals + newSignals;
      positions := OffBook(positions, affected);
      if !AllIn(main.positions, other.positions) {
        return Some(SchemaDrift);
      }
      var added := OnBook(candidate.positions, affected);
      if Clash(positions, added) {
        return Some(KeyClash);
      }
      positions := positions + added;
      if main.positions != other.positions || !SameTables(Now(), candidate) {
        return Some(CandidateDrift);
      }
      failure := None;
    }

    /** The merge goes through exactly when its inputs are mergeable and share one schema.  Then production equals
        the candidate, table by table; otherwise production is as it was. */
    method MergeMainDatabase(baseline: Tables, candidate: Tables, affected: set<nat>, schemas: Schemas)
      returns (failure: Option<MergeError>)
      requires UniqueIds(positions) && UniqueIds(candidate.positions)
      modifies this
      ensures failure.None? <==>
        schemas.Agree() && old(Mergeable(Tables(positions, trades, signals, 0), baseline, candidate, affected))
      ensures failure.None? ==>
        SameRows(positions, candidate.positions) && trades == candidate.trades && signals == candidate.signals
      ensures failure.None? ==>
        positions == OffBook(old(positions), affected) + OnBook(candidate.positions, affected)
      ensures failure.Some? ==> Now() == old(Now())
      ensures failure == if affected == {} then Some(EmptyScope) else
        match Statements(old(Now()), baseline, candidate, affected, schemas)
        case Ok(_) => None
        case Err(error) => Some(error)
    {
      hide SameRows, UniqueIds, Delta, Clash, Within;
      if affected == {} {
        return Some(EmptyScope);
      }
      var saved := Now();
      StatementsSucceed(saved, baseline, candidate, affected, schemas);
      failure := RunStatements(baseline, candidate, affected, schemas);
      if failure.Some? {
        positions, trades, signals := saved.positions, saved.trades, saved.signals;
      }
    }
  }

  /** A candidate built from a non-empty ledger over the baseline passes every guard of a merge into an
      unchanged production database, with the ledger's alphas as the scope. */
  lemma BuiltCandidateMerges(known: set<nat>, production: Tables, baseline: Tables, es: seq<Entry>, slippage: real)
    requires UniqueIds(baseline.positions) && Numbered(baseline) && es != []
    requires ApplyAll(known, baseline, es, slippage).Ok?
    requires SameRows(production.positions, baseline.positions)
    requires production.trades == baseline.trades && production.signals == baseline.signals
    ensures Mergeable(production, baseline, ApplyAll(known, baseline, es, slippage).value, AlphasOf(es))
    ensures UniqueIds(ApplyAll(known, baseline, es, slippage).value.positions)
  {
    CandidateExtends(known, baseline, es, slippage);
    assert es[|es| - 1].alpha in AlphasOf(es);
  }

  /** A second promotion of the same candidate is refused: production has moved on from the baseline. */
  lemma MergedTwiceIsRefused(known: set<nat>, baseline: Tables, es: seq<Entry>, slippage: real, scope: set<nat>)
    requires UniqueIds(baseline.positions) && Numbered(baseline) && es != []
    requires ApplyAll(known, baseline, es, slippage).Ok?
    ensures var candidate := ApplyAll(known, baseline, es, slippage).value;
      !Mergeable(candidate, baseline, candidate, scope)
  {
    var init, last := es[..|es| - 1], es[|es| - 1];
    CandidateExtends(known, baseline, init, slippage);
    var mid := ApplyAll(known, baseline, init, slippage).value;
    var candidate := ApplyAll(known, baseline, es, slippage).value;
    NumbersOnlyGrow(known, baseline, init, slippage);
    assert mid.next in candidate.signals && mid.next !in baseline.signals;
  }

  lemma {:induction false} NumbersOnlyGrow(known: set<nat>, t: Tables, es: seq<Entry>, slippage: real)
    requires ApplyAll(known, t, es, slippage).Ok?
    ensures ApplyAll(known, t, es, slippage).value.next == t.next + |es|
    decreases |es|
  {
    if es != [] {
      NumbersOnlyGrow(known, t, es[..|es| - 1], slippage);
    }
  }

  // ------------------------------------------------------------------- the equity database

  /** A snapshot row; the three values may be null. */
  datatype EquityRow = EquityRow(
    alpha: nat, time: int, balance: Option<real>, unrealised: Option<real>, realised: Option<real>)
  {
    function With(other: EquityRow): EquityRow {
      this.(balance := other.balance, unrealised := other.unrealised, realised := other.realised)
    }
  }

  /** The snapshots by id. */
  type Snapshots = map<nat, EquityRow>

  /** The update: a row whose candidate differs from its baseline in a value takes the candidate's values. */
  function Updated(rows: Snapshots, baseline: Snapshots, candidate: Snapshots): Snapshots {
    map id | id in rows ::
      if id in candidate && id in baseline && baseline[id].With(candidate[id]) != baseline[id]
      then rows[id].With(candidate[id]) else rows[id]
  }

  /** The candidate has the baseline's snapshots, and only their values may differ. */
  predicate OnlyValuesChanged(baseline: Snapshots, candidate: Snapshots) {
    baseline.Keys == candidate.Keys && forall id :: id in baseline ==> baseline[id].With(candidate[id]) == candidate[id]
  }

  lemma UpdateCompletes(baseline: Snapshots, candidate: Snapshots)
    ensures Updated(baseline, baseline, candidate) == candidate <==> OnlyValuesChanged(baseline, candidate)
  {
    var after := Updated(baseline, baseline, candidate);
    if OnlyValuesChanged(baseline, candidate) {
      assert after.Keys == candidate.Keys;
    }
    if after == candidate {
      assert after.Keys == baseline.Keys;
      forall id | id in baseline ensures baseline[id].With(candidate[id]) == candidate[id] {
        assert after[id] == candidate[id];
      }
    }
  }

  class EquityProduction {
    var rows: Snapshots

    /** The merge goes through exactly if production is the baseline and the candidate changed only values; then
        production is the candidate, and otherwise it is as it was. */
    method MergeEquityDatabase(baseline: Snapshots, candidate: Snapshots, sameSchema: bool)
      returns (failure: Option<MergeError>)
      modifies this
      ensures failure.None? <==> sameSchema && old(rows) == baseline && OnlyValuesChanged(baseline, candidate)
      ensures rows == if failure.None? then candidate else old(rows)
    {
      if !sameSchema || rows != baseline {
        return Some(BaselineDrift);
      }
      UpdateCompletes(baseline, candidate);
      var saved := rows;
      rows := Updated(rows, baseline, candidate);
      if rows != candidate {
        rows := saved;
        return Some(CandidateDrift);
      }
      failure := None;
    }
  }
}
