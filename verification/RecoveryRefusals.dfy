/** Why a merge is refused, and which weights a recovery point drops: in terms of the rows, the columns and the
    selection alone. */
module RecoveryRefusals {
  import opened Wrappers
  import opened RecoveryCandidate
  import opened RecoveryMerge
  import W = RecoveryWeights

  // ------------------------------------------------------------------------ the merge's guards

  predicate HasTables(c: Columns) { |c.positions| > 0 && |c.trades| > 0 && |c.signals| > 0 }

  /** One schema: the three databases have the same columns in the same order, and no table is missing. */
  lemma SchemasMean(s: Schemas)
    ensures s.Agree() <==>
      HasTables(s.production) && s.production == s.baseline && s.production == s.candidate
  {
  }

  /** Only values changed: the same snapshots, each of the same alpha and time. */
  lemma OnlyValuesMean(baseline: Snapshots, candidate: Snapshots)
    ensures OnlyValuesChanged(baseline, candidate) <==>
      (forall id :: id in baseline <==> id in candidate) &&
      (forall id :: id in baseline && id in candidate ==>
         baseline[id].alpha == candidate[id].alpha && baseline[id].time == candidate[id].time)
  {
  }

  /** Production still has the baseline's columns and rows. */
  ghost predicate IsBaseline(m: Merged, baseline: Tables, s: Schemas) {
    && HasTables(s.production) && s.production == s.baseline
    && (forall r :: r in m.positions <==> r in baseline.positions)
    && m.trades == baseline.trades && m.signals == baseline.signals
  }

  /** The candidate says something else than production of one key. */
  ghost predicate Contradicts<K(!new), V>(production: map<K, V>, candidate: map<K, V>) {
    exists k :: k in candidate && k in production && candidate[k] != production[k]
  }

  /** A candidate row of the scope has the id of a production row outside it. */
  ghost predicate TakesId(production: seq<PositionRow>, candidate: seq<PositionRow>, affected: set<nat>) {
    exists r, q :: r in candidate && q in production && SameIdAcross(r, q, affected)
  }

  predicate SameIdAcross(r: PositionRow, q: PositionRow, affected: set<nat>) {
    r.alpha in affected && q.alpha !in affected && r.id == q.id
  }

  predicate MissesColumn(names: seq<string>, others: seq<string>) { exists n :: n in names && n !in others }

  /** The candidate dropped history, or moved a row outside the scope. */
  ghost predicate Drifts(m: Merged, candidate: Tables, affected: set<nat>) {
    || !(m.trades.Keys <= candidate.trades.Keys) || !(m.signals.Keys <= candidate.signals.Keys)
    || !SameRows(OffBook(m.positions, affected), OffBook(candidate.positions, affected))
  }

  lemma {:induction false} NoRowById(rows: seq<PositionRow>, id: Id)
    ensures RowById(rows, id).Some? <==> exists r :: r in rows && r.id == id
    decreases |rows|
  {
    if rows != [] {
      var init, last := rows[..|rows| - 1], rows[|rows| - 1];
      NoRowById(init, id);
      assert last in rows;
      forall r | r in rows ensures r in init || r == last {}
    }
  }

  lemma DeltaClashes<K(!new), V>(candidate: map<K, V>, baseline: map<K, V>)
    ensures Delta(candidate, baseline).Keys * baseline.Keys != {} <==> Contradicts(baseline, candidate)
    ensures !Contradicts(baseline, candidate) ==>
      (baseline + Delta(candidate, baseline) == candidate <==> baseline.Keys <= candidate.Keys)
  {
    var delta := Delta(candidate, baseline);
    if Contradicts(baseline, candidate) {
      var k :| k in candidate && k in baseline && candidate[k] != baseline[k];
      assert k in delta.Keys * baseline.Keys;
    } else {
      if baseline.Keys <= candidate.Keys {
        assert baseline + delta == candidate;
      }
      if baseline + delta == candidate {
        assert forall k :: k in baseline ==> k in baseline + delta;
      }
    }
  }

  lemma ClashMeans(production: seq<PositionRow>, candidate: seq<PositionRow>, affected: set<nat>)
    ensures Clash(OffBook(production, affected), OnBook(candidate, affected)) <==>
      TakesId(production, candidate, affected)
  {
    hide OffBook, OnBook, RowById;
    var kept, added := OffBook(production, affected), OnBook(candidate, affected);
    if Clash(kept, added) {
      var k :| 0 <= k < |added| && RowById(kept, added[k].id).Some?;
      NoRowById(kept, added[k].id);
      var q :| q in kept && q.id == added[k].id;
      InOffBook(production, affected, q);
      InOnBook(candidate, affected, added[k]);
      assert SameIdAcross(added[k], q, affected);
    }
    if TakesId(production, candidate, affected) {
      var r, q :| r in candidate && q in production && SameIdAcross(r, q, affected);
      InOffBook(production, affected, q);
      InOnBook(candidate, affected, r);
      NoRowById(kept, r.id);
      var k :| 0 <= k < |added| && added[k] == r;
      assert RowById(kept, added[k].id).Some?;
    }
  }

  lemma AfterIsCandidate(m: Merged, candidate: Tables, affected: set<nat>)
    requires UniqueIds(m.positions) && UniqueIds(candidate.positions)
    requires !TakesId(m.positions, candidate.positions, affected)
    ensures var kept, added := OffBook(m.positions, affected), OnBook(candidate.positions, affected);
      Within(kept + added, candidate.positions) && Within(candidate.positions, kept + added) <==>
      SameRows(kept, OffBook(candidate.positions, affected))
  {
    hide OffBook, OnBook, SameRows, Within, Clash, TakesId, UniqueIds;
    SwapCompletes(m.positions, candidate.positions, affected);
    ClashMeans(m.positions, candidate.positions, affected);
    WithinIsSame(OffBook(m.positions, affected) + OnBook(candidate.positions, affected), candidate.positions);
  }

  /** The statements of a merge, and the first guard that stops them: production that moved on; trades or signals
      with other columns, or that contradict production; a column of the positions that the candidate lacks, or an
      id taken outside the scope; and at the end a candidate that is more than the baseline and its scope. */
  lemma StatementsMean(m: Merged, baseline: Tables, candidate: Tables, affected: set<nat>, s: Schemas)
    requires UniqueIds(m.positions) && UniqueIds(candidate.positions)
    ensures var r := Statements(m, baseline, candidate, affected, s);
      if !IsBaseline(m, baseline, s) then r == Err(BaselineDrift)
      else if s.production.trades != s.candidate.trades then r == Err(SchemaDrift)
      else if Contradicts(m.trades, candidate.trades) then r == Err(KeyClash)
      else if s.production.signals != s.candidate.signals then r == Err(SchemaDrift)
      else if Contradicts(m.signals, candidate.signals) then r == Err(KeyClash)
      else if MissesColumn(s.production.positions, s.candidate.positions) then r == Err(SchemaDrift)
      else if TakesId(m.positions, candidate.positions, affected) then r == Err(KeyClash)
      else if s.production.positions != s.candidate.positions || Drifts(m, candidate, affected)
      then r == Err(CandidateDrift)
      else r == Ok(Merged(OffBook(m.positions, affected) + OnBook(candidate.positions, affected),
                          candidate.trades, candidate.signals))
  {
    WithinIsSame(m.positions, baseline.positions);
    SameIsBaseline(m, baseline, s);
    DeltaClashes(candidate.trades, m.trades);
    DeltaClashes(candidate.signals, m.signals);
    ClashMeans(m.positions, candidate.positions, affected);
    if !TakesId(m.positions, candidate.positions, affected) {
      AfterIsCandidate(m, candidate, affected);
    }
    ColumnsMean(s);
    hide OffBook, OnBook, SameRows, Within, Clash, TakesId, UniqueIds, Delta, Contradicts, IsBaseline, AllIn;
    hide MissesColumn;
  }

  lemma ColumnsMean(s: Schemas)
    ensures AllIn(s.production.positions, s.candidate.positions) <==>
      !MissesColumn(s.production.positions, s.candidate.positions)
    ensures s.production.Complete() <==> HasTables(s.production)
  {
  }

  lemma SameIsBaseline(m: Merged, baseline: Tables, s: Schemas)
    ensures IsBaseline(m, baseline, s) <==>
      HasTables(s.production) && s.production == s.baseline && SameRows(m.positions, baseline.positions) &&
      m.trades == baseline.trades && m.signals == baseline.signals
  {
  }
}
