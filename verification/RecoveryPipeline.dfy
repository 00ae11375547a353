/** The recovery pipeline end to end: plan, build the candidate, merge it into production. */
module RecoveryPipeline {
  import opened RecoveryCandidate
  import opened RecoveryReplay
  import opened RecoverySimulation
  import M = RecoveryMerge

  ghost predicate InSlot(rows: seq<PositionRow>, r: PositionRow, alpha: nat, symbol: nat) {
    r in rows && r.alpha == alpha && r.symbol == symbol
  }

  /** A loaded entry is some row of its slot, whatever the row order. */
  lemma {:induction false} EntryIsSomeRow(rows: seq<PositionRow>, alpha: nat, s: nat)
    ensures s in BookOf(rows, alpha).at <==> exists r :: InSlot(rows, r, alpha, s)
    ensures s in BookOf(rows, alpha).at ==>
      exists r :: InSlot(rows, r, alpha, s) && StateOf(r) == BookOf(rows, alpha).at[s]
    decreases |rows|
  {
    if rows != [] {
      var init, last := rows[..|rows| - 1], rows[|rows| - 1];
      EntryIsSomeRow(init, alpha, s);
      assert last in rows;
      forall r | r in rows ensures r in init || r == last {}
      if last.alpha == alpha && last.symbol == s {
        assert InSlot(rows, last, alpha, s);
      } else {
        forall r ensures InSlot(rows, r, alpha, s) <==> InSlot(init, r, alpha, s) {}
      }
    }
  }

  lemma {:induction false} SlotHoldsOne(rows: seq<PositionRow>, scope: set<nat>, q: PositionRow, r: PositionRow)
    requires UniqueSlots(rows, scope) && q in rows && r in rows
    requires q.alpha == r.alpha && q.alpha in scope && q.symbol == r.symbol
    ensures q == r
    decreases |rows|
  {
    var init := rows[..|rows| - 1];
    if q in init && r in init {
      SlotHoldsOne(init, scope, q, r);
    }
  }

  /** Tables with the same rows load the same book, if slots are unique: the order of rows only decides the
      order of the entries. */
  lemma SameRowsSameBook(a: seq<PositionRow>, b: seq<PositionRow>, scope: set<nat>, alpha: nat)
    requires M.SameRows(a, b) && UniqueSlots(b, scope) && alpha in scope
    ensures BookOf(a, alpha).at == BookOf(b, alpha).at
  {
    forall s ensures s in BookOf(a, alpha).at <==> s in BookOf(b, alpha).at {
      EntryIsSomeRow(a, alpha, s);
      EntryIsSomeRow(b, alpha, s);
      forall r ensures InSlot(a, r, alpha, s) <==> InSlot(b, r, alpha, s) {}
    }
    forall s | s in BookOf(b, alpha).at ensures BookOf(a, alpha).at[s] == BookOf(b, alpha).at[s] {
      EntryIsSomeRow(a, alpha, s);
      EntryIsSomeRow(b, alpha, s);
      var q :| InSlot(a, q, alpha, s) && StateOf(q) == BookOf(a, alpha).at[s];
      var r :| InSlot(b, r, alpha, s) && StateOf(r) == BookOf(b, alpha).at[s];
      SlotHoldsOne(b, scope, q, r);
    }
  }

  /** From a baseline that production still equals, with one position per symbol for the ledger's alphas: the plan
      is made, and its ledger builds a candidate exactly if no position it closes has its closing trade already.
      If the ledger is not empty, the merge then passes every guard; and whatever production table it leaves,
      with the candidate's rows, holds exactly the planned positions of the ledger's alphas, and every other
      alpha's rows as they were. */
  lemma ProductionHoldsThePlan(configs: map<nat, Config>, known: set<nat>, scope: set<nat>, production: Tables,
                               baseline: Tables, state: map<nat, Book>, steps: seq<Step>, slippage: real,
                               merged: seq<PositionRow>, alpha: nat)
    requires Sound(baseline, scope) && Mirrors(state, baseline.positions) && AllKnown(configs, known, scope, steps)
    requires DistinctPoints(steps) && AllUnused(baseline, steps)
    requires M.SameRows(production.positions, baseline.positions)
    requires production.trades == baseline.trades && production.signals == baseline.signals
    ensures PlanAll(configs, state, steps).Ok?
    ensures var plan := PlanAll(configs, state, steps).value;
      var built := ApplyAll(known, baseline, plan.entries, slippage);
      && (built.Ok? <==> NothingTraded(baseline, steps))
      && (built.Ok? && plan.entries != [] ==> M.Mergeable(production, baseline, built.value, AlphasOf(plan.entries)))
      && (built.Ok? && M.SameRows(merged, built.value.positions) ==>
            HoldsPlan(merged, production.positions, plan.state, scope, AlphasIn(steps), alpha))
  {
    hide Sound, Untraded;
    ReplaySimulates(configs, known, scope, baseline, state, steps, [], slippage);
    var plan := PlanAll(configs, state, steps).value;
    if NothingTraded(baseline, steps) {
      var built := ApplyAll(known, baseline, plan.entries, slippage).value;
      SoundIds(baseline, scope);
      SoundIds(built, scope);
      if plan.entries != [] {
        M.BuiltCandidateMerges(known, production, baseline, plan.entries, slippage);
      }
      if M.SameRows(merged, built.positions) && alpha in scope {
        SameRowsSameBook(merged, built.positions, scope, alpha);
      }
    }
  }

  /** Alphas in scope have the planned positions; alphas that no point named have their rows. */
  ghost predicate HoldsPlan(merged: seq<PositionRow>, production: seq<PositionRow>, state: map<nat, Book>,
                            scope: set<nat>, visited: set<nat>, alpha: nat)
  {
    && (alpha in scope ==> BookOf(merged, alpha).at == BookIn(state, alpha).at)
    && (alpha !in visited ==>
          forall r: PositionRow :: r.alpha == alpha ==> (r in merged <==> r in production))
  }

  lemma SoundIds(t: Tables, scope: set<nat>)
    requires Sound(t, scope)
    ensures UniqueIds(t.positions) && UniqueSlots(t.positions, scope) && Numbered(t)
  {
  }
}
