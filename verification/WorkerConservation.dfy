/** What every run of the execution ledger keeps: quantity, primary keys, one position per
    alpha and symbol, stops that only tighten, and equity at the mark. */
module WorkerConservation {
  import opened Wrappers
  import opened Reals
  import opened WorkerLedger

  /** One operation on the ledger, with whatever its environment decided. */
  datatype Op =
    | OpOpen(open: OpenSignal, openFill: Option<real>, newId: Key)
    | OpModify(change: ModifySignal)
    | OpClose(close: CloseSignal, closeFill: Option<real>, legId: Key)
    | OpAutoClose(request: CloseRequest)

  function Effect(t: Tables, op: Op, settings: Settings): Result<Tables, Error> {
    match op
    case OpOpen(s, fill, id) => Open(t, s, fill, id, settings)
    case OpModify(s) => Modify(t, s)
    case OpClose(s, fill, legId) => CloseBySignal(t, s, fill, legId, settings)
    case OpAutoClose(request) => Close(t, request)
  }

  /** A refused operation changes nothing. */
  function After(t: Tables, op: Op, settings: Settings): Tables {
    match Effect(t, op, settings) case Ok(u) => u case Err(_) => t
  }

  function RunOps(t: Tables, ops: seq<Op>, settings: Settings): Tables {
    if ops == [] then t else After(RunOps(t, ops[..|ops| - 1], settings), ops[|ops| - 1], settings)
  }

  const EMPTY := Tables([], [])

  // -------------------------------------------------------------------- quantity accounts

  function OpenQty(ps: seq<Position>, id: Key): real {
    if Has(ps, id) then ps[RowOf(ps, id)].qty else 0.0
  }

  function LegQty(ts: seq<Trade>, id: Key): real {
    if ts == [] then 0.0
    else LegQty(ts[..|ts| - 1], id) + if ts[|ts| - 1].positionId == id then ts[|ts| - 1].qty else 0.0
  }

  /** What an operation opens under an id. */
  function OpenedBy(t: Tables, op: Op, id: Key, settings: Settings): real {
    if op.OpOpen? && Effect(t, op, settings).Ok? &&
       id == (if op.open.positionId != "" then op.open.positionId else op.newId)
    then op.open.qty else 0.0
  }

  /** The close an operation amounts to. */
  function RequestFor(t: Tables, op: Op, settings: Settings): Option<CloseRequest> {
    match op
    case OpClose(s, fill, legId) =>
      if !Has(t.positions, s.positionId) then None
      else Some(RequestOf(s, t.positions[RowOf(t.positions, s.positionId)], fill, legId, settings))
    case OpAutoClose(request) => Some(request)
    case _ => None
  }

  /** The remainder that a full close drops. */
  function DustOf(t: Tables, c: CloseRequest): real {
    if !Has(t.positions, c.positionId) then 0.0
    else
      var p := t.positions[RowOf(t.positions, c.positionId)];
      if ClosedQty(p, c.qty) > 0.0 && FullyClosed(p, c.qty) then Remaining(p, c.qty) else 0.0
  }

  function DustBy(t: Tables, op: Op, id: Key, settings: Settings): real {
    var c := RequestFor(t, op, settings);
    if c.Some? && c.value.positionId == id && Effect(t, op, settings).Ok? then DustOf(t, c.value) else 0.0
  }

  function OpenedOver(ops: seq<Op>, id: Key, settings: Settings): real {
    if ops == [] then 0.0
    else
      var before := ops[..|ops| - 1];
      OpenedOver(before, id, settings) + OpenedBy(RunOps(EMPTY, before, settings), ops[|ops| - 1], id, settings)
  }

  function DustOver(ops: seq<Op>, id: Key, settings: Settings): real {
    if ops == [] then 0.0
    else
      var before := ops[..|ops| - 1];
      DustOver(before, id, settings) + DustBy(RunOps(EMPTY, before, settings), ops[|ops| - 1], id, settings)
  }

  // ------------------------------------------------------------------ one step at a time

  lemma RowsAfterRemoval(ps: seq<Position>, i: nat, id: Key)
    requires UniqueIds(ps) && i < |ps|
    ensures UniqueIds(Without(ps, i))
    ensures OpenQty(Without(ps, i), id) == if id == ps[i].positionId then 0.0 else OpenQty(ps, id)
    ensures !Has(Without(ps, i), ps[i].positionId)
  {
    var qs := Without(ps, i);
    assert forall k :: 0 <= k < |qs| ==> qs[k] == ps[if k < i then k else k + 1];
    if Has(qs, id) {
      var k := RowOf(qs, id);
      RowIsUnique(ps, if k < i then k else k + 1);
    } else if Has(ps, id) && id != ps[i].positionId {
      var k := RowOf(ps, id);
      NoRow(qs, id, if k < i then k else k - 1);
    }
  }

  lemma RowsAfterUpdate(ps: seq<Position>, i: nat, p: Position, id: Key)
    requires UniqueIds(ps) && i < |ps| && p.positionId == ps[i].positionId
    ensures UniqueIds(ps[i := p])
    ensures OpenQty(ps[i := p], id) == if id == p.positionId then p.qty else OpenQty(ps, id)
    ensures Has(ps[i := p], id) == Has(ps, id)
  {
    var qs := ps[i := p];
    assert forall k :: 0 <= k < |qs| ==> qs[k].positionId == ps[k].positionId;
    RowIsUnique(qs, i);
    if Has(ps, id) {
      RowIsUnique(qs, RowOf(ps, id));
    } else if Has(qs, id) {
      NoRow(ps, id, RowOf(qs, id));
    }
  }

  lemma RowsAfterInsert(ps: seq<Position>, p: Position, id: Key)
    requires UniqueIds(ps) && !Has(ps, p.positionId)
    ensures UniqueIds(ps + [p])
    ensures OpenQty(ps + [p], id) == if id == p.positionId then p.qty else OpenQty(ps, id)
  {
    var qs := ps + [p];
    forall k | 0 <= k < |ps| ensures ps[k].positionId != p.positionId { NoRow(ps, p.positionId, k); }
    assert qs[..|qs| - 1] == ps;
  }

  lemma LegQtyOfAppend(ts: seq<Trade>, tr: Trade, id: Key)
    ensures LegQty(ts + [tr], id) == LegQty(ts, id) + if tr.positionId == id then tr.qty else 0.0
    ensures TradeIdTaken(ts + [tr], id) <==> TradeIdTaken(ts, id) || tr.tradeId == id
  {
  }

  /** A close moves quantity from the position to a leg, and drops at most EPSILON of it; a
      full close takes the position id as a trade id, so it happens once per id. */
  lemma CloseMovesQty(t: Tables, c: CloseRequest, id: Key)
    requires UniqueIds(t.positions) && Close(t, c).Ok?
    ensures var u := Close(t, c).value;
      && UniqueIds(u.positions)
      && OpenQty(t.positions, id) + LegQty(t.trades, id) ==
         OpenQty(u.positions, id) + LegQty(u.trades, id) + (if id == c.positionId then DustOf(t, c) else 0.0)
      && (TradeIdTaken(t.trades, id) ==> TradeIdTaken(u.trades, id))
    ensures 0.0 <= DustOf(t, c) <= EPSILON
    ensures DustOf(t, c) != 0.0 ==>
      !TradeIdTaken(t.trades, c.positionId) && TradeIdTaken(Close(t, c).value.trades, c.positionId)
  {
    var i := RowOf(t.positions, c.positionId);
    if i < |t.positions| && ClosedQty(t.positions[i], c.qty) > 0.0 {
      var p := t.positions[i];
      var full := FullyClosed(p, c.qty);
      var tradeId := if full then p.positionId else c.legId;
      var tr := ClosedTrade(p, tradeId, c.exit, ClosedQty(p, c.qty), c.reason, c.closedAt);
      LegQtyOfAppend(t.trades, tr, id);
      LegQtyOfAppend(t.trades, tr, c.positionId);
      if full {
        RowsAfterRemoval(t.positions, i, id);
      } else {
        RowsAfterUpdate(t.positions, i, p.(qty := Remaining(p, c.qty)), id);
      }
    }
  }

  lemma StepMovesQty(t: Tables, op: Op, id: Key, settings: Settings)
    requires UniqueIds(t.positions)
    ensures var u := After(t, op, settings);
      && UniqueIds(u.positions)
      && OpenQty(t.positions, id) + LegQty(t.trades, id) + OpenedBy(t, op, id, settings) ==
         OpenQty(u.positions, id) + LegQty(u.trades, id) + DustBy(t, op, id, settings)
      && (TradeIdTaken(t.trades, id) ==> TradeIdTaken(u.trades, id))
    ensures 0.0 <= DustBy(t, op, id, settings) <= EPSILON
    ensures DustBy(t, op, id, settings) != 0.0 ==>
      !TradeIdTaken(t.trades, id) && TradeIdTaken(After(t, op, settings).trades, id)
  {
    if Effect(t, op, settings).Ok? {
      hide Close, ClosedTrade, DustOf, UniqueIds;
      match op
      case OpOpen(s, fill, newId) =>
        var pid := if s.positionId != "" then s.positionId else newId;
        var price := FillOr(fill, FixedPctFill(s.entry, s.side, settings.slippage, false));
        RowsAfterInsert(t.positions, NewPosition(s, pid, price), id);
      case OpModify(s) =>
        var i := RowOf(t.positions, s.positionId);
        RowsAfterUpdate(t.positions, i, Modified(t.positions[i], s), id);
        if Has(t.positions, id) {
          SameQty(t.positions, i, s, id);
        }
      case OpClose(s, fill, legId) =>
        CloseMovesQty(t, RequestFor(t, op, settings).value, id);
      case OpAutoClose(request) =>
        CloseMovesQty(t, request, id);
    }
  }

  lemma SameQty(ps: seq<Position>, i: nat, s: ModifySignal, id: Key)
    requires i < |ps| && UniqueIds(ps) && i == RowOf(ps, s.positionId)
    ensures OpenQty(ps[i := Modified(ps[i], s)], id) == OpenQty(ps, id)
  {
    RowsAfterUpdate(ps, i, Modified(ps[i], s), id);
  }

  /** Conservation over every run: for every id ever used, opened quantity is what is still
      open plus the legs plus dust; dust is at most EPSILON over all of an id's lives and
      zero until the id has been fully closed. */
  lemma {:induction false} QuantityIsConserved(ops: seq<Op>, id: Key, settings: Settings)
    ensures var t := RunOps(EMPTY, ops, settings);
      && UniqueIds(t.positions)
      && OpenedOver(ops, id, settings) == OpenQty(t.positions, id) + LegQty(t.trades, id) + DustOver(ops, id, settings)
      && 0.0 <= DustOver(ops, id, settings) <= EPSILON
      && (!TradeIdTaken(t.trades, id) ==> DustOver(ops, id, settings) == 0.0)
    decreases |ops|
  {
    if ops != [] {
      hide Effect, OpenedBy, DustBy, After, UniqueIds, OpenQty;
      var before := ops[..|ops| - 1];
      QuantityIsConserved(before, id, settings);
      StepMovesQty(RunOps(EMPTY, before, settings), ops[|ops| - 1], id, settings);
    }
  }

  // --------------------------------------------------------- one position per alpha and symbol

  /** No two rows of this alpha share a symbol. */
  ghost predicate OnePerSymbol(ps: seq<Position>, alpha: Key) {
    forall i, j :: 0 <= i < j < |ps| && ps[i].alphaId == ps[j].alphaId == alpha ==> ps[i].symbol != ps[j].symbol
  }

  /** A signal of this alpha opts in to several positions on one symbol. */
  predicate OptsIn(op: Op, alpha: Key) { op.OpOpen? && op.open.alphaId == alpha && op.open.allowDuplicate }

  lemma CloseKeepsOwners(t: Tables, c: CloseRequest, alpha: Key)
    requires Close(t, c).Ok? && OnePerSymbol(t.positions, alpha)
    ensures OnePerSymbol(Close(t, c).value.positions, alpha)
  {
  }

  lemma StepKeepsOnePerSymbol(t: Tables, op: Op, alpha: Key, settings: Settings)
    requires OnePerSymbol(t.positions, alpha) && settings.rejectDuplicates && !OptsIn(op, alpha)
    ensures OnePerSymbol(After(t, op, settings).positions, alpha)
  {
    if Effect(t, op, settings).Ok? && RequestFor(t, op, settings).Some? {
      CloseKeepsOwners(t, RequestFor(t, op, settings).value, alpha);
    }
  }

  /** With the reject policy, an alpha that never opts in never holds two positions on one symbol, whatever the
      others do. */
  lemma {:induction false} NeverTwoPositions(ops: seq<Op>, alpha: Key, settings: Settings)
    requires settings.rejectDuplicates && forall i :: 0 <= i < |ops| ==> !OptsIn(ops[i], alpha)
    ensures OnePerSymbol(RunOps(EMPTY, ops, settings).positions, alpha)
    decreases |ops|
  {
    if ops != [] {
      var before := ops[..|ops| - 1];
      NeverTwoPositions(before, alpha, settings);
      StepKeepsOnePerSymbol(RunOps(EMPTY, before, settings), ops[|ops| - 1], alpha, settings);
    }
  }

  // ------------------------------------------------------------------- stops only tighten

  /** Same trade, and a stop that is set has not moved against it. */
  predicate Tightened(before: Position, after: Position) {
    && before.side == after.side && before.entryPrice == after.entryPrice
    && (before.sl.Some? ==> after.sl.Some?)
    && StopMayMove(before, after.sl)
  }

  predicate StillOpen(t: Tables, id: Key) { Has(t.positions, id) }

  lemma StepTightens(t: Tables, op: Op, id: Key, settings: Settings)
    requires UniqueIds(t.positions) && StillOpen(t, id) && StillOpen(After(t, op, settings), id)
    ensures var ps := After(t, op, settings).positions;
      Tightened(t.positions[RowOf(t.positions, id)], ps[RowOf(ps, id)])
  {
    var u, k := After(t, op, settings), RowOf(t.positions, id);
    if Effect(t, op, settings).Ok? {
      match op
      case OpOpen(_, _, _) =>
        assert u.positions[..|u.positions| - 1] == t.positions;
      case OpModify(s) =>
        var i := RowOf(t.positions, s.positionId);
        RowsAfterUpdate(t.positions, i, Modified(t.positions[i], s), id);
        RowIsUnique(u.positions, k);
      case _ =>
        CloseTightens(t, RequestFor(t, op, settings).value, id);
    }
  }

  lemma CloseTightens(t: Tables, c: CloseRequest, id: Key)
    requires UniqueIds(t.positions) && StillOpen(t, id) && Close(t, c).Ok? && StillOpen(Close(t, c).value, id)
    ensures var ps := Close(t, c).value.positions;
      Tightened(t.positions[RowOf(t.positions, id)], ps[RowOf(ps, id)])
  {
    var ps, qs := t.positions, Close(t, c).value.positions;
    var i, k := RowOf(ps, c.positionId), RowOf(ps, id);
    if qs != ps {
      if |qs| == |ps| {
        RowsAfterUpdate(ps, i, qs[i], id);
        RowIsUnique(qs, k);
      } else {
        RowsAfterRemoval(ps, i, id);
        var j := RowOf(qs, id);
        assert qs[j] == ps[if j < i then j else j + 1];
        RowIsUnique(ps, if j < i then j else j + 1);
      }
    }
  }

  /** Throughout the life of a position, from any moment to any later one. */
  lemma {:induction false} StopNeverMovesAgainst(t: Tables, ops: seq<Op>, id: Key, settings: Settings)
    requires UniqueIds(t.positions)
    requires forall n :: 0 <= n <= |ops| ==> StillOpen(RunOps(t, ops[..n], settings), id)
    ensures UniqueIds(RunOps(t, ops, settings).positions) && StillOpen(t, id) && StillOpen(RunOps(t, ops, settings), id)
    ensures Tightened(t.positions[RowOf(t.positions, id)],
      RunOps(t, ops, settings).positions[RowOf(RunOps(t, ops, settings).positions, id)])
    decreases |ops|
  {
    assert ops[..|ops|] == ops && RunOps(t, ops[..0], settings) == t;
    assert StillOpen(RunOps(t, ops[..0], settings), id) && StillOpen(RunOps(t, ops[..|ops|], settings), id);
    if ops != [] {
      var before := ops[..|ops| - 1];
      assert forall n :: 0 <= n <= |before| ==> before[..n] == ops[..n];
      StopNeverMovesAgainst(t, before, id, settings);
      var u := RunOps(t, before, settings);
      StepTightens(u, ops[|ops| - 1], id, settings);
      StepMovesQty(u, ops[|ops| - 1], id, settings);
    }
  }

  // ------------------------------------------------------------- a pass of the price check

  /** Rows only disappear, none with quantity changes, and the hit ones seen are gone. */
  ghost predicate Swept(t: Tables, u: Tables, seen: seq<Position>, quotes: Quotes) {
    && UniqueIds(u.positions)
    && (forall p :: p in u.positions ==> p in t.positions)
    && (forall p :: p in seen && p in u.positions && IsHit(p, quotes) ==> p.qty <= 0.0)
  }

  lemma AutoCloseSweeps(t: Tables, u: Tables, seen: seq<Position>, p: Position, quotes: Quotes, fills: Fills, now: int,
                        settings: Settings)
    requires UniqueIds(t.positions) && Swept(t, u, seen, quotes) && p in t.positions && IsHit(p, quotes)
    requires Close(u, AutoRequest(p, quotes, fills, now, settings)).Ok?
    ensures Swept(t, Close(u, AutoRequest(p, quotes, fills, now, settings)).value, seen + [p], quotes)
  {
    var v := Close(u, AutoRequest(p, quotes, fills, now, settings)).value;
    var i := RowOf(u.positions, p.positionId);
    if i < |u.positions| {
      var q := u.positions[i];
      assert q in t.positions;
      SameIdSameRow(t.positions, p, q);
      if p.qty > 0.0 {
        RowsAfterRemoval(u.positions, i, p.positionId);
        assert v.positions == Without(u.positions, i);
        assert forall r :: r in v.positions ==> r in u.positions;
        if p in v.positions {
          var k :| 0 <= k < |v.positions| && v.positions[k] == p;
          NoRow(v.positions, p.positionId, k);
        }
      }
    } else if p in u.positions {
      var k :| 0 <= k < |u.positions| && u.positions[k] == p;
      NoRow(u.positions, p.positionId, k);
    }
  }

  lemma SameIdSameRow(ps: seq<Position>, p: Position, q: Position)
    requires UniqueIds(ps) && p in ps && q in ps && p.positionId == q.positionId
    ensures p == q
  {
  }

  lemma {:induction false} HitsAreSwept(t: Tables, seen: seq<Position>, quotes: Quotes, fills: Fills, now: int,
                                        settings: Settings)
    requires UniqueIds(t.positions) && forall p :: p in seen ==> p in t.positions
    requires CloseHits(t, seen, quotes, fills, now, settings).Ok?
    ensures Swept(t, CloseHits(t, seen, quotes, fills, now, settings).value, seen, quotes)
    decreases |seen|
  {
    if seen != [] {
      var init, p := seen[..|seen| - 1], seen[|seen| - 1];
      HitsAreSwept(t, init, quotes, fills, now, settings);
      var u := CloseHits(t, init, quotes, fills, now, settings).value;
      assert seen == init + [p];
      if IsHit(p, quotes) {
        AutoCloseSweeps(t, u, init, p, quotes, fills, now, settings);
      }
    }
  }

  /** After a pass that finishes, no open position with quantity has its stop or take-profit
      reached at the quotes of that pass. */
  lemma NoHitSurvivesAPass(t: Tables, quotes: Quotes, fills: Fills, now: int, settings: Settings)
    requires UniqueIds(t.positions) && CloseHits(t, t.positions, quotes, fills, now, settings).Ok?
    ensures forall p :: p in CloseHits(t, t.positions, quotes, fills, now, settings).value.positions && p.qty > 0.0 ==>
      !IsHit(p, quotes)
  {
    HitsAreSwept(t, t.positions, quotes, fills, now, settings);
  }
}
