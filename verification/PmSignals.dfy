/** Which signals the portfolio manager publishes in a cycle and what each says, in terms of the snapshot, the target
    and the prices; and the row or trade each leaves in the worker. */
module PmSignals {
  import opened Wrappers
  import opened WorkerLedger
  import opened WorkerConservation
  import opened LedgerEffects
  import opened PmReconcile

  // --------------------------------------------------------------- the snapshot and the target

  predicate NoneNames(snaps: seq<Snap>, symbol: Key) { forall x :: x in snaps ==> x.symbol != symbol }

  /** The last entry of its symbol; entries without a symbol are ignored. */
  ghost predicate IsCurrent(snaps: seq<Snap>, s: Snap) {
    s.symbol != "" && exists i :: 0 <= i < |snaps| && snaps[i] == s && NoneNames(snaps[i + 1..], s.symbol)
  }

  lemma {:induction false} PutMeans(d: seq<Snap>, s: Snap)
    requires OnePerSymbolIn(d)
    ensures OnePerSymbolIn(Put(d, s)) && forall x :: x in Put(d, s) <==> x == s || (x in d && x.symbol != s.symbol)
    decreases |d|
  {
    if d != [] {
      assert forall x :: x in d <==> x == d[0] || x in d[1..];
      assert forall x :: x in d[1..] ==> x.symbol != d[0].symbol;
      if d[0].symbol != s.symbol {
        PutMeans(d[1..], s);
        var rest := Put(d[1..], s);
        assert forall i :: 0 <= i < |rest| ==> rest[i] in rest;
      }
    }
  }

  ghost predicate OnePerSymbolIn(d: seq<Snap>) { forall i, j :: 0 <= i < j < |d| ==> d[i].symbol != d[j].symbol }

  lemma NamesMore(tail: seq<Snap>, last: Snap, symbol: Key)
    ensures NoneNames(tail + [last], symbol) <==> NoneNames(tail, symbol) && last.symbol != symbol
  {
    assert last in tail + [last];
    forall x | x in tail ensures x in tail + [last] {
    }
  }

  lemma CurrentOfMore(init: seq<Snap>, last: Snap, s: Snap)
    ensures IsCurrent(init + [last], s) <==>
      s.symbol != "" && (s == last || (IsCurrent(init, s) && s.symbol != last.symbol))
  {
    hide NoneNames;
    var snaps := init + [last];
    if IsCurrent(snaps, s) {
      var i :| 0 <= i < |snaps| && snaps[i] == s && NoneNames(snaps[i + 1..], s.symbol);
      if i < |init| {
        assert snaps[i + 1..] == init[i + 1..] + [last];
        NamesMore(init[i + 1..], last, s.symbol);
        assert init[i] == s;
      }
    }
    if s.symbol != "" && s == last {
      NoneInNone(s.symbol);
      assert snaps[|init|] == s && snaps[|init| + 1..] == [];
    } else if IsCurrent(init, s) && s.symbol != last.symbol {
      var i :| 0 <= i < |init| && init[i] == s && NoneNames(init[i + 1..], s.symbol);
      NamesMore(init[i + 1..], last, s.symbol);
      assert snaps[i + 1..] == init[i + 1..] + [last] && snaps[i] == s;
    }
  }

  lemma NoneInNone(symbol: Key)
    ensures NoneNames([], symbol)
  {
  }

  /** The dictionary by symbol holds the current entries. */
  lemma {:induction false} DictionaryMeans(snaps: seq<Snap>)
    ensures OnePerSymbolIn(BySymbol(snaps)) && forall s :: s in BySymbol(snaps) <==> IsCurrent(snaps, s)
    decreases |snaps|
  {
    if snaps != [] {
      hide OnePerSymbolIn, IsCurrent;
      var init, last := snaps[..|snaps| - 1], snaps[|snaps| - 1];
      assert snaps == init + [last];
      DictionaryMeans(init);
      PutMeans(BySymbol(init), last);
      forall s ensures s in BySymbol(snaps) <==> IsCurrent(snaps, s) {
        CurrentOfMore(init, last, s);
        CurrentHasSymbol(init, s);
      }
    }
  }

  lemma CurrentHasSymbol(snaps: seq<Snap>, s: Snap)
    ensures IsCurrent(snaps, s) ==> s.symbol != ""
  {
  }

  /** The weight a target asks for: none is zero. */
  ghost predicate Asks(targets: seq<Target>, symbol: Key, w: real) {
    if exists t :: t in targets && t.symbol == symbol then Target(symbol, w) in targets else w == 0.0
  }

  lemma WeightInAsks(targets: seq<Target>, symbol: Key, w: real)
    requires ProperTargets(targets)
    ensures Asks(targets, symbol, w) <==> w == WeightIn(targets, symbol)
  {
    if t :| t in targets && t.symbol == symbol {
      WeightOfTarget(targets, t);
      assert t == Target(symbol, t.weight);
      if Target(symbol, w) in targets {
        WeightOfTarget(targets, Target(symbol, w));
      }
    } else {
      NotNamed(targets, symbol);
    }
  }

  lemma {:induction false} NotNamed(targets: seq<Target>, symbol: Key)
    requires forall t :: t in targets ==> t.symbol != symbol
    ensures WeightIn(targets, symbol) == 0.0
    decreases |targets|
  {
    if targets != [] {
      assert targets[|targets| - 1] in targets;
      NotNamed(targets[..|targets| - 1], symbol);
    }
  }

  // ------------------------------------------------------------------------------ the signals

  /** The weight that can be read off an entry: its own, or that of metadata in text form. */
  function Readable(s: Snap): Option<real> {
    if s.weight.Some? then s.weight
    else match s.metadata case AsText(w) => w case AsObject(_) => None
  }

  /** The entry is on the wrong side of its target weight, or readably off it by more than the tolerance. */
  predicate MustClose(s: Snap, w: real) {
    || !((w > 0.0 && s.side == Long) || (w < 0.0 && s.side == Short))
    || (Readable(s).Some? && (Readable(s).value - w > 0.000000001 || w - Readable(s).value > 0.000000001))
  }

  lemma NeedsCloseMeans(s: Snap, targets: seq<Target>, w: real)
    requires ProperTargets(targets) && Asks(targets, s.symbol, w)
    ensures NeedsClose(s, targets) <==> MustClose(s, w)
  {
    WeightInAsks(targets, s.symbol, w);
  }

  /** The current entry of a symbol stays. */
  ghost predicate Stays(snaps: seq<Snap>, symbol: Key, w: real) {
    exists s :: IsCurrent(snaps, s) && s.symbol == symbol && !MustClose(s, w)
  }

  /** A close of a current entry that must go. */
  ghost predicate IsCloseMsg(snaps: seq<Snap>, c: Cycle, m: Msg) {
    m.CloseMsg? &&
    exists s, w :: IsCurrent(snaps, s) && MustGo(c.targets, s, w) && m == CloseMsg(s.symbol, s.positionId)
  }

  ghost predicate MustGo(targets: seq<Target>, s: Snap, w: real) { Asks(targets, s.symbol, w) && MustClose(s, w) }

  /** A priced target that no staying entry covers. */
  ghost predicate ToOpen(snaps: seq<Snap>, c: Cycle, t: Target) {
    && t in c.targets && t.weight != 0.0 && t.symbol in c.prices && c.prices[t.symbol] > 0.0
    && !Stays(snaps, t.symbol, t.weight)
  }

  /** An opening of a priced target that no staying entry covers, at its share of the capital. */
  ghost predicate IsOpenMsg(snaps: seq<Snap>, c: Cycle, m: Msg) {
    && m.OpenMsg? && ToOpen(snaps, c, Target(m.symbol, m.weight)) && m.entry == c.prices[m.symbol]
    && m.side == (if m.weight > 0.0 then Long else Short)
    && m.qty == c.capital * (if m.weight > 0.0 then m.weight else -m.weight) / m.entry
    && (m.symbol in c.ids ==> m.positionId == c.ids[m.symbol])
  }

  lemma {:induction false} ClosesMean(d: seq<Snap>, targets: seq<Target>, m: Msg)
    ensures m in Closes(d, targets) <==>
      exists s :: s in d && NeedsClose(s, targets) && m == CloseMsg(s.symbol, s.positionId)
    decreases |d|
  {
    if d != [] {
      hide NeedsClose;
      var init, last := d[..|d| - 1], d[|d| - 1];
      ClosesMean(init, targets, m);
      assert last in d;
      forall s | s in d ensures s in init || s == last {}
    }
  }

  lemma {:induction false} OpensMean(d: seq<Snap>, c: Cycle, targets: seq<Target>, m: Msg)
    ensures m in OpensOf(d, c, targets) <==>
      exists t :: t in targets && Opening(d, c, t) && PriceOf(c, t.symbol) > 0.0 && m == OpenFrom(c, t)
    decreases |targets|
  {
    if targets != [] {
      hide Unchanged, OpenFrom;
      var init, last := targets[..|targets| - 1], targets[|targets| - 1];
      OpensMean(d, c, init, m);
      assert last in targets;
      forall t | t in targets ensures t in init || t == last {}
    }
  }

  lemma {:induction false} HoldingMeans(d: seq<Snap>, symbol: Key, side: Side)
    ensures Holding(d, symbol, side) <==> exists s :: s in d && s.symbol == symbol && s.side == side
    decreases |d|
  {
    if d != [] {
      var init, last := d[..|d| - 1], d[|d| - 1];
      HoldingMeans(init, symbol, side);
      assert last in d;
      forall s | s in d ensures s in init || s == last {}
    }
  }

  lemma {:induction false} ClosedInMeans(d: seq<Snap>, targets: seq<Target>, symbol: Key)
    ensures ClosedIn(d, targets, symbol) <==> exists s :: s in d && s.symbol == symbol && NeedsClose(s, targets)
    decreases |d|
  {
    if d != [] {
      hide NeedsClose;
      var init, last := d[..|d| - 1], d[|d| - 1];
      ClosedInMeans(init, targets, symbol);
      assert last in d;
      forall s | s in d ensures s in init || s == last {}
    }
  }

  lemma OneInDictionary(d: seq<Snap>, s: Snap, x: Snap)
    requires OnePerSymbolIn(d) && s in d && x in d && s.symbol == x.symbol
    ensures s == x
  {
  }

  lemma UnchangedMeans(snaps: seq<Snap>, targets: seq<Target>, t: Target)
    requires ProperTargets(targets) && t in targets && t.weight != 0.0
    ensures Unchanged(BySymbol(snaps), targets, t) <==> Stays(snaps, t.symbol, t.weight)
  {
    var d := BySymbol(snaps);
    DictionaryMeans(snaps);
    HoldingMeans(d, t.symbol, SideFor(t.weight));
    ClosedInMeans(d, targets, t.symbol);
    WeightOfTarget(targets, t);
    WeightInAsks(targets, t.symbol, t.weight);
    hide BySymbol, IsCurrent, NeedsClose, OnePerSymbolIn, Asks;
    forall s | s in d && s.symbol == t.symbol ensures NeedsClose(s, targets) <==> MustClose(s, t.weight) {
      NeedsCloseMeans(s, targets, t.weight);
    }
    if s :| s in d && s.symbol == t.symbol {
      forall x | x in d && x.symbol == t.symbol ensures x == s {
        OneInDictionary(d, s, x);
      }
    }
  }

  lemma OpenFromSays(c: Cycle, t: Target)
    requires PriceOf(c, t.symbol) > 0.0
    ensures t.symbol in c.prices && c.prices[t.symbol] > 0.0
    ensures var m := OpenFrom(c, t);
      && m.OpenMsg? && m.symbol == t.symbol && m.weight == t.weight && m.entry == c.prices[t.symbol]
      && m.side == (if t.weight > 0.0 then Long else Short)
      && m.qty == c.capital * (if t.weight > 0.0 then t.weight else -t.weight) / m.entry
      && (t.symbol in c.ids ==> m.positionId == c.ids[t.symbol])
  {
  }

  lemma PricedMeans(c: Cycle, symbol: Key)
    ensures PriceOf(c, symbol) > 0.0 <==> symbol in c.prices && c.prices[symbol] > 0.0
  {
  }

  lemma CloseMsgMeans(snaps: seq<Snap>, c: Cycle, m: Msg)
    requires ProperTargets(c.targets)
    ensures m in Closes(BySymbol(snaps), c.targets) <==> IsCloseMsg(snaps, c, m)
  {
    var d := BySymbol(snaps);
    DictionaryMeans(snaps);
    ClosesMean(d, c.targets, m);
    hide BySymbol, IsCurrent, NeedsClose, MustClose, Asks, OnePerSymbolIn;
    if s :| s in d && NeedsClose(s, c.targets) && m == CloseMsg(s.symbol, s.positionId) {
      WeightInAsks(c.targets, s.symbol, WeightIn(c.targets, s.symbol));
      NeedsCloseMeans(s, c.targets, WeightIn(c.targets, s.symbol));
      assert MustGo(c.targets, s, WeightIn(c.targets, s.symbol));
    }
    if IsCloseMsg(snaps, c, m) {
      var s, w :| IsCurrent(snaps, s) && MustGo(c.targets, s, w) && m == CloseMsg(s.symbol, s.positionId);
      NeedsCloseMeans(s, c.targets, w);
    }
  }

  lemma OpenMsgMeans(snaps: seq<Snap>, c: Cycle, m: Msg)
    requires ProperTargets(c.targets)
    ensures m in OpensOf(BySymbol(snaps), c, c.targets) ==> IsOpenMsg(snaps, c, m)
    ensures forall t :: ToOpen(snaps, c, t) ==>
      PriceOf(c, t.symbol) > 0.0 && OpenFrom(c, t) in OpensOf(BySymbol(snaps), c, c.targets)
  {
    var d := BySymbol(snaps);
    hide BySymbol, Unchanged, OpenFrom, Stays;
    OpensMean(d, c, c.targets, m);
    if t :| t in c.targets && Opening(d, c, t) && PriceOf(c, t.symbol) > 0.0 && m == OpenFrom(c, t) {
      UnchangedMeans(snaps, c.targets, t);
      OpenFromSays(c, t);
    }
    forall t | ToOpen(snaps, c, t)
      ensures PriceOf(c, t.symbol) > 0.0 && OpenFrom(c, t) in OpensOf(d, c, c.targets)
    {
      PricedMeans(c, t.symbol);
      UnchangedMeans(snaps, c.targets, t);
      OpensMean(d, c, c.targets, OpenFrom(c, t));
    }
  }

  /** Every signal of a cycle, from any snapshot: first the closes, of exactly the current entries that must go; then
      the openings, of exactly the priced targets that no staying entry covers. */
  lemma CycleSays(snaps: seq<Snap>, c: Cycle)
    requires ProperTargets(c.targets)
    ensures var ms := Published(snaps, c);
      && ClosesFirst(ms)
      && (forall m :: m in ms && m.OpenMsg? ==> IsOpenMsg(snaps, c, m))
      && (forall m: Msg :: m.CloseMsg? ==> (m in ms <==> IsCloseMsg(snaps, c, m)))
      && (forall t :: ToOpen(snaps, c, t) ==> OpensFor(ms, t))
  {
    var closes, opens := Closes(BySymbol(snaps), c.targets), OpensOf(BySymbol(snaps), c, c.targets);
    KindsApart(BySymbol(snaps), c, c.targets);
    assert Published(snaps, c) == closes + opens;
    hide Closes, OpensOf, BySymbol, IsCloseMsg, IsOpenMsg, Stays, OpenFrom, ClosesFirst, Published;
    forall m ensures m in closes <==> IsCloseMsg(snaps, c, m) { CloseMsgMeans(snaps, c, m); }
    forall m | m in opens ensures IsOpenMsg(snaps, c, m) { OpenMsgMeans(snaps, c, m); }
    assert forall m :: m in closes + opens <==> m in closes || m in opens;
    forall t | ToOpen(snaps, c, t)
      ensures OpensFor(closes + opens, t)
    {
      OpenMsgMeans(snaps, c, CloseMsg("", ""));
      OpenFromSays(c, t);
      assert OpenFrom(c, t) in closes + opens;
    }
  }

  ghost predicate OpensFor(ms: seq<Msg>, t: Target) {
    exists m :: m in ms && m.OpenMsg? && m.symbol == t.symbol && m.weight == t.weight
  }

  lemma {:induction false} AllCloses(d: seq<Snap>, targets: seq<Target>)
    ensures forall i :: 0 <= i < |Closes(d, targets)| ==> Closes(d, targets)[i].CloseMsg?
    decreases |d|
  {
    if d != [] {
      AllCloses(d[..|d| - 1], targets);
    }
  }

  lemma {:induction false} AllOpens(d: seq<Snap>, c: Cycle, targets: seq<Target>)
    ensures forall i :: 0 <= i < |OpensOf(d, c, targets)| ==> OpensOf(d, c, targets)[i].OpenMsg?
    decreases |targets|
  {
    if targets != [] {
      AllOpens(d, c, targets[..|targets| - 1]);
    }
  }

  ghost predicate ClosesFirst(ms: seq<Msg>) { forall i, j :: 0 <= i < j < |ms| && ms[i].OpenMsg? ==> ms[j].OpenMsg? }

  lemma KindsApart(d: seq<Snap>, c: Cycle, targets: seq<Target>)
    ensures ClosesFirst(Closes(d, targets) + OpensOf(d, c, targets))
    ensures forall m :: m in Closes(d, targets) ==> m.CloseMsg?
    ensures forall m :: m in OpensOf(d, c, targets) ==> m.OpenMsg?
  {
    AllCloses(d, targets);
    AllOpens(d, c, targets);
    hide Closes, OpensOf;
  }

  // ----------------------------------------------------------------------- what they leave

  /** The row of an opening, at the resolved fill of its symbol or with the slip against it. */
  lemma OpeningLeaves(t: Tables, m: Msg, d: Desk)
    requires m.OpenMsg? && m.positionId != "" && Apply(t, m, d).Ok?
    ensures var u := Apply(t, m, d).value;
      && u.trades == t.trades && |u.positions| == |t.positions| + 1 && u.positions[..|t.positions|] == t.positions
      && var p := u.positions[|t.positions|];
      && p == Position(m.positionId, d.alpha, "", m.symbol, m.side, p.entryPrice, m.qty, None, None, d.now,
                       Some(m.weight), d.sessionExchange, d.feePct)
      && (if m.symbol in d.openFills then p.entryPrice == d.openFills[m.symbol]
          else IsSlipped(p.entryPrice, m.entry, m.side, d.settings.slippage, false))
  {
    OpenMeans(t, OpenSignalOf(m, d), Fill(d.openFills, m.symbol), "", d.settings);
    hide IsSlipped, Open;
  }

  /** The trade of a close: all of the position, at the resolved fill of its symbol or at its entry with the slip
      against it. */
  lemma ClosingLeaves(t: Tables, m: Msg, d: Desk, k: nat)
    requires m.CloseMsg? && UniqueIds(t.positions) && At(t.positions, k, m.positionId) && Apply(t, m, d).Ok?
    ensures var u, p := Apply(t, m, d).value, t.positions[k];
      && u.positions == t.positions[..k] + t.positions[k + 1..]
      && |u.trades| == |t.trades| + 1 && u.trades[..|t.trades|] == t.trades
      && var x := u.trades[|t.trades|];
      && IsLeg(x, p, p.positionId, p.qty, x.exitPrice, "PM_RECONCILE", d.now)
      && (if m.symbol in d.closeFills then x.exitPrice == d.closeFills[m.symbol]
          else IsSlipped(x.exitPrice, p.entryPrice, p.side, d.settings.slippage, true))
  {
    var s := CloseSignal(m.positionId, None, None, "PM_RECONCILE", d.now, false);
    CloseSignalMeans(t, s, Fill(d.closeFills, m.symbol), "", d.settings, k);
    hide IsLeg, IsSlipped, CloseBySignal;
  }
}
