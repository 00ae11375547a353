/** The portfolio manager's cycle: fixed allocations over sleeve books, a per-coin cap, a gross
    target, EMA smoothing over the carried baseline, and a regime throttle. */
module Portfolio {
  import opened Wrappers
  import opened Reals
  import SortedKeys

  /** Target weights by symbol (its alphabetical rank). */
  type Weights = map<nat, real>

  datatype Error = BadAllocation | BadCap | BadGross | BadSpan | BadMultiplier

  function Get(w: Weights, s: nat): real { if s in w then w[s] else 0.0 }

  /** A product, named so that proofs can treat it as a whole. */
  function Times(f: real, x: real): real { f * x }

  /** The sum of absolute weights over some symbols. */
  function Gross(keys: set<nat>, w: Weights): real
    decreases keys
  {
    if keys == {} then 0.0
    else
      var x := SortedKeys.Largest(keys);
      Gross(keys - {x}, w) + Abs(Get(w, x))
  }

  function GrossOf(w: Weights): real { Gross(w.Keys, w) }

  // ------------------------------------------------------------------------------ the overlays

  function Capped(cap: real, x: real): real { Max(-cap, Min(cap, x)) }

  function PerCoinCap(w: Weights, cap: real): Result<Weights, Error> {
    if cap < 0.0 then Err(BadCap) else Ok(map s | s in w && w[s] != 0.0 :: Capped(cap, w[s]))
  }

  function Scaled(w: Weights, factor: real): Weights { map s | s in w && w[s] != 0.0 :: Times(factor, w[s]) }

  function GrossTarget(w: Weights, target: real): Result<Weights, Error> {
    if target < 0.0 then Err(BadGross)
    else if GrossOf(w) == 0.0 then Ok(map[])
    else Ok(Scaled(w, target / GrossOf(w)))
  }

  function Alpha(span: int): real
    requires span >= 1
  {
    2.0 / (span as real + 1.0)
  }

  function Mixed(a: real, w: Weights, p: Weights, s: nat): real { Times(a, Get(w, s)) + Times(1.0 - a, Get(p, s)) }

  function EmaSmooth(w: Weights, previous: Weights, span: int): Result<Weights, Error> {
    if span < 1 then Err(BadSpan)
    else if previous == map[] then Ok(map s | s in w && w[s] != 0.0 :: w[s])
    else
      Ok(map s | s in w.Keys + previous.Keys && Mixed(Alpha(span), w, previous, s) != 0.0 ::
        Mixed(Alpha(span), w, previous, s))
  }

  function RegimeThrottle(w: Weights, downtrend: bool, multiplier: real): Result<Weights, Error> {
    if !(0.0 <= multiplier <= 1.0) then Err(BadMultiplier)
    else Ok(Scaled(w, if downtrend then multiplier else 1.0))
  }

  // -------------------------------------------------------------------------------- the blend

  datatype Sleeve = Sleeve(id: nat, weight: real, maxStaleness: real)

  datatype Book = Book(weights: Weights, generatedAt: real)

  type Books = map<nat, Book>

  predicate IsStale(b: Book, maxStaleness: real, now: real) { Max(0.0, now - b.generatedAt) > maxStaleness }

  predicate Fresh(books: Books, s: Sleeve, now: real) { s.id in books && !IsStale(books[s.id], s.maxStaleness, now) }

  predicate AnyStale(books: Books, sleeves: seq<Sleeve>, now: real) {
    exists k :: 0 <= k < |sleeves| && !Fresh(books, sleeves[k], now)
  }

  function Total(sleeves: seq<Sleeve>): real {
    if sleeves == [] then 0.0 else Total(sleeves[..|sleeves| - 1]) + sleeves[|sleeves| - 1].weight
  }

  predicate SoundAllocation(sleeves: seq<Sleeve>) {
    (forall k :: 0 <= k < |sleeves| ==> sleeves[k].weight >= 0.0) && Abs(Total(sleeves) - 1.0) <= 0.000000001
  }

  /** One symbol of one book joins the blend. */
  function AddOne(output: Weights, s: nat, x: real): Weights { output[s := Get(output, s) + x] }

  /** A whole book joins the blend. */
  function AddBook(output: Weights, w: Weights, allocation: real): Weights {
    map s | s in output.Keys + w.Keys :: if s in w then Get(output, s) + Times(allocation, w[s]) else output[s]
  }

  function Blended(books: Books, sleeves: seq<Sleeve>, now: real): Weights {
    if sleeves == [] then map[]
    else
      var init, last := Blended(books, sleeves[..|sleeves| - 1], now), sleeves[|sleeves| - 1];
      if Fresh(books, last, now) then AddBook(init, books[last.id].weights, last.weight) else init
  }

  function SleevesThat(books: Books, sleeves: seq<Sleeve>, now: real, fresh': bool): seq<nat> {
    if sleeves == [] then []
    else
      var init, last := SleevesThat(books, sleeves[..|sleeves| - 1], now, fresh'), sleeves[|sleeves| - 1];
      if Fresh(books, last, now) == fresh' then init + [last.id] else init
  }

  /** What adding the symbols of a list one by one gives. */
  ghost predicate AddedUp(output: Weights, w: Weights, allocation: real, symbols: seq<nat>, out: Weights) {
    && (forall s :: s in out <==> s in output || s in symbols)
    && (forall s :: s in symbols ==> s in w && s in out && out[s] == Get(output, s) + Times(allocation, w[s]))
    && (forall s :: s in output && s !in symbols ==> s in out && out[s] == output[s])
  }

  /** Symbol by symbol, in the order of the book's keys. */
  method AddEach(output: Weights, w: Weights, allocation: real) returns (out: Weights)
    ensures out == AddBook(output, w, allocation)
  {
    hide Times, AddedUp, AddBook, AddOne, SortedKeys.Sorted, SortedKeys.Ascending;
    var symbols := SortedKeys.Sorted(w.Keys);
    SortedKeys.SortedIsAscending(w.Keys);
    out := output;
    AddNone(output, w, allocation);
    for k := 0 to |symbols|
      invariant AddedUp(output, w, allocation, symbols[..k], out)
    {
      SortedKeys.SortedHasAll(w.Keys);
      NextSymbolIsNew(symbols, k);
      assert symbols[k] in symbols;
      AddOneMore(output, w, allocation, symbols, k, out);
      out := AddOne(out, symbols[k], Times(allocation, w[symbols[k]]));
    }
    assert symbols[..|symbols|] == symbols;
    AddedAll(output, w, allocation, out);
  }

  lemma AddNone(output: Weights, w: Weights, allocation: real)
    ensures AddedUp(output, w, allocation, [], output)
  {
  }

  lemma AddedAll(output: Weights, w: Weights, allocation: real, out: Weights)
    requires AddedUp(output, w, allocation, SortedKeys.Sorted(w.Keys), out)
    ensures out == AddBook(output, w, allocation)
  {
    hide Times;
    SortedKeys.SortedHasAll(w.Keys);
  }

  lemma AddOneMore(output: Weights, w: Weights, allocation: real, symbols: seq<nat>, k: nat, out: Weights)
    requires k < |symbols| && symbols[k] !in symbols[..k] && symbols[k] in w
    requires AddedUp(output, w, allocation, symbols[..k], out)
    ensures AddedUp(output, w, allocation, symbols[..k + 1], AddOne(out, symbols[k], Times(allocation, w[symbols[k]])))
  {
  }

  lemma {:induction false} PrefixAscends(symbols: seq<nat>, k: nat)
    requires SortedKeys.Ascending(symbols) && k <= |symbols|
    ensures SortedKeys.Ascending(symbols[..k])
    decreases |symbols|
  {
    if k < |symbols| {
      PrefixAscends(symbols[..|symbols| - 1], k);
      assert symbols[..|symbols| - 1][..k] == symbols[..k];
    } else {
      assert symbols[..k] == symbols;
    }
  }

  lemma NextSymbolIsNew(symbols: seq<nat>, k: nat)
    requires SortedKeys.Ascending(symbols) && k < |symbols|
    ensures symbols[k] !in symbols[..k] && SortedKeys.Ascending(symbols[..k + 1])
  {
    PrefixAscends(symbols, k + 1);
    assert symbols[..k + 1][..k] == symbols[..k];
  }

  method BlendBooks(books: Books, sleeves: seq<Sleeve>, now: real)
    returns (r: Result<Weights, Error>, active: seq<nat>, stale: seq<nat>)
    ensures r == if SoundAllocation(sleeves) then Ok(Blended(books, sleeves, now)) else Err(BadAllocation)
    ensures r.Ok? ==>
      active == SleevesThat(books, sleeves, now, true) && stale == SleevesThat(books, sleeves, now, false)
  {
    active, stale := [], [];
    if !SoundAllocation(sleeves) {
      return Err(BadAllocation), active, stale;
    }
    var output: Weights := map[];
    for k := 0 to |sleeves|
      invariant output == Blended(books, sleeves[..k], now)
      invariant active == SleevesThat(books, sleeves[..k], now, true)
      invariant stale == SleevesThat(books, sleeves[..k], now, false)
    {
      assert sleeves[..k + 1][..k] == sleeves[..k];
      if !Fresh(books, sleeves[k], now) {
        stale := stale + [sleeves[k].id];
        continue;
      }
      active := active + [sleeves[k].id];
      output := AddEach(output, books[sleeves[k].id].weights, sleeves[k].weight);
    }
    assert sleeves[..|sleeves|] == sleeves;
    r := Ok(output);
  }

  // -------------------------------------------------------------------------------- the cycle

  /** The manager's configuration, and the regime given to a cycle: none, or whether it is a downtrend. */
  datatype Config = Config(sleeves: seq<Sleeve>, cap: real, gross: real, multiplier: real, span: Option<int>)

  /** Place of the sleeve with this id, or the length. */
  function Slot(sleeves: seq<Sleeve>, id: nat): (i: nat)
    ensures i <= |sleeves|
    ensures i < |sleeves| ==> sleeves[i].id == id
  {
    if sleeves == [] then 0
    else
      var i := Slot(sleeves[..|sleeves| - 1], id);
      if i < |sleeves| - 1 || sleeves[|sleeves| - 1].id == id then i else |sleeves|
  }

  /** The sleeves as the dictionaries by id hold them: in the order of first mention, with the last values. */
  function Collapsed(listed: seq<Sleeve>): seq<Sleeve> {
    if listed == [] then []
    else
      var before, s := Collapsed(listed[..|listed| - 1]), listed[|listed| - 1];
      if Slot(before, s.id) < |before| then before[Slot(before, s.id) := s] else before + [s]
  }

  function LastListed(listed: seq<Sleeve>, id: nat): Option<Sleeve> {
    if listed == [] then None
    else if listed[|listed| - 1].id == id then Some(listed[|listed| - 1])
    else LastListed(listed[..|listed| - 1], id)
  }

  lemma {:induction false} SlotAfterUpdate(sleeves: seq<Sleeve>, i: nat, s: Sleeve, id: nat)
    requires i < |sleeves| && sleeves[i].id == s.id
    ensures Slot(sleeves[i := s], id) == Slot(sleeves, id)
    decreases |sleeves|
  {
    var init := sleeves[..|sleeves| - 1];
    if i < |init| {
      assert sleeves[i := s][..|init|] == init[i := s];
      SlotAfterUpdate(init, i, s, id);
    } else {
      assert sleeves[i := s][..|init|] == init;
    }
  }

  /** Every listed id once, with what was listed for it last. */
  lemma {:induction false} CollapsedIsDictionary(listed: seq<Sleeve>, id: nat)
    ensures var held := Collapsed(listed);
      && (LastListed(listed, id).Some? <==> Slot(held, id) < |held|)
      && (Slot(held, id) < |held| ==> LastListed(listed, id) == Some(held[Slot(held, id)]))
      && (forall k :: 0 <= k < |held| && held[k].id == id ==> k == Slot(held, id))
    decreases |listed|
  {
    if listed != [] {
      var before, s := Collapsed(listed[..|listed| - 1]), listed[|listed| - 1];
      CollapsedIsDictionary(listed[..|listed| - 1], id);
      if Slot(before, s.id) < |before| {
        SlotAfterUpdate(before, Slot(before, s.id), s, id);
      } else {
        assert (before + [s])[..|before|] == before;
      }
    }
  }

  datatype Inputs = Inputs(books: Books, regime: Option<bool>, now: real)

  datatype Outcome = Outcome(baseline: Weights, candidate: Weights)

  function Baseline(c: Config, x: Inputs, previous: Weights): Result<Weights, Error> {
    if !SoundAllocation(c.sleeves) then Err(BadAllocation)
    else
      match PerCoinCap(Blended(x.books, c.sleeves, x.now), c.cap)
      case Err(e) => Err(e)
      case Ok(capped) =>
        match GrossTarget(capped, c.gross)
        case Err(e) => Err(e)
        case Ok(w) =>
          if c.span.Some? && w != map[] && !AnyStale(x.books, c.sleeves, x.now)
          then EmaSmooth(w, previous, c.span.value)
          else Ok(w)
  }

  function CycleOf(c: Config, x: Inputs, previous: Weights): Result<Outcome, Error> {
    match Baseline(c, x, previous)
    case Err(e) => Err(e)
    case Ok(baseline) =>
      if x.regime.None? then Ok(Outcome(baseline, baseline))
      else
        match RegimeThrottle(baseline, x.regime.value, c.multiplier)
        case Err(e) => Err(e)
        case Ok(candidate) => Ok(Outcome(baseline, candidate))
  }

  class PortfolioEngine {
    const config: Config
    var previous: Weights

    constructor (listed: Config)
      ensures config == listed.(sleeves := Collapsed(listed.sleeves)) && previous == map[]
    {
      config, previous := listed.(sleeves := Collapsed(listed.sleeves)), map[];
    }

    /** One cycle; a configuration error leaves the carried baseline alone. */
    method Cycle(x: Inputs) returns (r: Result<Outcome, Error>)
      modifies this
      ensures r == CycleOf(config, x, old(previous))
      ensures previous == if r.Ok? then r.value.baseline else old(previous)
    {
      var blended, active, stale := BlendBooks(x.books, config.sleeves, x.now);
      if blended.Err? {
        return Err(blended.error);
      }
      var capped := PerCoinCap(blended.value, config.cap);
      if capped.Err? {
        return Err(capped.error);
      }
      var baseline := GrossTarget(capped.value, config.gross);
      if baseline.Err? {
        return Err(baseline.error);
      }
      StaleListed(x.books, config.sleeves, x.now);
      if config.span.Some? && baseline.value != map[] && stale == [] {
        baseline := EmaSmooth(baseline.value, previous, config.span.value);
        if baseline.Err? {
          return Err(baseline.error);
        }
      }
      var candidate := Ok(baseline.value);
      if x.regime.Some? {
        candidate := RegimeThrottle(baseline.value, x.regime.value, config.multiplier);
        if candidate.Err? {
          return Err(candidate.error);
        }
      }
      previous := baseline.value;
      r := Ok(Outcome(baseline.value, candidate.value));
    }
  }

  lemma {:induction false} StaleListed(books: Books, sleeves: seq<Sleeve>, now: real)
    ensures SleevesThat(books, sleeves, now, false) == [] <==> !AnyStale(books, sleeves, now)
    decreases |sleeves|
  {
    if sleeves != [] {
      var init, last := sleeves[..|sleeves| - 1], sleeves[|sleeves| - 1];
      StaleListed(books, init, now);
      if AnyStale(books, init, now) {
        var k :| 0 <= k < |init| && !Fresh(books, init[k], now);
        assert sleeves[k] == init[k];
      }
      if AnyStale(books, sleeves, now) {
        var k :| 0 <= k < |sleeves| && !Fresh(books, sleeves[k], now);
        assert k < |init| ==> init[k] == sleeves[k];
      }
    }
  }

  /** What the active sleeves allocate to a symbol. */
  function Allocated(books: Books, sleeves: seq<Sleeve>, now: real, s: nat): real {
    if sleeves == [] then 0.0
    else
      var last := sleeves[|sleeves| - 1];
      Allocated(books, sleeves[..|sleeves| - 1], now, s) +
      if Fresh(books, last, now) then Times(last.weight, Get(books[last.id].weights, s)) else 0.0
  }

  /** The blend weighs every symbol by its active sleeves' allocations. */
  lemma {:induction false} BlendIsAllocation(books: Books, sleeves: seq<Sleeve>, now: real, s: nat)
    ensures Get(Blended(books, sleeves, now), s) == Allocated(books, sleeves, now, s)
    decreases |sleeves|
  {
    if sleeves != [] {
      var last := sleeves[|sleeves| - 1];
      BlendIsAllocation(books, sleeves[..|sleeves| - 1], now, s);
      TimesZero(last.weight);
      hide Times;
    }
  }

  /** Capping keeps the sign, never exceeds the cap and leaves a weight within it alone. */
  lemma CapBounds(w: Weights, cap: real, s: nat)
    requires cap >= 0.0
    ensures PerCoinCap(w, cap).Ok?
    ensures var r := PerCoinCap(w, cap).value;
      && Abs(Get(r, s)) == Min(cap, Abs(Get(w, s)))
      && (Get(w, s) >= 0.0 ==> Get(r, s) >= 0.0) && (Get(w, s) <= 0.0 ==> Get(r, s) <= 0.0)
  {
  }

  /** The candidate is the baseline, scaled down in a downtrend and untouched otherwise. */
  lemma CandidateIsThrottledBaseline(c: Config, x: Inputs, previous: Weights, s: nat)
    requires CycleOf(c, x, previous).Ok?
    ensures var r := CycleOf(c, x, previous).value;
      Get(r.candidate, s) ==
      if x.regime == Some(true) then Times(c.multiplier, Get(r.baseline, s)) else Get(r.baseline, s)
  {
  }

  // --------------------------------------------------------------------------- sums of weights

  lemma {:induction false} GrossSplit(keys: set<nat>, w: Weights, x: nat)
    requires x in keys
    ensures Gross(keys, w) == Gross(keys - {x}, w) + Abs(Get(w, x))
    decreases keys
  {
    var m := SortedKeys.Largest(keys);
    if x != m {
      GrossSplit(keys - {m}, w, x);
      var rest := keys - {x};
      assert m in rest && SortedKeys.Largest(rest) in keys;
      assert SortedKeys.Largest(rest) == m;
      assert keys - {m} - {x} == rest - {m};
    }
  }

  /** Symbols without a weight add nothing. */
  lemma {:induction false} GrossWide(keys: set<nat>, some: set<nat>, w: Weights)
    requires some <= keys && forall s :: s in keys && s !in some ==> Get(w, s) == 0.0
    ensures Gross(keys, w) == Gross(some, w)
    decreases |keys - some|
  {
    if x :| x in keys - some {
      GrossSplit(keys, w, x);
      assert (keys - {x}) - some == (keys - some) - {x};
      GrossWide(keys - {x}, some, w);
    } else {
      forall x | x in keys ensures x in some { assert x !in keys - some; }
      assert keys == some;
    }
  }

  lemma GrossOver(keys: set<nat>, w: Weights)
    requires w.Keys <= keys
    ensures Gross(keys, w) == GrossOf(w)
  {
    GrossWide(keys, w.Keys, w);
  }

  lemma {:induction false} GrossNonNegative(keys: set<nat>, w: Weights)
    ensures Gross(keys, w) >= 0.0
    decreases keys
  {
    if keys != {} {
      GrossNonNegative(keys - {SortedKeys.Largest(keys)}, w);
    }
  }

  lemma AbsOfTimes(f: real, x: real)
    requires f >= 0.0
    ensures Abs(Times(f, x)) == Times(f, Abs(x))
  {
  }

  lemma TimesSum(f: real, a: real, b: real)
    ensures Times(f, a + b) == Times(f, a) + Times(f, b)
  {
  }

  lemma TimesZero(f: real)
    ensures Times(f, 0.0) == 0.0
  {
  }

  lemma GrossStep(keys: set<nat>, w: Weights)
    requires keys != {}
    ensures Gross(keys, w) == Gross(keys - {SortedKeys.Largest(keys)}, w) + Abs(Get(w, SortedKeys.Largest(keys)))
  {
  }

  ghost predicate ScalesTo(keys: set<nat>, w: Weights, v: Weights, f: real) {
    forall s :: s in keys ==> Get(v, s) == Times(f, Get(w, s))
  }

  lemma {:induction false} GrossScales(keys: set<nat>, w: Weights, v: Weights, f: real)
    requires f >= 0.0 && ScalesTo(keys, w, v, f)
    ensures Gross(keys, v) == Times(f, Gross(keys, w))
    decreases keys
  {
    if keys == {} {
      TimesZero(f);
    } else {
      hide Get, Gross, Abs, Times;
      var x := SortedKeys.Largest(keys);
      GrossStep(keys, w);
      GrossStep(keys, v);
      GrossScales(keys - {x}, w, v, f);
      AbsOfTimes(f, Get(w, x));
      TimesSum(f, Gross(keys - {x}, w), Abs(Get(w, x)));
    }
  }

  ghost predicate MixesTo(keys: set<nat>, u: Weights, v: Weights, r: Weights, a: real, b: real) {
    forall s :: s in keys ==> Get(r, s) == Times(a, Get(u, s)) + Times(b, Get(v, s))
  }

  lemma MixedAbs(a: real, b: real, x: real, y: real)
    requires a >= 0.0 && b >= 0.0
    ensures Abs(Times(a, x) + Times(b, y)) <= Times(a, Abs(x)) + Times(b, Abs(y))
  {
  }

  /** The triangle inequality, over any symbols. */
  lemma {:induction false} GrossOfMix(keys: set<nat>, u: Weights, v: Weights, r: Weights, a: real, b: real)
    requires a >= 0.0 && b >= 0.0 && MixesTo(keys, u, v, r, a, b)
    ensures Gross(keys, r) <= Times(a, Gross(keys, u)) + Times(b, Gross(keys, v))
    decreases keys
  {
    if keys == {} {
      TimesZero(a);
      TimesZero(b);
    } else {
      hide Get, Gross, Abs, Times;
      var x := SortedKeys.Largest(keys);
      GrossStep(keys, u);
      GrossStep(keys, v);
      GrossStep(keys, r);
      GrossOfMix(keys - {x}, u, v, r, a, b);
      MixedAbs(a, b, Get(u, x), Get(v, x));
      TimesSum(a, Gross(keys - {x}, u), Abs(Get(u, x)));
      TimesSum(b, Gross(keys - {x}, v), Abs(Get(v, x)));
    }
  }

  // -------------------------------------------------------------------------- the gross bound

  lemma GrossOfScaled(w: Weights, f: real)
    requires f >= 0.0
    ensures GrossOf(Scaled(w, f)) == Times(f, GrossOf(w))
  {
    assert ScalesTo(w.Keys, w, Scaled(w, f), f) by {
      TimesZero(f);
      hide Times;
    }
    GrossScales(w.Keys, w, Scaled(w, f), f);
    GrossOver(w.Keys, Scaled(w, f));
  }

  /** Targeting hits the target exactly, unless there is nothing to scale. */
  lemma GrossTargetIsExact(w: Weights, target: real)
    requires target >= 0.0
    ensures GrossTarget(w, target).Ok?
    ensures GrossOf(GrossTarget(w, target).value) == if GrossOf(w) == 0.0 then 0.0 else target
  {
    GrossNonNegative(w.Keys, w);
    if GrossOf(w) != 0.0 {
      var f := target / GrossOf(w);
      assert f * GrossOf(w) == target;
      assert f >= 0.0;
      GrossOfScaled(w, f);
    }
  }

  lemma AlphaInRange(span: int)
    requires span >= 1
    ensures 0.0 < Alpha(span) <= 1.0
  {
  }

  lemma Monotone(a: real, x: real, y: real)
    requires a >= 0.0 && x <= y
    ensures Times(a, x) <= Times(a, y)
  {
  }

  lemma Shares(a: real, g: real)
    ensures Times(a, g) + Times(1.0 - a, g) == g
  {
  }

  lemma Convex(a: real, x: real, y: real, g: real)
    requires 0.0 <= a <= 1.0 && x <= g && y <= g
    ensures Times(a, x) + Times(1.0 - a, y) <= g
  {
    hide Times;
    Monotone(a, x, g);
    Monotone(1.0 - a, y, g);
    Shares(a, g);
  }

  /** Smoothing two books within a gross stays within it. */
  lemma SmoothingKeepsGross(w: Weights, previous: Weights, span: int, g: real)
    requires span >= 1 && GrossOf(w) <= g && GrossOf(previous) <= g
    ensures EmaSmooth(w, previous, span).Ok? && GrossOf(EmaSmooth(w, previous, span).value) <= g
  {
    var r := EmaSmooth(w, previous, span).value;
    AlphaInRange(span);
    if previous == map[] {
      FirstRound(w, span);
      GrossSame(w.Keys, w, r);
      GrossOver(w.Keys, r);
    } else {
      var keys, a := w.Keys + previous.Keys, Alpha(span);
      LaterRound(w, previous, span);
      hide Gross, Get, EmaSmooth, Alpha, Times;
      GrossOfMix(keys, w, previous, r, a, 1.0 - a);
      GrossOver(keys, w);
      GrossOver(keys, previous);
      GrossOver(keys, r);
      Convex(a, GrossOf(w), GrossOf(previous), g);
    }
  }

  lemma FirstRound(w: Weights, span: int)
    requires span >= 1
    ensures EmaSmooth(w, map[], span).Ok? && EmaSmooth(w, map[], span).value.Keys <= w.Keys
    ensures forall s :: Get(EmaSmooth(w, map[], span).value, s) == Get(w, s)
  {
  }

  /** What smoothing makes of each symbol; a result of zero is left out, which reads as zero. */
  lemma LaterRound(w: Weights, previous: Weights, span: int)
    requires span >= 1 && previous != map[]
    ensures EmaSmooth(w, previous, span).Ok? && EmaSmooth(w, previous, span).value.Keys <= w.Keys + previous.Keys
    ensures forall s :: Get(EmaSmooth(w, previous, span).value, s) == Mixed(Alpha(span), w, previous, s)
  {
  }

  lemma {:induction false} GrossSame(keys: set<nat>, w: Weights, v: Weights)
    requires forall s :: s in keys ==> Get(v, s) == Get(w, s)
    ensures Gross(keys, v) == Gross(keys, w)
    decreases keys
  {
    if keys != {} {
      GrossStep(keys, w);
      GrossStep(keys, v);
      hide Get, Gross;
      GrossSame(keys - {SortedKeys.Largest(keys)}, w, v);
    }
  }

  /** Throttling never adds exposure. */
  lemma ThrottleShrinks(w: Weights, downtrend: bool, multiplier: real)
    requires 0.0 <= multiplier <= 1.0
    ensures GrossOf(RegimeThrottle(w, downtrend, multiplier).value) <= GrossOf(w)
  {
    var f := if downtrend then multiplier else 1.0;
    GrossOfScaled(w, f);
    GrossNonNegative(w.Keys, w);
    Monotone(GrossOf(w), f, 1.0);
  }

  lemma CycleKeepsGross(c: Config, x: Inputs, previous: Weights)
    requires GrossOf(previous) <= c.gross && CycleOf(c, x, previous).Ok?
    ensures var r := CycleOf(c, x, previous).value;
      GrossOf(r.baseline) <= c.gross && GrossOf(r.candidate) <= GrossOf(r.baseline)
  {
    hide GrossOf, Gross;
    var capped := PerCoinCap(Blended(x.books, c.sleeves, x.now), c.cap).value;
    GrossTargetIsExact(capped, c.gross);
    var w := GrossTarget(capped, c.gross).value;
    if c.span.Some? && w != map[] && !AnyStale(x.books, c.sleeves, x.now) {
      SmoothingKeepsGross(w, previous, c.span.value, c.gross);
    }
    if x.regime.Some? {
      ThrottleShrinks(CycleOf(c, x, previous).value.baseline, x.regime.value, c.multiplier);
    }
  }

  /** The carried baseline after a run of cycles; a failing cycle carries on the old one. */
  function Carried(c: Config, start: Weights, xs: seq<Inputs>): Weights {
    if xs == [] then start
    else
      var before := Carried(c, start, xs[..|xs| - 1]);
      var r := CycleOf(c, xs[|xs| - 1], before);
      if r.Ok? then r.value.baseline else before
  }

  /** Over every run with a fixed gross target, baseline and candidate never exceed it. */
  lemma {:induction false} RunStaysWithinGross(c: Config, xs: seq<Inputs>)
    requires c.gross >= 0.0
    ensures GrossOf(Carried(c, map[], xs)) <= c.gross
    ensures xs != [] ==>
      var r := CycleOf(c, xs[|xs| - 1], Carried(c, map[], xs[..|xs| - 1]));
      r.Ok? ==> GrossOf(r.value.baseline) <= c.gross && GrossOf(r.value.candidate) <= c.gross
    decreases |xs|
  {
    if xs != [] {
      RunStaysWithinGross(c, xs[..|xs| - 1]);
      hide GrossOf, CycleOf;
      if CycleOf(c, xs[|xs| - 1], Carried(c, map[], xs[..|xs| - 1])).Ok? {
        CycleKeepsGross(c, xs[|xs| - 1], Carried(c, map[], xs[..|xs| - 1]));
      }
    }
  }

  // ------------------------------------------------------------------------------ stale cycles

  predicate Offered(books: Books, sleeves: seq<Sleeve>, now: real, s: nat) {
    exists k :: 0 <= k < |sleeves| && Fresh(books, sleeves[k], now) && s in books[sleeves[k].id].weights
  }

  lemma {:induction false} BlendedIsOffered(books: Books, sleeves: seq<Sleeve>, now: real, s: nat)
    ensures s in Blended(books, sleeves, now) <==> Offered(books, sleeves, now, s)
    decreases |sleeves|
  {
    if sleeves != [] {
      var init, last := sleeves[..|sleeves| - 1], sleeves[|sleeves| - 1];
      BlendedIsOffered(books, init, now, s);
      if Offered(books, init, now, s) {
        var k :| 0 <= k < |init| && Fresh(books, init[k], now) && s in books[init[k].id].weights;
        assert sleeves[k] == init[k];
      }
      if Offered(books, sleeves, now, s) {
        var k :| 0 <= k < |sleeves| && Fresh(books, sleeves[k], now) && s in books[sleeves[k].id].weights;
        assert k < |init| ==> init[k] == sleeves[k];
      }
    }
  }

  /** A cycle with a stale sleeve forgets: its result, errors included, is the same whatever was carried,
      so what it carries on is independent of every earlier cycle. */
  lemma StaleCycleForgets(c: Config, x: Inputs, p: Weights, q: Weights)
    requires AnyStale(x.books, c.sleeves, x.now)
    ensures CycleOf(c, x, p) == CycleOf(c, x, q)
  {
  }

  /** Such a cycle only outputs symbols of the books that are active now. */
  lemma StaleCycleUsesActiveBooks(c: Config, x: Inputs, previous: Weights, s: nat)
    requires AnyStale(x.books, c.sleeves, x.now) && CycleOf(c, x, previous).Ok?
    requires s in CycleOf(c, x, previous).value.baseline || s in CycleOf(c, x, previous).value.candidate
    ensures Offered(x.books, c.sleeves, x.now, s)
  {
    BlendedIsOffered(x.books, c.sleeves, x.now, s);
  }

  /** From a stale cycle on, a run does not depend on what was carried into it, that is on any earlier cycle. */
  lemma {:induction false} RunRestartsAtStale(c: Config, p: Weights, q: Weights, xs: seq<Inputs>)
    requires xs != [] && AnyStale(xs[0].books, c.sleeves, xs[0].now) && CycleOf(c, xs[0], p).Ok?
    ensures Carried(c, p, xs) == Carried(c, q, xs)
    decreases |xs|
  {
    if |xs| == 1 {
      assert Carried(c, p, xs[..0]) == p && Carried(c, q, xs[..0]) == q;
      StaleCycleForgets(c, xs[0], p, q);
    } else {
      hide CycleOf;
      RunRestartsAtStale(c, p, q, xs[..|xs| - 1]);
    }
  }

  // -------------------------------------------------------------------------------- smoothing

  function Power(f: real, n: nat): real { if n == 0 then 1.0 else Times(f, Power(f, n - 1)) }

  /** n rounds of smoothing towards one target. */
  function Rounds(w: Weights, start: Weights, span: int, n: nat): Weights
    requires span >= 1
  {
    if n == 0 then start else EmaSmooth(w, Rounds(w, start, span, n - 1), span).value
  }

  function Gap(w: Weights, r: Weights, s: nat): real { Get(r, s) - Get(w, s) }

  lemma RoundCloses(w: Weights, before: Weights, span: int, s: nat)
    requires span >= 1 && before != map[]
    ensures Gap(w, EmaSmooth(w, before, span).value, s) == Times(1.0 - Alpha(span), Gap(w, before, s))
  {
  }

  /** Smoothing towards a fixed target closes the gap by the same factor every round, symbol by symbol,
      also for symbols that only the old book had; a round from an empty book jumps to the target. */
  lemma {:induction false} SmoothingConverges(w: Weights, start: Weights, span: int, n: nat, s: nat)
    requires span >= 1 && forall k :: 0 <= k < n ==> Rounds(w, start, span, k) != map[]
    ensures Gap(w, Rounds(w, start, span, n), s) == Times(Power(1.0 - Alpha(span), n), Gap(w, start, s))
    decreases n
  {
    if n > 0 {
      hide EmaSmooth, Gap, Alpha, Times;
      SmoothingConverges(w, start, span, n - 1, s);
      assert Rounds(w, start, span, n - 1) != map[];
      RoundCloses(w, Rounds(w, start, span, n - 1), span, s);
      Grouped(1.0 - Alpha(span), Power(1.0 - Alpha(span), n - 1), Gap(w, start, s));
    } else {
      FullGap(Gap(w, start, s));
    }
  }

  lemma Grouped(a: real, b: real, c: real)
    ensures Times(a, Times(b, c)) == Times(Times(a, b), c)
  {
  }

  lemma FullGap(x: real)
    ensures Times(1.0, x) == x
  {
  }
}
