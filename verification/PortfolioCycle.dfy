/** What a cycle of the portfolio manager outputs, symbol by symbol, in terms of the books, the configuration and
    the carried baseline; and when it fails instead. */
module PortfolioCycle {
  import opened Wrappers
  import opened Portfolio
  import SortedKeys

  // ------------------------------------------------------------------------- the allocation

  /** The sleeve's book was generated no longer ago than its limit; one from the future counts as new. */
  predicate UpToDate(books: Books, s: Sleeve, now: real) {
    && s.id in books && s.maxStaleness >= 0.0
    && books[s.id].generatedAt >= now - s.maxStaleness
  }

  lemma FreshIsUpToDate(books: Books, s: Sleeve, now: real)
    ensures Fresh(books, s, now) <==> UpToDate(books, s, now)
  {
  }

  /** What the sleeves with a fresh book give a symbol together. */
  function Given(books: Books, sleeves: seq<Sleeve>, now: real, s: nat): real {
    if sleeves == [] then 0.0
    else
      var last := sleeves[|sleeves| - 1];
      Given(books, sleeves[..|sleeves| - 1], now, s) +
      if UpToDate(books, last, now) && s in books[last.id].weights then last.weight * books[last.id].weights[s] else 0.0
  }

  lemma {:induction false} AllocatedIsGiven(books: Books, sleeves: seq<Sleeve>, now: real, s: nat)
    ensures Allocated(books, sleeves, now, s) == Given(books, sleeves, now, s)
    decreases |sleeves|
  {
    if sleeves != [] {
      AllocatedIsGiven(books, sleeves[..|sleeves| - 1], now, s);
      FreshIsUpToDate(books, sleeves[|sleeves| - 1], now);
    }
  }

  ghost predicate Listed(books: Books, sleeves: seq<Sleeve>, now: real, active: bool, id: nat) {
    exists k :: 0 <= k < |sleeves| && sleeves[k].id == id && UpToDate(books, sleeves[k], now) == active
  }

  lemma ListedMore(books: Books, init: seq<Sleeve>, last: Sleeve, now: real, active: bool, id: nat)
    ensures Listed(books, init + [last], now, active, id) <==>
      Listed(books, init, now, active, id) || (last.id == id && UpToDate(books, last, now) == active)
  {
    hide UpToDate;
    var sleeves := init + [last];
    if Listed(books, init, now, active, id) {
      var k :| 0 <= k < |init| && init[k].id == id && UpToDate(books, init[k], now) == active;
      assert sleeves[k] == init[k];
    }
    assert sleeves[|init|] == last;
  }

  /** The active sleeves and the stale ones: each sleeve is on one of the two lists. */
  lemma {:induction false} ListsMean(books: Books, sleeves: seq<Sleeve>, now: real, active: bool)
    ensures forall id :: id in SleevesThat(books, sleeves, now, active) <==> Listed(books, sleeves, now, active, id)
    ensures |SleevesThat(books, sleeves, now, true)| + |SleevesThat(books, sleeves, now, false)| == |sleeves|
    decreases |sleeves|
  {
    if sleeves != [] {
      hide UpToDate, Listed, Fresh;
      var init, last := sleeves[..|sleeves| - 1], sleeves[|sleeves| - 1];
      ListsMean(books, init, now, active);
      FreshIsUpToDate(books, last, now);
      assert sleeves == init + [last];
      forall id ensures id in SleevesThat(books, sleeves, now, active) <==> Listed(books, sleeves, now, active, id) {
        ListedMore(books, init, last, now, active, id);
      }
    } else {
      assert forall id :: !Listed(books, [], now, active, id);
    }
  }

  function SumOfWeights(sleeves: seq<Sleeve>): real {
    if sleeves == [] then 0.0 else sleeves[0].weight + SumOfWeights(sleeves[1..])
  }

  lemma {:induction false} TotalIsSum(sleeves: seq<Sleeve>)
    ensures Total(sleeves) == SumOfWeights(sleeves)
    decreases |sleeves|
  {
    if sleeves != [] {
      TotalIsSum(sleeves[1..]);
      TotalFromFront(sleeves);
    }
  }

  lemma {:induction false} TotalFromFront(sleeves: seq<Sleeve>)
    requires sleeves != []
    ensures Total(sleeves) == sleeves[0].weight + Total(sleeves[1..])
    decreases |sleeves|
  {
    if |sleeves| > 1 {
      TotalFromFront(sleeves[..|sleeves| - 1]);
      assert sleeves[1..][..|sleeves| - 2] == sleeves[..|sleeves| - 1][1..];
    }
  }

  predicate Allocates(sleeves: seq<Sleeve>) {
    && (forall k :: 0 <= k < |sleeves| ==> sleeves[k].weight >= 0.0)
    && 1.0 - 0.000000001 <= SumOfWeights(sleeves) <= 1.0 + 0.000000001
  }

  // -------------------------------------------------------------------------------- the cycle

  /** A weight within the cap on either side. */
  function Within(cap: real, x: real): real { if x > cap then cap else if x < -cap then -cap else x }

  ghost predicate AllUpToDate(c: Config, x: Inputs) {
    forall k :: 0 <= k < |c.sleeves| ==> UpToDate(x.books, c.sleeves[k], x.now)
  }

  /** The blended weights, each within the cap. */
  ghost predicate IsCapped(c: Config, x: Inputs, w: Weights) {
    forall s :: Get(w, s) == Within(c.cap, Given(x.books, c.sleeves, x.now, s))
  }

  ghost predicate ScalesBy(f: real, capped: Weights, w: Weights, gross: real) {
    f * GrossOf(capped) == gross && forall s :: Get(w, s) == f * Get(capped, s)
  }

  /** Scaled to the gross target, all by one factor. */
  ghost predicate IsScaled(c: Config, capped: Weights, w: Weights) {
    if GrossOf(capped) == 0.0 then w == map[]
    else
      w != map[] && exists f :: ScalesBy(f, capped, w, c.gross)
  }

  /** Smoothed with the carried baseline, unless there is none, a sleeve is stale or there is nothing to smooth. */
  ghost predicate IsSmoothed(c: Config, x: Inputs, previous: Weights, w: Weights, r: Weights) {
    if c.span.Some? && AllUpToDate(c, x) && w != map[] && previous != map[] && c.span.value >= 1 then
      var n := c.span.value as real;
      forall s :: (n + 1.0) * Get(r, s) == 2.0 * Get(w, s) + (n - 1.0) * Get(previous, s)
    else forall s :: Get(r, s) == Get(w, s)
  }

  ghost predicate IsThrottled(c: Config, x: Inputs, r: Outcome) {
    forall s :: Get(r.candidate, s) ==
      if x.regime == Some(true) then c.multiplier * Get(r.baseline, s) else Get(r.baseline, s)
  }

  ghost predicate Outputs(c: Config, x: Inputs, previous: Weights, r: Outcome) {
    && IsThrottled(c, x, r)
    && exists capped, w: Weights ::
         IsCapped(c, x, capped) && IsScaled(c, capped, w) && IsSmoothed(c, x, previous, w, r.baseline)
  }

  lemma CapsWithin(w: Weights, cap: real, s: nat)
    requires cap >= 0.0
    ensures PerCoinCap(w, cap).Ok? && Get(PerCoinCap(w, cap).value, s) == Within(cap, Get(w, s))
  {
  }

  lemma CappedMeans(c: Config, x: Inputs)
    requires c.cap >= 0.0
    ensures IsCapped(c, x, PerCoinCap(Blended(x.books, c.sleeves, x.now), c.cap).value)
  {
    CapsWithin(Blended(x.books, c.sleeves, x.now), c.cap, 0);
    hide Blended, Within, PerCoinCap, Given, Allocated;
    forall s
      ensures Get(PerCoinCap(Blended(x.books, c.sleeves, x.now), c.cap).value, s) ==
        Within(c.cap, Given(x.books, c.sleeves, x.now, s))
    {
      CapsWithin(Blended(x.books, c.sleeves, x.now), c.cap, s);
      BlendIsAllocation(x.books, c.sleeves, x.now, s);
      AllocatedIsGiven(x.books, c.sleeves, x.now, s);
    }
  }

  lemma {:induction false} NoGrossNoWeight(keys: set<nat>, w: Weights)
    requires forall s :: s in keys ==> Get(w, s) == 0.0
    ensures Gross(keys, w) == 0.0
    decreases keys
  {
    if keys != {} {
      GrossStep(keys, w);
      hide Gross, Get;
      NoGrossNoWeight(keys - {SortedKeys.Largest(keys)}, w);
    }
  }

  lemma ScaledMeans(c: Config, capped: Weights)
    requires c.gross >= 0.0
    ensures IsScaled(c, capped, GrossTarget(capped, c.gross).value)
  {
    if GrossOf(capped) != 0.0 {
      var f := c.gross / GrossOf(capped);
      assert f * GrossOf(capped) == c.gross;
      if forall s :: s in capped ==> capped[s] == 0.0 {
        NoGrossNoWeight(capped.Keys, capped);
      }
      hide GrossOf;
      ScaledBy(capped, f);
      assert ScalesBy(f, capped, Scaled(capped, f), c.gross);
    }
  }

  lemma ScaledBy(w: Weights, f: real)
    ensures forall s :: Get(Scaled(w, f), s) == f * Get(w, s)
    ensures (exists s :: s in w && w[s] != 0.0) ==> Scaled(w, f) != map[]
  {
    forall s ensures Get(Scaled(w, f), s) == f * Get(w, s) {
      ScaledAt(w, f, s);
    }
    hide Times, Get;
    if s :| s in w && w[s] != 0.0 {
      assert s in Scaled(w, f);
    }
  }

  lemma ScaledAt(w: Weights, f: real, s: nat)
    ensures Get(Scaled(w, f), s) == f * Get(w, s)
  {
  }

  lemma MixIsAverage(span: int, x: real, y: real)
    requires span >= 1
    ensures (span as real + 1.0) * (Times(Alpha(span), x) + Times(1.0 - Alpha(span), y)) ==
      2.0 * x + (span as real - 1.0) * y
  {
    var n, a := span as real, Alpha(span);
    assert (n + 1.0) * a == 2.0;
    assert (n + 1.0) * (a * x) == 2.0 * x;
    assert (n + 1.0) * ((1.0 - a) * y) == ((n + 1.0) - (n + 1.0) * a) * y;
  }

  lemma SmoothedMeans(w: Weights, previous: Weights, span: int)
    requires span >= 1
    ensures var r := EmaSmooth(w, previous, span).value;
      if previous == map[] then forall s :: Get(r, s) == Get(w, s)
      else forall s :: (span as real + 1.0) * Get(r, s) == 2.0 * Get(w, s) + (span as real - 1.0) * Get(previous, s)
  {
    hide Times, Alpha, EmaSmooth, Get;
    if previous == map[] {
      FirstRound(w, span);
    } else {
      LaterRound(w, previous, span);
      forall s ensures (span as real + 1.0) * Get(EmaSmooth(w, previous, span).value, s) ==
          2.0 * Get(w, s) + (span as real - 1.0) * Get(previous, s)
      {
        MixIsAverage(span, Get(w, s), Get(previous, s));
      }
    }
  }

  lemma StaleMeans(c: Config, x: Inputs)
    ensures AnyStale(x.books, c.sleeves, x.now) <==> !AllUpToDate(c, x)
  {
    forall k | 0 <= k < |c.sleeves|
      ensures Fresh(x.books, c.sleeves[k], x.now) <==> UpToDate(x.books, c.sleeves[k], x.now)
    {
      FreshIsUpToDate(x.books, c.sleeves[k], x.now);
    }
    hide Fresh, UpToDate;
  }

  /** A cycle that succeeds: the fresh books by their allocations, each symbol within the cap, all scaled to the gross
      target, smoothed with the carried baseline unless a sleeve is stale, and throttled in a downtrend. */
  lemma CycleMeans(c: Config, x: Inputs, previous: Weights)
    requires CycleOf(c, x, previous).Ok?
    ensures Outputs(c, x, previous, CycleOf(c, x, previous).value)
  {
    var r := CycleOf(c, x, previous).value;
    var capped := PerCoinCap(Blended(x.books, c.sleeves, x.now), c.cap).value;
    var w := GrossTarget(capped, c.gross).value;
    CappedMeans(c, x);
    ScaledMeans(c, capped);
    StaleMeans(c, x);
    BaselineMeans(c, x, previous, w);
    CandidateMeans(c, x, previous);
    hide CycleOf, IsCapped, IsScaled, IsSmoothed, IsThrottled;
    assert IsCapped(c, x, capped) && IsScaled(c, capped, w) && IsSmoothed(c, x, previous, w, r.baseline);
  }

  lemma BaselineMeans(c: Config, x: Inputs, previous: Weights, w: Weights)
    requires CycleOf(c, x, previous).Ok?
    requires GrossTarget(PerCoinCap(Blended(x.books, c.sleeves, x.now), c.cap).value, c.gross) == Ok(w)
    ensures IsSmoothed(c, x, previous, w, CycleOf(c, x, previous).value.baseline)
  {
    StaleMeans(c, x);
    hide Blended, PerCoinCap, GrossTarget, Get, EmaSmooth, AnyStale, AllUpToDate, SoundAllocation, RegimeThrottle;
    if c.span.Some? && c.span.value >= 1 {
      SmoothedMeans(w, previous, c.span.value);
    } else if c.span.Some? {
      SpanIsChecked(w, previous, c.span.value);
    }
  }

  lemma SpanIsChecked(w: Weights, previous: Weights, span: int)
    ensures EmaSmooth(w, previous, span) == Err(BadSpan) <==> span < 1
    ensures EmaSmooth(w, previous, span).Err? <==> span < 1
  {
  }

  lemma CandidateMeans(c: Config, x: Inputs, previous: Weights)
    requires CycleOf(c, x, previous).Ok?
    ensures IsThrottled(c, x, CycleOf(c, x, previous).value)
  {
    hide CycleOf;
    forall s
      ensures Get(CycleOf(c, x, previous).value.candidate, s) ==
        if x.regime == Some(true) then c.multiplier * Get(CycleOf(c, x, previous).value.baseline, s)
        else Get(CycleOf(c, x, previous).value.baseline, s)
    {
      CandidateIsThrottledBaseline(c, x, previous, s);
      Multiplies(c.multiplier, Get(CycleOf(c, x, previous).value.baseline, s));
    }
  }

  lemma Multiplies(f: real, x: real)
    ensures Times(f, x) == f * x
  {
  }

  /** The first fault in the configuration, in the order in which a cycle meets them. */
  ghost predicate Fails(c: Config, x: Inputs, e: Error) {
    if !Allocates(c.sleeves) then e == BadAllocation
    else if c.cap < 0.0 then e == BadCap
    else if c.gross < 0.0 then e == BadGross
    else if c.span.Some? && c.span.value < 1 && AllUpToDate(c, x) && SomethingToHold(c, x) then e == BadSpan
    else x.regime.Some? && (c.multiplier < 0.0 || c.multiplier > 1.0) && e == BadMultiplier
  }

  /** Some symbol has a weight after the cap. */
  ghost predicate SomethingToHold(c: Config, x: Inputs) {
    exists s :: Within(c.cap, Given(x.books, c.sleeves, x.now, s)) != 0.0
  }

  lemma {:induction false} GrossFindsWeight(keys: set<nat>, w: Weights, s: nat)
    requires s in keys && Get(w, s) != 0.0
    ensures Gross(keys, w) > 0.0
  {
    GrossSplit(keys, w, s);
    GrossNonNegative(keys - {s}, w);
  }

  lemma HoldsIffGross(c: Config, x: Inputs, capped: Weights)
    requires IsCapped(c, x, capped)
    ensures GrossOf(capped) != 0.0 <==> SomethingToHold(c, x)
  {
    hide Gross, Within, Given;
    if SomethingToHold(c, x) {
      var s :| Within(c.cap, Given(x.books, c.sleeves, x.now, s)) != 0.0;
      GrossFindsWeight(capped.Keys, capped, s);
    } else {
      forall s | s in capped.Keys ensures Get(capped, s) == 0.0 {
        assert Get(capped, s) == Within(c.cap, Given(x.books, c.sleeves, x.now, s));
      }
      NoGrossNoWeight(capped.Keys, capped);
    }
  }

  /** A cycle fails exactly for these faults, each with its own error, and then the first of them. */
  lemma CycleFailsIff(c: Config, x: Inputs, previous: Weights)
    ensures CycleOf(c, x, previous).Err? ==> Fails(c, x, CycleOf(c, x, previous).error)
    ensures CycleOf(c, x, previous).Ok? ==> forall e :: !Fails(c, x, e)
  {
    TotalIsSum(c.sleeves);
    StaleMeans(c, x);
    hide AnyStale, AllUpToDate, Blended, Total, SumOfWeights, SomethingToHold, EmaSmooth, Scaled;
    if SoundAllocation(c.sleeves) && c.cap >= 0.0 && c.gross >= 0.0 {
      var capped := PerCoinCap(Blended(x.books, c.sleeves, x.now), c.cap).value;
      CappedMeans(c, x);
      HoldsIffGross(c, x, capped);
      ScaledMeans(c, capped);
      if c.span.Some? {
        SpanIsChecked(GrossTarget(capped, c.gross).value, previous, c.span.value);
      }
    }
  }
}
