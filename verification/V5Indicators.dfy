/** The V5 indicator in its two forms: a batch function over a whole price history, and a
    symbol state that is fed one candle at a time.

    Both are proved against formulas over the history alone, so that for every history and
    every choice of window lengths the streaming answer can be compared with the batch one. */
module V5Indicators {
  import opened Wrappers
  import opened Reals
  import opened Sorting

  datatype Config = Config(smaLen: nat, atrLen: nat, pocLen: nat, normWindow: nat) {
    predicate Positive() { smaLen > 0 && atrLen > 0 && pocLen > 0 && normWindow > 0 }
    function WarmUp(): nat { normWindow + smaLen + 10 }
  }

  datatype Reading = Reading(acol: real, acolPrev: real, atr: real, poc: real, close: real, high: real, low: real)

  /** A price history: three parallel lists. */
  datatype Bars = Bars(close: seq<real>, high: seq<real>, low: seq<real>) {
    predicate Aligned() { |close| == |high| == |low| }
  }

  // ---------------------------------------------------------- formulas over the history

  function Mean(total: real, n: nat): real
    requires n > 0
  {
    total / n as real
  }

  /** Simple moving average of the last p closes. */
  function Sma(close: seq<real>, p: nat): Option<real>
    requires p > 0
  {
    if |close| < p then None else Some(Mean(Sum(Window(close, p)), p))
  }

  /** How far the average moved over the last five candles. */
  function Slope(close: seq<real>, p: nat): Option<real>
    requires p > 0
  {
    if |close| < 5 then None
    else
      match (Sma(close, p), Sma(close[..|close| - 5], p))
      case (Some(now), Some(before)) => Some(now - before)
      case _ => None
  }

  /** Every slope the history has had, oldest first. */
  function Slopes(close: seq<real>, p: nat): seq<real>
    requires p > 0
  {
    if close == [] then []
    else
      var before := Slopes(close[..|close| - 1], p);
      match Slope(close, p)
      case Some(v) => before + [v]
      case None => before
  }

  function LargestAbs(s: seq<real>): real {
    if s == [] then 0.0 else Max(LargestAbs(s[..|s| - 1]), Abs(s[|s| - 1]))
  }

  /** The current slope relative to the largest of the last slopes. */
  function Acol(close: seq<real>, c: Config): Option<real>
    requires c.Positive()
  {
    var largest := LargestAbs(Window(Slopes(close, c.smaLen), c.normWindow));
    match Slope(close, c.smaLen)
    case Some(v) => if largest > EPSILON then Some(v / largest) else None
    case None => None
  }

  function TrueRange(high: real, low: real, prevClose: real): real {
    Max(high - low, Max(Abs(high - prevClose), Abs(low - prevClose)))
  }

  /** The range of every candle; the first has no predecessor and counts as zero. */
  function TrueRanges(b: Bars): (r: seq<real>)
    requires b.Aligned()
    ensures |r| == |b.close|
    decreases |b.close|
  {
    var n := |b.close|;
    if n == 0 then []
    else
      TrueRanges(Bars(b.close[..n - 1], b.high[..n - 1], b.low[..n - 1])) +
      [if n == 1 then 0.0 else TrueRange(b.high[n - 1], b.low[n - 1], b.close[n - 2])]
  }

  function RangeSum(b: Bars, c: Config): real
    requires b.Aligned()
  {
    Sum(Window(TrueRanges(b), c.atrLen))
  }

  function MiddleOf(sorted: seq<real>, p: nat): real
    requires |sorted| == p > 0
  {
    if p % 2 == 0 then (sorted[p / 2 - 1] + sorted[p / 2]) / 2.0 else sorted[p / 2]
  }

  function Median(close: seq<real>, p: nat): Option<real>
    requires p > 0
  {
    if |close| < p then None
    else
      var window := Window(close, p);
      assert |Sorted(window)| == p by { SortedLength(window); }
      Some(MiddleOf(Sorted(window), p))
  }

  /** The answer, given what the average true range is taken to be. */
  function Tail(b: Bars, c: Config, atr: Option<real>): Option<Reading>
    requires b.Aligned() && c.Positive()
  {
    var n := |b.close|;
    if n < c.WarmUp() then None
    else
      match (Acol(b.close[..n - 1], c), Acol(b.close, c), atr, Median(b.close, c.pocLen))
      case (Some(prev), Some(now), Some(range), Some(poc)) =>
        if range <= 0.0 then None
        else Some(Reading(now, prev, range, poc, b.close[n - 1], b.high[n - 1], b.low[n - 1]))
      case _ => None
  }

  /** The batch form has no range before a candle more than the window has arrived. */
  function BatchTail(b: Bars, c: Config): Option<Reading>
    requires b.Aligned() && c.Positive()
  {
    Tail(b, c, if |b.close| <= c.atrLen then None else Some(Mean(RangeSum(b, c), c.atrLen)))
  }

  /** The stream starts one candle sooner, with the zero range of the first. */
  function StreamTail(b: Bars, c: Config): Option<Reading>
    requires b.Aligned() && c.Positive()
  {
    Tail(b, c, if |b.close| < c.atrLen then None else Some(Mean(RangeSum(b, c), c.atrLen)))
  }

  // ---------------------------------------------------------- when the two forms agree

  /** Everything but the count of ranges is there for an answer. */
  predicate Answerable(b: Bars, c: Config)
    requires b.Aligned() && c.Positive()
  {
    var n := |b.close|;
    && n >= c.WarmUp() && n >= c.pocLen
    && Acol(b.close[..n - 1], c).Some? && Acol(b.close, c).Some?
    && RangeSum(b, c) > 0.0
  }

  /** The forms differ in exactly one case: a history as long as the range window that is
      otherwise ready.  There the stream answers and the batch does not. */
  lemma AgreementIsExact(b: Bars, c: Config)
    requires b.Aligned() && c.Positive()
    ensures StreamTail(b, c) == BatchTail(b, c) <==> !(|b.close| == c.atrLen && Answerable(b, c))
    ensures |b.close| == c.atrLen && Answerable(b, c) ==> StreamTail(b, c).Some? && BatchTail(b, c).None?
  {
    var total := RangeSum(b, c);
    MeanSign(total, c.atrLen);
  }

  lemma MeanSign(total: real, n: nat)
    requires n > 0
    ensures Mean(total, n) > 0.0 <==> total > 0.0
  {
  }

  /** A range window shorter than the warm-up leaves no such case. */
  lemma ShortRangeWindowAlwaysAgrees(b: Bars, c: Config)
    requires b.Aligned() && c.Positive() && c.atrLen < c.WarmUp()
    ensures StreamTail(b, c) == BatchTail(b, c)
  {
  }

  /** The newest candle closes at its high and away from the close before it. */
  predicate LastMoves(b: Bars)
    requires b.Aligned()
  {
    var n := |b.close|;
    n > 1 && b.close[n - 1] != b.close[n - 2] && b.high[n - 1] == b.close[n - 1]
  }

  lemma {:induction false} RangesAreNonNegative(b: Bars, k: nat)
    requires b.Aligned() && k <= |b.close|
    ensures Sum(TrueRanges(b)[k..]) >= 0.0
    ensures k < |b.close| && LastMoves(b) ==> Sum(TrueRanges(b)[k..]) > 0.0
    decreases |b.close|
  {
    var n := |b.close|;
    if k < n {
      var init := Bars(b.close[..n - 1], b.high[..n - 1], b.low[..n - 1]);
      RangesAreNonNegative(init, k);
      assert TrueRanges(b)[k..][..n - 1 - k] == TrueRanges(init)[k..];
    }
  }

  /** Twelve rising candles with a range window of twelve: the stream answers, the batch
      function does not. */
  lemma DisagreementAtRangeWindow()
    ensures
      var c := Config(1, 12, 1, 1);
      var rising := seq(12, i requires 0 <= i < 12 => i as real);
      var b := Bars(rising, rising, rising);
      StreamTail(b, c).Some? && BatchTail(b, c).None?
  {
    var c := Config(1, 12, 1, 1);
    var rising := seq(12, i requires 0 <= i < 12 => i as real);
    var b := Bars(rising, rising, rising);
    RisingAcol(rising, c);
    RisingAcol(rising[..11], c);
    RangesAreNonNegative(b, 0);
    assert TrueRanges(b)[0..] == TrueRanges(b);
    AgreementIsExact(b, c);
  }

  lemma RisingAcol(close: seq<real>, c: Config)
    requires c.smaLen == 1 && c.normWindow == 1 && c.Positive() && |close| >= 6
    requires forall i :: 0 <= i < |close| ==> close[i] == i as real
    ensures Acol(close, c).Some?
  {
  }

  // ------------------------------------------------------------------- the batch form

  /** Running totals: entry i is the sum of the first i values. */
  method PrefixSums(vals: seq<real>) returns (out: seq<real>)
    ensures IsPrefixSums(out, vals)
  {
    out := [0.0];
    var total := 0.0;
    for i := 0 to |vals|
      invariant |out| == i + 1 && total == Sum(vals[..i])
      invariant forall k :: 0 <= k <= i ==> out[k] == Sum(vals[..k])
    {
      assert vals[..i + 1][..i] == vals[..i];
      total := total + vals[i];
      out := out + [total];
    }
  }

  ghost predicate IsPrefixSums(prefix: seq<real>, vals: seq<real>) {
    |prefix| == |vals| + 1 && forall k :: 0 <= k <= |vals| ==> prefix[k] == Sum(vals[..k])
  }

  function WindowAvg(prefix: seq<real>, endIndex: int, period: nat): Option<real>
    requires period > 0 && endIndex + 1 < |prefix|
  {
    var start := endIndex - period + 1;
    if start < 0 then None else Some(Mean(prefix[endIndex + 1] - prefix[start], period))
  }

  /** A difference of running totals is the window sum. */
  lemma WindowAvgIsSma(prefix: seq<real>, vals: seq<real>, endIndex: int, period: nat)
    requires IsPrefixSums(prefix, vals) && period > 0 && endIndex < |vals|
    ensures WindowAvg(prefix, endIndex, period) == if endIndex < 0 then None else Sma(vals[..endIndex + 1], period)
  {
    var start := endIndex - period + 1;
    if start >= 0 {
      var upto := vals[..endIndex + 1];
      SumSplit(upto, start);
      assert upto[..start] == vals[..start];
      assert Window(upto, period) == upto[start..];
    }
  }

  function AdiffAt(prefix: seq<real>, index: int, smaLen: nat): Option<real>
    requires smaLen > 0 && index + 1 < |prefix|
  {
    match (WindowAvg(prefix, index, smaLen), WindowAvg(prefix, index - 5, smaLen))
    case (Some(avg), Some(prev)) => Some(avg - prev)
    case _ => None
  }

  lemma AdiffIsSlope(prefix: seq<real>, vals: seq<real>, index: nat, smaLen: nat)
    requires IsPrefixSums(prefix, vals) && smaLen > 0 && index < |vals|
    ensures AdiffAt(prefix, index, smaLen) == Slope(vals[..index + 1], smaLen)
  {
    WindowAvgIsSma(prefix, vals, index, smaLen);
    WindowAvgIsSma(prefix, vals, index - 5, smaLen);
    if index >= 4 {
      assert vals[..index + 1][..index + 1 - 5] == vals[..index - 4];
    }
  }

  /** Slopes start once smaLen + 5 candles are in, and then come one per candle. */
  lemma {:induction false} SlopesLength(close: seq<real>, p: nat)
    requires p > 0
    ensures |Slopes(close, p)| == if |close| < p + 5 then 0 else |close| - p - 4
  {
    if close != [] {
      SlopesLength(close[..|close| - 1], p);
    }
  }

  lemma SlopesGrow(close: seq<real>, p: nat)
    requires p > 0 && |close| >= p + 5
    ensures Slope(close, p).Some?
    ensures Slopes(close, p) == Slopes(close[..|close| - 1], p) + [Slope(close, p).value]
  {
  }

  /** The batch function's inner loop: the slopes at candles start..target. */
  method SlopesBetween(prefix: seq<real>, close: seq<real>, start: nat, target: nat, smaLen: nat)
    returns (ds: seq<real>)
    requires smaLen > 0 && IsPrefixSums(prefix, close)
    requires smaLen + 4 <= start <= target + 1 <= |close|
    ensures |ds| == target + 1 - start
    ensures Slopes(close[..target + 1], smaLen) == Slopes(close[..start], smaLen) + ds
  {
    hide Mean, Slope, Sma;
    ds := [];
    var index := start;
    while index < target + 1
      invariant start <= index <= target + 1 && |ds| == index - start
      invariant Slopes(close[..index], smaLen) == Slopes(close[..start], smaLen) + ds
    {
      AdiffIsSlope(prefix, close, index, smaLen);
      var adiff := AdiffAt(prefix, index, smaLen);
      SlopesGrow(close[..index + 1], smaLen);
      assert close[..index + 1][..index] == close[..index];
      if adiff.Some? {
        ds := ds + [adiff.value];
      }
      index := index + 1;
    }
  }

  /** One of the batch function's two normalised slopes, at candle `target`. */
  method NormalisedSlope(prefix: seq<real>, close: seq<real>, target: nat, c: Config) returns (r: Option<real>)
    requires c.Positive() && IsPrefixSums(prefix, close)
    requires target < |close| && target + 2 >= c.WarmUp()
    ensures r == Acol(close[..target + 1], c)
  {
    hide Mean;
    var ds := SlopesBetween(prefix, close, target - c.normWindow + 1, target, c.smaLen);
    SlopesLength(close[..target - c.normWindow + 1], c.smaLen);
    AdiffIsSlope(prefix, close, target, c.smaLen);
    var current := AdiffAt(prefix, target, c.smaLen);
    assert Window(Slopes(close[..target + 1], c.smaLen), c.normWindow) == ds;
    var largest := LargestAbs(ds);
    r := if current.None? || largest <= EPSILON then None else Some(current.value / largest);
  }

  method AtrTail(b: Bars, period: nat) returns (r: Option<real>)
    requires b.Aligned() && period > 0
    ensures r == if |b.close| <= period then None else Some(Mean(Sum(Window(TrueRanges(b), period)), period))
  {
    var n := |b.close|;
    if n <= period {
      return None;
    }
    var total, i := 0.0, n - period;
    var ranges := TrueRanges(b);
    while i < n
      invariant n - period <= i <= n
      invariant total == Sum(ranges[n - period..i])
    {
      TrueRangeAt(b, i);
      total := total + TrueRange(b.high[i], b.low[i], b.close[i - 1]);
      assert ranges[n - period..i + 1][..i - (n - period)] == ranges[n - period..i];
      i := i + 1;
    }
    assert Window(ranges, period) == ranges[n - period..n];
    r := Some(Mean(total, period));
  }

  lemma {:induction false} TrueRangeAt(b: Bars, i: nat)
    requires b.Aligned() && 0 < i < |b.close|
    ensures TrueRanges(b)[i] == TrueRange(b.high[i], b.low[i], b.close[i - 1])
    decreases |b.close|
  {
    var n := |b.close|;
    if i < n - 1 {
      TrueRangeAt(Bars(b.close[..n - 1], b.high[..n - 1], b.low[..n - 1]), i);
    }
  }

  /** `compute_v5_tail_indicators`, with its loops over prefix sums. */
  method ComputeTailIndicators(b: Bars, c: Config) returns (r: Option<Reading>)
    requires b.Aligned() && c.Positive()
    ensures r == BatchTail(b, c)
  {
    hide Mean, Acol, IsPrefixSums, Sorted, MiddleOf;
    var n := |b.close|;
    if n < c.WarmUp() {
      return None;
    }
    var prefix := PrefixSums(b.close);
    var acolPrev := NormalisedSlope(prefix, b.close, n - 2, c);
    var acol := NormalisedSlope(prefix, b.close, n - 1, c);
    assert b.close[..n] == b.close;
    var atr := AtrTail(b, c.atrLen);
    var poc := Median(b.close, c.pocLen);
    if acol.None? || acolPrev.None? || atr.None? || poc.None? || atr.value <= 0.0 {
      return None;
    }
    r := Some(Reading(acol.value, acolPrev.value, atr.value, poc.value, b.close[n - 1], b.high[n - 1], b.low[n - 1]));
  }

  // --------------------------------------------------------------- the streaming form

  /** The average at every candle so far. */
  function SmaValues(close: seq<real>, p: nat): (r: seq<Option<real>>)
    requires p > 0
    ensures |r| == |close|
  {
    if close == [] then [] else SmaValues(close[..|close| - 1], p) + [Sma(close, p)]
  }

  lemma {:induction false} SmaValueAt(close: seq<real>, p: nat, k: nat)
    requires p > 0 && k < |close|
    ensures SmaValues(close, p)[k] == Sma(close[..k + 1], p)
  {
    if k < |close| - 1 {
      SmaValueAt(close[..|close| - 1], p, k);
      assert close[..|close| - 1][..k + 1] == close[..k + 1];
    } else {
      assert close[..k + 1] == close;
    }
  }

  /** A window's sum moves by what enters less what leaves. */
  lemma WindowSumSlides(s: seq<real>, x: real, d: nat)
    requires d > 0
    ensures Sum(Window(s + [x], d)) == Sum(Window(s, d)) + x - if |s| >= d then s[|s| - d] else 0.0
  {
    WindowSlides(s, x, d);
    var w := Window(s, d);
    assert (w + [x])[..|w|] == w;
    if |s| >= d {
      SumSplit(w + [x], 1);
      assert (w + [x])[..1] == [w[0]];
      SumOfOne(w[0]);
    }
  }

  lemma MedianWindowSlides(s: seq<real>, x: real, d: nat)
    requires d > 0
    ensures |s| < d ==> Insort(Sorted(Window(s, d)), x) == Sorted(Window(s + [x], d))
    ensures |s| >= d ==> s[|s| - d] in Insort(Sorted(Window(s, d)), x)
    ensures |s| >= d ==>
      Delete(Insort(Sorted(Window(s, d)), x), IndexOf(Insort(Sorted(Window(s, d)), x), s[|s| - d])) ==
      Sorted(Window(s + [x], d))
  {
    WindowSlides(s, x, d);
    var w := Window(s, d);
    if |s| < d {
      assert (w + [x])[..|w|] == w;
    } else {
      SortedSlides(w, x);
    }
  }

  lemma SmaValuesGrow(close: seq<real>, x: real, p: nat)
    requires p > 0
    ensures SmaValues(close + [x], p) == SmaValues(close, p) + [Sma(close + [x], p)]
  {
  }

  /** One more close: the slope list either stays or gains the new slope. */
  lemma SlopeWindowGrows(close: seq<real>, x: real, p: nat, d: nat)
    requires p > 0
    ensures Slope(close + [x], p).None? ==> Slopes(close + [x], p) == Slopes(close, p)
    ensures Slope(close + [x], p).Some? ==>
      Window(Slopes(close + [x], p), d) == Slid(Window(Slopes(close, p), d), Slope(close + [x], p).value, d)
  {
    assert (close + [x])[..|close|] == close;
    if Slope(close + [x], p).Some? {
      WindowSlides(Slopes(close, p), Slope(close + [x], p).value, d);
    }
  }

  /** Append to a window of at most d, dropping the oldest when it overflows. */
  function Slid(w: seq<real>, x: real, d: nat): seq<real> {
    if |w| + 1 > d then (w + [x])[1..] else w + [x]
  }

  /** The slope at the newest candle, read off the list of averages. */
  lemma SlopeFromValues(close: seq<real>, p: nat)
    requires p > 0 && |close| > 5
    ensures SmaValues(close, p)[|close| - 6] == Sma(close[..|close| - 5], p)
    ensures Slope(close, p).Some? <==> Sma(close, p).Some? && Sma(close[..|close| - 5], p).Some?
    ensures Slope(close, p).Some? ==> Slope(close, p).value == Sma(close, p).value - Sma(close[..|close| - 5], p).value
  {
    hide Sma;
    SmaValueAt(close, p, |close| - 6);
  }

  lemma NoEarlySlope(close: seq<real>, p: nat)
    requires p > 0
    ensures |close| <= 5 ==> Slope(close, p).None?
  {
  }

  /** The running average: one addition, and one subtraction once the window is full. */
  method NextSma(close: seq<real>, smaSum: real, smaValues: seq<Option<real>>, x: real, p: nat)
    returns (sum: real, values: seq<Option<real>>, now: Option<real>)
    requires p > 0 && close != [] && close[|close| - 1] == x
    requires smaSum == Sum(Window(close[..|close| - 1], p)) && smaValues == SmaValues(close[..|close| - 1], p)
    ensures sum == Sum(Window(close, p)) && values == SmaValues(close, p) && now == Sma(close, p)
  {
    hide Mean;
    ghost var before := close[..|close| - 1];
    assert close == before + [x];
    WindowSumSlides(before, x, p);
    SmaValuesGrow(before, x, p);
    sum := smaSum + x;
    if |close| > p {
      sum := sum - close[|close| - p - 1];
    }
    now := if |close| >= p then Some(Mean(sum, p)) else None;
    values := smaValues + [now];
  }

  /** The slope window and its normalised newest slope. */
  method NextSlope(close: seq<real>, values: seq<Option<real>>, now: Option<real>, slopeWindow: seq<real>, c: Config)
    returns (window: seq<real>, acol: Option<real>)
    requires c.Positive() && close != [] && values == SmaValues(close, c.smaLen) && now == Sma(close, c.smaLen)
    requires slopeWindow == Window(Slopes(close[..|close| - 1], c.smaLen), c.normWindow)
    ensures window == Window(Slopes(close, c.smaLen), c.normWindow) && acol == Acol(close, c)
  {
    hide Sma, Slope, Slopes, SmaValues, LargestAbs;
    ghost var before := close[..|close| - 1];
    assert close == before + [close[|close| - 1]];
    SlopeWindowGrows(before, close[|close| - 1], c.smaLen, c.normWindow);
    NoEarlySlope(close, c.smaLen);
    window, acol := slopeWindow, None;
    if now.Some? && |values| > 5 {
      SlopeFromValues(close, c.smaLen);
      var prev := values[|values| - 6];
      if prev.Some? {
        var slope := now.value - prev.value;
        window := window + [slope];
        if |window| > c.normWindow {
          window := window[1..];
        }
        var largest := LargestAbs(window);
        if largest > EPSILON {
          acol := Some(slope / largest);
        }
      }
    } else if now.None? && |values| > 5 {
      SlopeFromValues(close, c.smaLen);
    }
  }

  method NextRange(ghost ranges: seq<real>, trSum: real, trWindow: seq<real>, tr: real, d: nat)
    returns (sum: real, window: seq<real>)
    requires d > 0 && trWindow == Window(ranges, d) && trSum == Sum(trWindow)
    ensures window == Window(ranges + [tr], d) && sum == Sum(window)
  {
    WindowSlides(ranges, tr, d);
    WindowSumSlides(ranges, tr, d);
    sum := trSum + tr;
    window := trWindow + [tr];
    if |window| > d {
      sum := sum - window[0];
      window := window[1..];
    }
  }

  method NextMedianWindow(close: seq<real>, pocSorted: seq<real>, x: real, d: nat) returns (sorted: seq<real>)
    requires d > 0 && close != [] && close[|close| - 1] == x
    requires pocSorted == Sorted(Window(close[..|close| - 1], d))
    ensures sorted == Sorted(Window(close, d))
  {
    ghost var before := close[..|close| - 1];
    assert close == before + [x];
    MedianWindowSlides(before, x, d);
    sorted := Insort(pocSorted, x);
    if |close| > d {
      var idx := IndexOf(sorted, close[|close| - d - 1]);
      sorted := Delete(sorted, idx);
    }
  }

  /** The range list of a longer history is the shorter one's and one more. */
  lemma TrueRangesGrow(b: Bars, x: real, hi: real, lo: real)
    requires b.Aligned()
    ensures TrueRanges(Bars(b.close + [x], b.high + [hi], b.low + [lo])) ==
      TrueRanges(b) + [if b.close == [] then 0.0 else TrueRange(hi, lo, b.close[|b.close| - 1])]
  {
  }

  /** The stream's answer read off the running parts. */
  lemma StreamTailByParts(b: Bars, c: Config, previous: Option<real>, acol: Option<real>, trSum: real,
                          sorted: seq<real>)
    requires b.Aligned() && c.Positive() && b.close != []
    requires previous == Acol(b.close[..|b.close| - 1], c) && acol == Acol(b.close, c)
    requires trSum == RangeSum(b, c) && sorted == Sorted(Window(b.close, c.pocLen))
    requires |sorted| == |Window(b.close, c.pocLen)|
    ensures
      var n := |b.close|;
      StreamTail(b, c) ==
      if n < c.WarmUp() || acol.None? || previous.None? || n < c.atrLen || n < c.pocLen || Mean(trSum, c.atrLen) <= 0.0
      then None
      else Some(Reading(acol.value, previous.value, Mean(trSum, c.atrLen), MiddleOf(sorted, c.pocLen),
                        b.close[n - 1], b.high[n - 1], b.low[n - 1]))
  {
    hide Mean, MiddleOf, Acol, RangeSum;
  }

  /** What the state keeps beside the price lists. */
  datatype Running = Running(
    smaSum: real, smaValues: seq<Option<real>>, trSum: real, trWindow: seq<real>,
    pocSorted: seq<real>, slopeWindow: seq<real>, lastAcol: Option<real>)

  /** Every running part is a function of the history. */
  ghost predicate Summarises(run: Running, b: Bars, c: Config)
    requires b.Aligned() && c.Positive()
  {
    && run.smaSum == Sum(Window(b.close, c.smaLen)) && run.smaValues == SmaValues(b.close, c.smaLen)
    && run.trWindow == Window(TrueRanges(b), c.atrLen) && run.trSum == Sum(run.trWindow)
    && run.pocSorted == Sorted(Window(b.close, c.pocLen))
    && run.slopeWindow == Window(Slopes(b.close, c.smaLen), c.normWindow)
    && run.lastAcol == Acol(b.close, c)
  }

  /** The body of `append` once the candle is in the lists: every running part moves by one
      step and the answer is read off them. */
  method Advance(b: Bars, x: real, hi: real, lo: real, prevClose: real, run: Running, c: Config)
    returns (next: Running, r: Option<Reading>)
    requires b.Aligned() && c.Positive() && Summarises(run, b, c)
    requires prevClose == if b.close == [] then x else b.close[|b.close| - 1]
    ensures Summarises(next, Bars(b.close + [x], b.high + [hi], b.low + [lo]), c)
    ensures r == StreamTail(Bars(b.close + [x], b.high + [hi], b.low + [lo]), c)
  {
    hide Mean, MiddleOf, Acol, Sma, Slopes, SmaValues, TrueRange, TrueRanges, Sorted, Sum, StreamTail;
    var close := b.close + [x];
    assert close[..|close| - 1] == b.close;
    var smaSum, smaValues, now := NextSma(close, run.smaSum, run.smaValues, x, c.smaLen);
    var slopeWindow, acol := NextSlope(close, smaValues, now, run.slopeWindow, c);
    var tr := if |close| > 1 then TrueRange(hi, lo, prevClose) else 0.0;
    TrueRangesGrow(b, x, hi, lo);
    var trSum, trWindow := NextRange(TrueRanges(b), run.trSum, run.trWindow, tr, c.atrLen);
    var pocSorted := NextMedianWindow(close, run.pocSorted, x, c.pocLen);
    SortedLength(Window(close, c.pocLen));
    StreamTailByParts(Bars(close, b.high + [hi], b.low + [lo]), c, run.lastAcol, acol, trSum, pocSorted);
    next := Running(smaSum, smaValues, trSum, trWindow, pocSorted, slopeWindow, acol);
    if |close| < c.WarmUp() || acol.None? || run.lastAcol.None? || |trWindow| < c.atrLen || |pocSorted| < c.pocLen {
      return next, None;
    }
    var atr := Mean(trSum, c.atrLen);
    if atr <= 0.0 {
      return next, None;
    }
    var poc := MiddleOf(pocSorted, c.pocLen);
    r := Some(Reading(acol.value, run.lastAcol.value, atr, poc, x, hi, lo));
  }

  class SymbolState {
    const c: Config
    var close: seq<real>
    var high: seq<real>
    var low: seq<real>
    var run: Running

    function History(): Bars
      reads this
    {
      Bars(close, high, low)
    }

    ghost predicate Valid()
      reads this
    {
      c.Positive() && History().Aligned() && Summarises(run, History(), c)
    }

    constructor (c: Config)
      requires c.Positive()
      ensures Valid() && this.c == c && History() == Bars([], [], [])
    {
      this.c := c;
      close, high, low := [], [], [];
      run := Running(0.0, [], 0.0, [], [], [], None);
    }

    /** One candle.  The answer depends on the history alone, not on the running state. */
    method Append(x: real, hi: real, lo: real) returns (r: Option<Reading>)
      requires Valid()
      modifies this
      ensures Valid()
      ensures History() == Bars(old(close) + [x], old(high) + [hi], old(low) + [lo])
      ensures r == StreamTail(History(), c)
    {
      hide Summarises, StreamTail;
      var prevClose := if close == [] then x else close[|close| - 1];
      run, r := Advance(History(), x, hi, lo, prevClose, run, c);
      close, high, low := close + [x], high + [hi], low + [lo];
    }
  }

  /** The whole history through the stream against the batch function: equal whenever the
      history is not exactly as long as the range window. */
  method StreamMatchesBatch(b: Bars, c: Config) returns (streamed: Option<Reading>, batch: Option<Reading>)
    requires b.Aligned() && c.Positive()
    ensures streamed == StreamTail(b, c) && batch == BatchTail(b, c)
    ensures |b.close| != c.atrLen ==> streamed == batch
  {
    hide Acol, SmaValues, Slopes, TrueRanges, Sorted, Sum, Tail;
    var state := new SymbolState(c);
    streamed := None;
    assert StreamTail(Bars([], [], []), c) == None by { EmptyHistory(c); }
    for i := 0 to |b.close|
      invariant fresh(state) && state.Valid() && state.c == c
      invariant state.History() == Bars(b.close[..i], b.high[..i], b.low[..i])
      invariant streamed == StreamTail(Bars(b.close[..i], b.high[..i], b.low[..i]), c)
    {
      streamed := state.Append(b.close[i], b.high[i], b.low[i]);
      assert b.close[..i + 1] == b.close[..i] + [b.close[i]];
      assert b.high[..i + 1] == b.high[..i] + [b.high[i]];
      assert b.low[..i + 1] == b.low[..i] + [b.low[i]];
    }
    assert Bars(b.close[..|b.close|], b.high[..|b.close|], b.low[..|b.close|]) == b;
    batch := ComputeTailIndicators(b, c);
    AgreementIsExact(b, c);
  }

  lemma EmptyHistory(c: Config)
    requires c.Positive()
    ensures StreamTail(Bars([], [], []), c) == None
  {
  }
}
