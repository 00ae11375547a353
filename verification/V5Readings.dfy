/** What a V5 reading says, in terms of the candles alone: the normalised slopes, the average range and the
    median are spelled out for both forms of the indicator, and so is when there is a reading at all. */
module V5Readings {
  import opened Wrappers
  import opened Reals
  import opened Sorting
  import opened V5Indicators

  // ------------------------------------------------------------------ the normalised slope

  /** The average of the p closes up to candle k against the average five candles earlier. */
  function Move(close: seq<real>, p: nat, k: nat): real
    requires p > 0 && p + 4 <= k < |close|
  {
    Sum(close[k + 1 - p..k + 1]) / p as real - Sum(close[k - 4 - p..k - 4]) / p as real
  }

  /** m is the size of the largest of the last d moves. */
  ghost predicate LargestMove(close: seq<real>, p: nat, d: nat, m: real)
    requires p > 0 && p + d + 4 <= |close|
  {
    && (forall k :: |close| - d <= k < |close| ==> -m <= Move(close, p, k) <= m)
    && (exists k :: |close| - d <= k < |close| && (Move(close, p, k) == m || Move(close, p, k) == -m))
  }

  /** x is the newest move over the largest of the last d, which is no rounding dust. */
  ghost predicate IsNormalised(close: seq<real>, p: nat, d: nat, x: real)
    requires p > 0 && d > 0 && p + d + 4 <= |close|
  {
    exists m :: LargestMove(close, p, d, m) && m > 0.000000000001 && x * m == Move(close, p, |close| - 1)
  }

  ghost predicate StandsStill(close: seq<real>, p: nat, d: nat)
    requires p > 0 && p + d + 4 <= |close|
  {
    exists m :: LargestMove(close, p, d, m) && m <= 0.000000000001
  }

  lemma SlopeIsMove(close: seq<real>, p: nat, k: nat)
    requires p > 0 && p + 4 <= k < |close|
    ensures Slope(close[..k + 1], p) == Some(Move(close, p, k))
  {
    hide Sum;
    var upto := close[..k + 1];
    assert Window(upto, p) == close[k + 1 - p..k + 1];
    assert upto[..|upto| - 5] == close[..k - 4] && Window(close[..k - 4], p) == close[k - 4 - p..k - 4];
  }

  lemma {:induction false} SlopeAt(close: seq<real>, p: nat, k: nat)
    requires p > 0 && p + 4 <= k < |close|
    ensures |Slopes(close, p)| == |close| - p - 4 && Slopes(close, p)[k - p - 4] == Move(close, p, k)
    decreases |close|
  {
    hide Slope, Move, Sum, Slopes;
    var init := close[..|close| - 1];
    SlopesLength(close, p);
    SlopesLength(init, p);
    SlopesGrow(close, p);
    SlopeIsMove(close, p, |close| - 1);
    assert close[..|close|] == close;
    if k < |close| - 1 {
      SlopeAt(init, p, k);
      MoveOfPrefix(close, p, k);
    }
  }

  lemma MoveOfPrefix(close: seq<real>, p: nat, k: nat)
    requires p > 0 && p + 4 <= k < |close| - 1
    ensures Move(close[..|close| - 1], p, k) == Move(close, p, k)
  {
    hide Sum;
    var init := close[..|close| - 1];
    assert init[k + 1 - p..k + 1] == close[k + 1 - p..k + 1];
    assert init[k - 4 - p..k - 4] == close[k - 4 - p..k - 4];
  }

  lemma {:induction false} LargestIsLargest(s: seq<real>)
    ensures forall i :: 0 <= i < |s| ==> -LargestAbs(s) <= s[i] <= LargestAbs(s)
    ensures s != [] ==> exists i :: 0 <= i < |s| && (s[i] == LargestAbs(s) || s[i] == -LargestAbs(s))
  {
    if s != [] {
      var init := s[..|s| - 1];
      LargestIsLargest(init);
      forall i | 0 <= i < |init| ensures init[i] == s[i] {}
      if init != [] {
        var i :| 0 <= i < |init| && (init[i] == LargestAbs(init) || init[i] == -LargestAbs(init));
        assert s[i] == init[i];
      }
    }
  }

  lemma LargestOfMoves(close: seq<real>, p: nat, d: nat)
    requires p > 0 && d > 0 && p + d + 4 <= |close|
    ensures LargestMove(close, p, d, LargestAbs(Window(Slopes(close, p), d)))
  {
    hide Slopes, LargestAbs, Move;
    var n, w := |close|, Window(Slopes(close, p), d);
    SlopeAt(close, p, n - 1);
    LargestIsLargest(w);
    forall k | n - d <= k < n ensures Move(close, p, k) == w[k - (n - d)] {
      SlopeAt(close, p, k);
    }
    var i :| 0 <= i < |w| && (w[i] == LargestAbs(w) || w[i] == -LargestAbs(w));
    assert Move(close, p, i + n - d) == w[i];
  }

  /** Both the slope and what it is normalised by, and that there is none exactly when prices stand still. */
  lemma AcolMeans(close: seq<real>, c: Config)
    requires c.Positive() && c.smaLen + c.normWindow + 4 <= |close|
    ensures Acol(close, c).Some? ==> IsNormalised(close, c.smaLen, c.normWindow, Acol(close, c).value)
    ensures Acol(close, c).None? ==> StandsStill(close, c.smaLen, c.normWindow)
  {
    hide Slope, Slopes, LargestAbs, Move, LargestMove;
    LargestOfMoves(close, c.smaLen, c.normWindow);
    SlopeIsMove(close, c.smaLen, |close| - 1);
    assert close[..|close|] == close;
    var m := LargestAbs(Window(Slopes(close, c.smaLen), c.normWindow));
    if m > EPSILON {
      Quotient(Move(close, c.smaLen, |close| - 1), m);
    }
  }

  lemma Quotient(v: real, m: real)
    requires m > 0.0
    ensures (v / m) * m == v
  {
  }

  // ------------------------------------------------------------- the average range and the median

  /** The true range of candle k: the largest of its height and its two distances from the close before. */
  predicate IsRange(b: Bars, k: nat, x: real)
    requires b.Aligned() && k < |b.close|
  {
    if k == 0 then x == 0.0
    else
      var h, l, before := b.high[k], b.low[k], b.close[k - 1];
      && x >= h - l && x >= h - before && x >= before - h && x >= l - before && x >= before - l
      && x in {h - l, h - before, before - h, l - before, before - l}
  }

  ghost predicate AreRanges(b: Bars, ranges: seq<real>)
    requires b.Aligned() && |ranges| <= |b.close|
  {
    forall i :: 0 <= i < |ranges| ==> IsRange(b, |b.close| - |ranges| + i, ranges[i])
  }

  ghost predicate IsAverageRange(b: Bars, d: nat, x: real)
    requires b.Aligned()
  {
    d > 0 &&
    exists ranges: seq<real> :: |ranges| == d <= |b.close| && AreRanges(b, ranges) && x == Sum(ranges) / d as real
  }

  /** The middle of the window's values in order, or the mean of the two in the middle. */
  ghost predicate IsMedian(w: seq<real>, x: real) {
    exists s: seq<real> :: multiset(s) == multiset(w) && Ascends(s) && |s| == |w| > 0 &&
      2.0 * x == s[(|w| - 1) / 2] + s[|w| / 2]
  }

  ghost predicate Ascends(s: seq<real>) { forall i, j :: 0 <= i < j < |s| ==> s[i] <= s[j] }

  lemma {:induction false} RangeAt(b: Bars, k: nat)
    requires b.Aligned() && k < |b.close|
    ensures IsRange(b, k, TrueRanges(b)[k])
    decreases |b.close|
  {
    var n := |b.close|;
    if k < n - 1 {
      RangeAt(Bars(b.close[..n - 1], b.high[..n - 1], b.low[..n - 1]), k);
    }
  }

  lemma AverageRangeMeans(b: Bars, d: nat)
    requires b.Aligned() && 0 < d <= |b.close|
    ensures IsAverageRange(b, d, Mean(Sum(Window(TrueRanges(b), d)), d))
  {
    hide TrueRanges, IsRange, Sum;
    var ranges := Window(TrueRanges(b), d);
    forall i | 0 <= i < d ensures IsRange(b, |b.close| - d + i, ranges[i]) {
      RangeAt(b, |b.close| - d + i);
    }
    assert AreRanges(b, ranges);
  }

  lemma {:induction false} SortedAscends(s: seq<real>)
    requires IsSorted(s)
    ensures Ascends(s)
  {
    if |s| > 1 {
      SortedAscends(s[..|s| - 1]);
      forall i, j | 0 <= i < j < |s| ensures s[i] <= s[j] {
        if j == |s| - 1 {
          LastIsLargest(s, i);
        } else {
          assert s[..|s| - 1][i] <= s[..|s| - 1][j];
        }
      }
    }
  }

  lemma MiddleMeans(s: seq<real>, p: nat)
    requires |s| == p > 0
    ensures 2.0 * MiddleOf(s, p) == s[(p - 1) / 2] + s[p / 2]
  {
    if p % 2 == 0 {
      assert (p - 1) / 2 == p / 2 - 1;
    } else {
      assert (p - 1) / 2 == p / 2;
    }
  }

  lemma MedianMeans(close: seq<real>, p: nat)
    requires 0 < p <= |close|
    ensures Median(close, p).Some? && IsMedian(close[|close| - p..], Median(close, p).value)
  {
    hide Sorted, IsSorted, Ascends, MiddleOf;
    var w := Window(close, p);
    var s := Sorted(w);
    SortedIsOrdered(w);
    SortedIsPermutation(w);
    SortedLength(w);
    SortedAscends(s);
    MiddleMeans(s, p);
  }

  // --------------------------------------------------------------------------- the reading

  /** What a reading of a history says. */
  ghost predicate Describes(r: Reading, b: Bars, c: Config)
    requires b.Aligned() && c.Positive()
  {
    var n := |b.close|;
    && n >= c.normWindow + c.smaLen + 10 && n >= c.pocLen && n >= c.atrLen
    && IsNormalised(b.close, c.smaLen, c.normWindow, r.acol)
    && IsNormalised(b.close[..n - 1], c.smaLen, c.normWindow, r.acolPrev)
    && IsAverageRange(b, c.atrLen, r.atr) && r.atr > 0.0
    && IsMedian(b.close[n - c.pocLen..], r.poc)
    && r.close == b.close[n - 1] && r.high == b.high[n - 1] && r.low == b.low[n - 1]
  }

  /** No reading: too short a history for one of the windows, prices that stand still, or no range. */
  ghost predicate Unreadable(b: Bars, c: Config, least: nat)
    requires b.Aligned() && c.Positive()
  {
    var n := |b.close|;
    || n < c.normWindow + c.smaLen + 10 || n < c.pocLen || n < least
    || StandsStill(b.close, c.smaLen, c.normWindow) || StandsStill(b.close[..n - 1], c.smaLen, c.normWindow)
    || (exists x :: IsAverageRange(b, c.atrLen, x) && x <= 0.0)
  }

  /** What a history gives, part by part. */
  ghost predicate PartsMean(b: Bars, c: Config)
    requires b.Aligned() && c.Positive()
  {
    var n, p, d := |b.close|, c.smaLen, c.normWindow;
    && (n >= p + d + 4 ==> if Acol(b.close, c).Some? then IsNormalised(b.close, p, d, Acol(b.close, c).value)
                           else StandsStill(b.close, p, d))
    && (n >= c.atrLen ==> IsAverageRange(b, c.atrLen, Mean(RangeSum(b, c), c.atrLen)))
    && (Median(b.close, c.pocLen).Some? <==> n >= c.pocLen)
    && (n >= c.pocLen ==> IsMedian(b.close[n - c.pocLen..], Median(b.close, c.pocLen).value))
  }

  lemma EachPartMeans(b: Bars, c: Config)
    requires b.Aligned() && c.Positive()
    ensures PartsMean(b, c)
  {
    hide Acol, Mean, Median, MiddleOf, Sum, Window, IsNormalised, StandsStill, IsAverageRange, IsMedian, TrueRanges;
    var n := |b.close|;
    if n >= c.normWindow + c.smaLen + 4 {
      AcolMeans(b.close, c);
    }
    if n >= c.atrLen {
      AverageRangeMeans(b, c.atrLen);
    }
    if n >= c.pocLen {
      MedianMeans(b.close, c.pocLen);
    } else {
      NoMedian(b.close, c.pocLen);
    }
  }

  lemma NoMedian(close: seq<real>, p: nat)
    requires p > |close|
    ensures Median(close, p).None?
  {
  }

  /** Every answer of either form says exactly this about the candles, and none is withheld without a reason. */
  lemma ReadingMeans(b: Bars, c: Config)
    requires b.Aligned() && c.Positive()
    ensures StreamTail(b, c).Some? ==> Describes(StreamTail(b, c).value, b, c)
    ensures BatchTail(b, c).Some? ==> Describes(BatchTail(b, c).value, b, c)
    ensures StreamTail(b, c).None? ==> Unreadable(b, c, c.atrLen)
    ensures BatchTail(b, c).None? ==> Unreadable(b, c, c.atrLen + 1)
  {
    hide Acol, Mean, Median, IsNormalised, StandsStill, IsAverageRange, IsMedian, RangeSum;
    EachPartMeans(b, c);
    if |b.close| > 0 {
      var n := |b.close| - 1;
      EachPartMeans(Bars(b.close[..n], b.high[..n], b.low[..n]), c);
    }
  }

  /** So no normalised slope exceeds one in size. */
  lemma NormalisedIsAtMostOne(b: Bars, c: Config)
    requires b.Aligned() && c.Positive() && StreamTail(b, c).Some?
    ensures -1.0 <= StreamTail(b, c).value.acol <= 1.0 && -1.0 <= StreamTail(b, c).value.acolPrev <= 1.0
  {
    hide StreamTail, BatchTail, Describes, Unreadable;
    ReadingMeans(b, c);
    DescribedIsAtMostOne(StreamTail(b, c).value, b, c);
  }

  lemma DescribedIsAtMostOne(r: Reading, b: Bars, c: Config)
    requires b.Aligned() && c.Positive() && Describes(r, b, c)
    ensures -1.0 <= r.acol <= 1.0 && -1.0 <= r.acolPrev <= 1.0
  {
    hide IsNormalised, IsAverageRange, IsMedian;
    AtMostOne(b.close, c.smaLen, c.normWindow, r.acol);
    AtMostOne(b.close[..|b.close| - 1], c.smaLen, c.normWindow, r.acolPrev);
  }

  lemma AtMostOne(close: seq<real>, p: nat, d: nat, x: real)
    requires p > 0 && d > 0 && p + d + 4 <= |close| && IsNormalised(close, p, d, x)
    ensures -1.0 <= x <= 1.0
  {
    hide Move;
    var y := Move(close, p, |close| - 1);
    var m :| LargestMove(close, p, d, m) && m > 0.000000000001 && x * m == y;
    assert -m <= y <= m;
    RatioIsAtMostOne(x, m, y);
  }

  lemma RatioIsAtMostOne(x: real, m: real, y: real)
    requires m > 0.0 && x * m == y && -m <= y <= m
    ensures -1.0 <= x <= 1.0
  {
  }
}
