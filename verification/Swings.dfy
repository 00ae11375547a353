/** Swing points and trailing levels of the zone strategy.

    Two loops over the same bars must stay in step: the detector marks a pivot only when its leg
    flips, and the trailing loop keeps a leg of its own from those marks.  NaN is `None`; prices
    are numbers. */
module Swings {
  import opened Wrappers
  import opened Reals

  datatype Leg = Bearish | Bullish

  function MaxOf(s: seq<real>): real
    requires s != []
  {
    if |s| == 1 then s[0] else Max(MaxOf(s[..|s| - 1]), s[|s| - 1])
  }

  function MinOf(s: seq<real>): real
    requires s != []
  {
    if |s| == 1 then s[0] else Min(MinOf(s[..|s| - 1]), s[|s| - 1])
  }

  /** They are bounds, and values of the sequence. */
  lemma {:induction false} MaxIsMax(s: seq<real>)
    requires s != []
    ensures exists i :: 0 <= i < |s| && s[i] == MaxOf(s)
    ensures forall i :: 0 <= i < |s| ==> s[i] <= MaxOf(s)
    decreases |s|
  {
    if |s| == 1 {
      assert s[0] == MaxOf(s);
    } else {
      var init := s[..|s| - 1];
      MaxIsMax(init);
      var i :| 0 <= i < |init| && init[i] == MaxOf(init);
      assert s[i] == MaxOf(init) && s[|s| - 1] <= MaxOf(s);
      forall j | 0 <= j < |s| - 1 ensures s[j] <= MaxOf(s) { assert s[j] == init[j]; }
    }
  }

  lemma {:induction false} MinIsMin(s: seq<real>)
    requires s != []
    ensures exists i :: 0 <= i < |s| && s[i] == MinOf(s)
    ensures forall i :: 0 <= i < |s| ==> s[i] >= MinOf(s)
    decreases |s|
  {
    if |s| == 1 {
      assert s[0] == MinOf(s);
    } else {
      var init := s[..|s| - 1];
      MinIsMin(init);
      var i :| 0 <= i < |init| && init[i] == MinOf(init);
      assert s[i] == MinOf(init) && s[|s| - 1] >= MinOf(s);
      forall j | 0 <= j < |s| - 1 ensures s[j] >= MinOf(s) { assert s[j] == init[j]; }
    }
  }

  // ------------------------------------------------------------------------- the swing points

  /** The bar L before the k-th has the highest high of the L bars after it as well. */
  predicate PivotHigh(high: seq<real>, span: nat, k: nat)
    requires span < k <= |high|
  {
    forall j :: k - span <= j < k ==> high[j] < high[k - 1 - span]
  }

  predicate PivotLow(low: seq<real>, span: nat, k: nat)
    requires span < k <= |low|
  {
    forall j :: k - span <= j < k ==> low[j] > low[k - 1 - span]
  }

  /** Equal lengths, and a window of at least one bar. */
  datatype Bars = Bars(high: seq<real>, low: seq<real>, span: nat)

  predicate Proper(b: Bars) { |b.high| == |b.low| && b.span >= 1 }

  /** The detector's leg after k bars; a pivot high wins over a pivot low. */
  function LegAfter(b: Bars, k: nat): Leg
    requires Proper(b) && k <= |b.high|
  {
    if k <= b.span then Bearish
    else if PivotHigh(b.high, b.span, k) then Bearish
    else if PivotLow(b.low, b.span, k) then Bullish
    else LegAfter(b, k - 1)
  }

  /** What the bar p is marked with: its price, if the leg flips at the bar that confirms it. */
  function SwingHigh(b: Bars, p: nat): Option<real>
    requires Proper(b) && p < |b.high|
  {
    var k := p + b.span + 1;
    if k <= |b.high| && LegAfter(b, k) == Bearish && LegAfter(b, k - 1) == Bullish then Some(b.high[p]) else None
  }

  function SwingLow(b: Bars, p: nat): Option<real>
    requires Proper(b) && p < |b.high|
  {
    var k := p + b.span + 1;
    if k <= |b.high| && LegAfter(b, k) == Bullish && LegAfter(b, k - 1) == Bearish then Some(b.low[p]) else None
  }

  function SwingHighs(b: Bars): seq<Option<real>>
    requires Proper(b)
  {
    seq(|b.high|, p requires 0 <= p < |b.high| => SwingHigh(b, p))
  }

  function SwingLows(b: Bars): seq<Option<real>>
    requires Proper(b)
  {
    seq(|b.high|, p requires 0 <= p < |b.high| => SwingLow(b, p))
  }

  /** A window compared through its extremum, as the code does. */
  lemma HighWindowDecides(high: seq<real>, span: nat, k: nat)
    requires 1 <= span < k <= |high|
    ensures PivotHigh(high, span, k) <==> high[k - 1 - span] > MaxOf(high[k - span..k])
  {
    var s, from := high[k - span..k], k - span;
    MaxIsMax(s);
    var u :| 0 <= u < |s| && s[u] == MaxOf(s);
    assert high[from + u] == MaxOf(s);
    forall j | from <= j < k ensures high[j] <= MaxOf(s) { assert high[j] == s[j - from]; }
  }

  lemma LowWindowDecides(low: seq<real>, span: nat, k: nat)
    requires 1 <= span < k <= |low|
    ensures PivotLow(low, span, k) <==> low[k - 1 - span] < MinOf(low[k - span..k])
  {
    var s, from := low[k - span..k], k - span;
    MinIsMin(s);
    var u :| 0 <= u < |s| && s[u] == MinOf(s);
    assert low[from + u] == MinOf(s);
    forall j | from <= j < k ensures low[j] >= MinOf(s) { assert low[j] == s[j - from]; }
  }

  /** The marks made by the first k bars: those of the bars confirmed by then. */
  function Marked(all: seq<Option<real>>, span: nat, k: nat): seq<Option<real>> {
    seq(|all|, p requires 0 <= p < |all| => if p + span < k then all[p] else None)
  }

  lemma NextMarked(all: seq<Option<real>>, span: nat, k: nat)
    requires span <= k < |all|
    ensures Marked(all, span, k + 1) == Marked(all, span, k)[k - span := all[k - span]]
    ensures Marked(all, span, k)[k - span] == None
  {
  }

  /** Where the loop stands before bar k. */
  ghost predicate Detected(b: Bars, k: nat, leg: Leg, highs: seq<Option<real>>, lows: seq<Option<real>>)
    requires Proper(b) && k <= |b.high|
  {
    leg == LegAfter(b, k) && highs == Marked(SwingHighs(b), b.span, k) && lows == Marked(SwingLows(b), b.span, k)
  }

  lemma DetectedNext(b: Bars, k: nat, leg: Leg, highs: seq<Option<real>>, lows: seq<Option<real>>, next: Leg)
    requires Proper(b) && b.span <= k < |b.high| && Detected(b, k, leg, highs, lows) && next == LegAfter(b, k + 1)
    ensures |highs| == |lows| == |b.high|
    ensures Detected(b, k + 1, next,
                     if next != leg && next == Bearish then highs[k - b.span := Some(b.high[k - b.span])] else highs,
                     if next != leg && next == Bullish then lows[k - b.span := Some(b.low[k - b.span])] else lows)
  {
    var p := k - b.span;
    NextMarked(SwingHighs(b), b.span, k);
    NextMarked(SwingLows(b), b.span, k);
    assert SwingHighs(b)[p] == SwingHigh(b, p) && SwingLows(b)[p] == SwingLow(b, p);
    hide LegAfter, Marked;
    assert highs[p := None] == highs && lows[p := None] == lows;
  }

  lemma LegNext(b: Bars, k: nat, leg: Leg)
    requires Proper(b) && b.span <= k < |b.high| && leg == LegAfter(b, k)
    ensures LegAfter(b, k + 1) ==
      if b.high[k - b.span] > MaxOf(b.high[k - b.span + 1..k + 1]) then Bearish
      else if b.low[k - b.span] < MinOf(b.low[k - b.span + 1..k + 1]) then Bullish
      else leg
  {
    HighWindowDecides(b.high, b.span, k + 1);
    LowWindowDecides(b.low, b.span, k + 1);
    hide PivotHigh, PivotLow;
  }

  method ComputeSwingPoints(b: Bars) returns (swingHigh: array<Option<real>>, swingLow: array<Option<real>>)
    requires Proper(b)
    ensures fresh(swingHigh) && fresh(swingLow)
    ensures swingHigh[..] == SwingHighs(b) && swingLow[..] == SwingLows(b)
  {
    hide Detected, LegAfter, SwingHighs, SwingLows, Marked;
    var n := |b.high|;
    swingHigh := new Option<real>[n](_ => None);
    swingLow := new Option<real>[n](_ => None);
    assert swingHigh[..] == seq(n, _ => None) && swingLow[..] == seq(n, _ => None);
    var leg := Bearish;
    Start(b, if b.span < n then b.span else n);
    if b.span < n {
      for i := b.span to n
        invariant Detected(b, i, leg, swingHigh[..], swingLow[..])
      {
        var p := i - b.span;
        LegFrom(b, i, leg, swingHigh[..], swingLow[..]);
        LegNext(b, i, leg);
        var isPivotHigh := b.high[p] > MaxOf(b.high[p + 1..i + 1]);
        var isPivotLow := b.low[p] < MinOf(b.low[p + 1..i + 1]);
        var previous := leg;
        if isPivotHigh {
          leg := Bearish;
        } else if isPivotLow {
          leg := Bullish;
        }
        DetectedNext(b, i, previous, swingHigh[..], swingLow[..], leg);
        MarkBar(swingHigh, swingLow, p, leg != previous, leg, b.high[p], b.low[p]);
      }
    }
    Finish(b, leg, swingHigh[..], swingLow[..]);
  }

  lemma Start(b: Bars, k: nat)
    requires Proper(b) && k <= b.span && k <= |b.high|
    ensures Detected(b, k, Bearish, seq(|b.high|, _ => None), seq(|b.high|, _ => None))
  {
  }

  lemma LegFrom(b: Bars, k: nat, leg: Leg, highs: seq<Option<real>>, lows: seq<Option<real>>)
    requires Proper(b) && k <= |b.high| && Detected(b, k, leg, highs, lows)
    ensures leg == LegAfter(b, k)
  {
  }

  lemma Finish(b: Bars, leg: Leg, highs: seq<Option<real>>, lows: seq<Option<real>>)
    requires Proper(b) && Detected(b, |b.high|, leg, highs, lows)
    ensures highs == SwingHighs(b) && lows == SwingLows(b)
  {
  }

  /** The marking at the end of the loop body. */
  method MarkBar(swingHigh: array<Option<real>>, swingLow: array<Option<real>>, p: nat, flipped: bool, leg: Leg,
                 high: real,
                 low: real)
    requires swingHigh != swingLow && p < swingHigh.Length == swingLow.Length
    modifies swingHigh, swingLow
    ensures swingHigh[..] ==
      if flipped && leg == Bearish then old(swingHigh[..])[p := Some(high)] else old(swingHigh[..])
    ensures swingLow[..] == if flipped && leg == Bullish then old(swingLow[..])[p := Some(low)] else old(swingLow[..])
  {
    if flipped {
      if leg == Bearish {
        swingHigh[p] := Some(high);
      } else {
        swingLow[p] := Some(low);
      }
    }
  }

  // -------------------------------------------------------------------------------- alternation

  /** The marks on the first k bars, in bar order: which leg each one starts. */
  function Marks(b: Bars, k: nat): seq<Leg>
    requires Proper(b) && k <= |b.high|
  {
    if k == 0 then []
    else
      var init := Marks(b, k - 1);
      if SwingHigh(b, k - 1).Some? then init + [Bearish]
      else if SwingLow(b, k - 1).Some? then init + [Bullish]
      else init
  }

  lemma NeverBoth(b: Bars, p: nat)
    requires Proper(b) && p < |b.high|
    ensures !(SwingHigh(b, p).Some? && SwingLow(b, p).Some?)
  {
  }

  /** Low, high, low, ... */
  predicate Alternates(marks: seq<Leg>) {
    marks == [] || (Alternates(marks[..|marks| - 1]) && marks[|marks| - 1] == LegOf(|marks|))
  }

  /** The leg that n alternating marks end with. */
  function LegOf(n: nat): Leg { if n % 2 == 0 then Bearish else Bullish }

  lemma AlternatesNext(marks: seq<Leg>, leg: Leg)
    requires Alternates(marks) && leg != LegOf(|marks|)
    ensures Alternates(marks + [leg]) && LegOf(|marks + [leg]|) == leg
  {
  }

  /** A bar is marked exactly when the bar that confirms it flips the leg. */
  lemma MarkMeansFlip(b: Bars, p: nat)
    requires Proper(b) && p < |b.high|
    ensures SwingHigh(b, p).Some? || SwingLow(b, p).Some? <==>
      p + b.span < |b.high| && LegAfter(b, p + b.span + 1) != LegAfter(b, p + b.span)
    ensures SwingHigh(b, p).Some? ==> LegAfter(b, p + b.span + 1) == Bearish
    ensures SwingLow(b, p).Some? ==> LegAfter(b, p + b.span + 1) == Bullish
  {
  }

  lemma NoMarksYet(b: Bars)
    requires Proper(b)
    ensures Alternates(Marks(b, 0)) && LegOf(|Marks(b, 0)|) == Bearish
    ensures b.span <= |b.high| ==> LegAfter(b, b.span) == Bearish
  {
  }

  /** The marks alternate, starting with a low, and the detector's leg is the last mark's. */
  lemma {:induction false} MarksAlternate(b: Bars, k: nat)
    requires Proper(b) && k <= |b.high|
    ensures Alternates(Marks(b, k))
    ensures k + b.span <= |b.high| ==> LegAfter(b, k + b.span) == LegOf(|Marks(b, k)|)
    decreases k
  {
    hide LegAfter, SwingHigh, SwingLow, Alternates, LegOf;
    if k == 0 {
      NoMarksYet(b);
    } else {
      MarksAlternate(b, k - 1);
      MarkMeansFlip(b, k - 1);
      NeverBoth(b, k - 1);
      if SwingHigh(b, k - 1).Some? {
        AlternatesNext(Marks(b, k - 1), Bearish);
      } else if SwingLow(b, k - 1).Some? {
        AlternatesNext(Marks(b, k - 1), Bullish);
      }
    }
  }

  // --------------------------------------------------------------------------- trailing levels

  /** The loop's variables; the infinities before the first bar are `None`. */
  datatype Trail = Trail(leg: Leg, up: Option<real>, dn: Option<real>)

  function Higher(up: Option<real>, x: real): Option<real> { Some(if up.None? then x else Max(up.value, x)) }

  function Lower(dn: Option<real>, x: real): Option<real> { Some(if dn.None? then x else Min(dn.value, x)) }

  /** Steps (1) and (2) for one bar: a mark resets its level unless the leg is already there. */
  function Reset(t: Trail, high: Option<real>, low: Option<real>): Trail {
    var u := if high.Some? && t.leg != Bearish then Trail(Bearish, high, t.dn) else t;
    if low.Some? && u.leg != Bullish then Trail(Bullish, u.up, low) else u
  }

  /** After k bars, for any marks. */
  function TrailAfter(swingHigh: seq<Option<real>>, swingLow: seq<Option<real>>, b: Bars, k: nat): Trail
    requires Proper(b) && |swingHigh| == |swingLow| == |b.high| && k <= |b.high|
  {
    if k == 0 then Trail(Bearish, None, None)
    else
      var t := TrailAfter(swingHigh, swingLow, b, k - 1);
      var r := if k > b.span then Reset(t, swingHigh[k - 1 - b.span], swingLow[k - 1 - b.span]) else t;
      Trail(r.leg, Higher(r.up, b.high[k - 1]), Lower(r.dn, b.low[k - 1]))
  }

  method ComputeTrailingLevels(swingHigh: seq<Option<real>>, swingLow: seq<Option<real>>, b: Bars)
    returns (trailUp: array<Option<real>>, trailDn: array<Option<real>>)
    requires Proper(b) && |swingHigh| == |swingLow| == |b.high|
    ensures trailUp.Length == trailDn.Length == |b.high|
    ensures forall i :: 0 <= i < |b.high| ==> trailUp[i] == TrailAfter(swingHigh, swingLow, b, i + 1).up
    ensures forall i :: 0 <= i < |b.high| ==> trailDn[i] == TrailAfter(swingHigh, swingLow, b, i + 1).dn
  {
    var n := |b.high|;
    trailUp := new Option<real>[n](_ => None);
    trailDn := new Option<real>[n](_ => None);
    var leg, curUp, curDn := Bearish, None, None;
    for i := 0 to n
      invariant Trail(leg, curUp, curDn) == TrailAfter(swingHigh, swingLow, b, i)
      invariant forall j :: 0 <= j < i ==> trailUp[j] == TrailAfter(swingHigh, swingLow, b, j + 1).up
      invariant forall j :: 0 <= j < i ==> trailDn[j] == TrailAfter(swingHigh, swingLow, b, j + 1).dn
    {
      if i >= b.span {
        var p := i - b.span;
        if swingHigh[p].Some? && leg != Bearish {
          curUp, leg := swingHigh[p], Bearish;
        }
        if swingLow[p].Some? && leg != Bullish {
          curDn, leg := swingLow[p], Bullish;
        }
      }
      curUp := Higher(curUp, b.high[i]);
      curDn := Lower(curDn, b.low[i]);
      trailUp[i] := curUp;
      trailDn[i] := curDn;
    }
  }

  /** The bar of the latest swing high confirmed within the first k bars, or bar 0. */
  function TopFrom(b: Bars, k: nat): (p: nat)
    requires Proper(b) && k <= |b.high|
    ensures k > 0 ==> p < k
  {
    if k <= b.span then 0
    else if SwingHigh(b, k - 1 - b.span).Some? then k - 1 - b.span
    else TopFrom(b, k - 1)
  }

  function BottomFrom(b: Bars, k: nat): (p: nat)
    requires Proper(b) && k <= |b.high|
    ensures k > 0 ==> p < k
  {
    if k <= b.span then 0
    else if SwingLow(b, k - 1 - b.span).Some? then k - 1 - b.span
    else BottomFrom(b, k - 1)
  }

  function Trailed(b: Bars, k: nat): Trail
    requires Proper(b) && k <= |b.high|
  {
    TrailAfter(SwingHighs(b), SwingLows(b), b, k)
  }

  /** The leg the trailing loop keeps is the detector's. */
  lemma {:induction false} LegsAgree(b: Bars, k: nat)
    requires Proper(b) && k <= |b.high|
    ensures Trailed(b, k).leg == LegAfter(b, k)
    decreases k
  {
    if k > 0 {
      LegsAgree(b, k - 1);
      if k > b.span {
        assert SwingHighs(b)[k - 1 - b.span] == SwingHigh(b, k - 1 - b.span);
        assert SwingLows(b)[k - 1 - b.span] == SwingLow(b, k - 1 - b.span);
      }
    }
  }

  /** Before the window, the pivot itself is the extremum. */
  lemma MaxOfPivot(b: Bars, k: nat)
    requires Proper(b) && b.span < k <= |b.high| && PivotHigh(b.high, b.span, k)
    ensures MaxOf(b.high[k - 1 - b.span..k]) == b.high[k - 1 - b.span]
  {
    var s, p := b.high[k - 1 - b.span..k], k - 1 - b.span;
    MaxIsMax(s);
    var u :| 0 <= u < |s| && s[u] == MaxOf(s);
    assert s[0] == b.high[p] && s[u] == b.high[p + u];
  }

  lemma MinOfPivot(b: Bars, k: nat)
    requires Proper(b) && b.span < k <= |b.high| && PivotLow(b.low, b.span, k)
    ensures MinOf(b.low[k - 1 - b.span..k]) == b.low[k - 1 - b.span]
  {
    var s, p := b.low[k - 1 - b.span..k], k - 1 - b.span;
    MinIsMin(s);
    var u :| 0 <= u < |s| && s[u] == MinOf(s);
    assert s[0] == b.low[p] && s[u] == b.low[p + u];
  }

  lemma MaxOfNext(s: seq<real>, from: nat, k: nat)
    requires from < k - 1 < |s|
    ensures MaxOf(s[from..k]) == Max(MaxOf(s[from..k - 1]), s[k - 1])
    ensures MinOf(s[from..k]) == Min(MinOf(s[from..k - 1]), s[k - 1])
  {
    assert s[from..k][..k - from - 1] == s[from..k - 1];
  }

  /** A swing high is confirmed by a pivot high, a swing low by a pivot low. */
  lemma MarksArePivots(b: Bars, p: nat)
    requires Proper(b) && p < |b.high|
    ensures SwingHigh(b, p).Some? ==> p + b.span < |b.high| && PivotHigh(b.high, b.span, p + b.span + 1)
    ensures SwingLow(b, p).Some? ==> p + b.span < |b.high| && PivotLow(b.low, b.span, p + b.span + 1)
  {
  }

  /** One step of the trailing loop on the detector's marks: a mark always resets its level. */
  lemma TrailedNext(b: Bars, k: nat)
    requires Proper(b) && 0 < k <= |b.high|
    ensures var t, next := Trailed(b, k - 1), Trailed(b, k);
      && next.up == Higher(if k > b.span && SwingHigh(b, k - 1 - b.span).Some?
                           then SwingHigh(b, k - 1 - b.span) else t.up,
                           b.high[k - 1])
      && next.dn == Lower(if k > b.span && SwingLow(b, k - 1 - b.span).Some? then SwingLow(b, k - 1 - b.span) else t.dn,
                          b.low[k - 1])
  {
    LegsAgree(b, k - 1);
    if k > b.span {
      var p := k - 1 - b.span;
      assert SwingHighs(b)[p] == SwingHigh(b, p) && SwingLows(b)[p] == SwingLow(b, p);
      assert SwingHigh(b, p).Some? ==> LegAfter(b, k - 1) == Bullish;
      assert SwingLow(b, p).Some? ==> LegAfter(b, k - 1) == Bearish;
      hide LegAfter;
    }
  }

  /** The upper level at each bar is the highest high since the latest confirmed swing high, that bar included. */
  lemma {:induction false} UpIsHighestSince(b: Bars, k: nat)
    requires Proper(b) && 0 < k <= |b.high|
    ensures Trailed(b, k).up == Some(MaxOf(b.high[TopFrom(b, k)..k]))
    decreases k
  {
    hide LegAfter, Trailed, MaxOf, SwingHigh;
    TrailedNext(b, k);
    if k > b.span && SwingHigh(b, k - 1 - b.span).Some? {
      TopReset(b, k);
    } else if k > 1 {
      UpIsHighestSince(b, k - 1);
      MaxOfNext(b.high, TopFrom(b, k - 1), k);
    } else {
      FirstBar(b);
    }
  }

  lemma TopReset(b: Bars, k: nat)
    requires Proper(b) && b.span < k <= |b.high| && SwingHigh(b, k - 1 - b.span).Some?
    ensures Higher(SwingHigh(b, k - 1 - b.span), b.high[k - 1]) == Some(MaxOf(b.high[k - 1 - b.span..k]))
  {
    MarksArePivots(b, k - 1 - b.span);
    MaxOfPivot(b, k);
    assert b.high[k - 1] < b.high[k - 1 - b.span];
  }

  lemma FirstBar(b: Bars)
    requires Proper(b) && |b.high| > 0
    ensures Trailed(b, 0).up == None == Trailed(b, 0).dn
    ensures MaxOf(b.high[0..1]) == b.high[0] && MinOf(b.low[0..1]) == b.low[0]
  {
  }

  /** And the lower level the lowest low since the latest confirmed swing low. */
  lemma {:induction false} DnIsLowestSince(b: Bars, k: nat)
    requires Proper(b) && 0 < k <= |b.high|
    ensures Trailed(b, k).dn == Some(MinOf(b.low[BottomFrom(b, k)..k]))
    decreases k
  {
    hide LegAfter, Trailed, MinOf, SwingLow;
    TrailedNext(b, k);
    if k > b.span && SwingLow(b, k - 1 - b.span).Some? {
      BottomReset(b, k);
    } else if k > 1 {
      DnIsLowestSince(b, k - 1);
      MaxOfNext(b.low, BottomFrom(b, k - 1), k);
    } else {
      FirstBar(b);
    }
  }

  lemma BottomReset(b: Bars, k: nat)
    requires Proper(b) && b.span < k <= |b.high| && SwingLow(b, k - 1 - b.span).Some?
    ensures Lower(SwingLow(b, k - 1 - b.span), b.low[k - 1]) == Some(MinOf(b.low[k - 1 - b.span..k]))
  {
    MarksArePivots(b, k - 1 - b.span);
    MinOfPivot(b, k);
    assert b.low[k - 1] > b.low[k - 1 - b.span];
  }

  // --------------------------------------------------------------------------------------- zones

  datatype Zones = Zones(greenLow: real, greenHigh: real, redLow: real, redHigh: real)

  function ComputeZones(up: real, dn: real): Option<Zones> {
    if !(up > dn) then None else Some(Zones(dn, dn * 0.95 + up * 0.05, up * 0.95 + dn * 0.05, up))
  }

  /** Zones are ordered bottom to top, both a twentieth of the range high, and missing without a range. */
  lemma ZonesAreOrdered(up: real, dn: real)
    requires dn <= up
    ensures ComputeZones(up, dn).None? <==> up == dn
    ensures ComputeZones(up, dn).Some? ==>
      var z := ComputeZones(up, dn).value;
      && z.greenLow == dn < z.greenHigh < z.redLow < z.redHigh == up
      && z.greenHigh - z.greenLow == z.redHigh - z.redLow == 0.05 * (up - dn)
  {
  }

  /** On proper bars the levels enclose the current bar, so the zones of a bar are missing exactly when
      its levels coincide. */
  lemma LevelsEncloseBar(b: Bars, k: nat)
    requires Proper(b) && 0 < k <= |b.high| && b.low[k - 1] <= b.high[k - 1]
    ensures Trailed(b, k).up.Some? && Trailed(b, k).dn.Some?
    ensures Trailed(b, k).dn.value <= b.low[k - 1] <= b.high[k - 1] <= Trailed(b, k).up.value
    ensures var up, dn := Trailed(b, k).up.value, Trailed(b, k).dn.value; ComputeZones(up, dn).None? <==> up == dn
  {
  }
}
