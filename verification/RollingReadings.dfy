/** What the readings of the streaming indicators say about their windows, sample by sample. */
module RollingReadings {
  import opened Wrappers
  import opened Reals
  import opened RollingIndicators

  /** The extremum is a sample of the window that no other exceeds, or undercuts. */
  lemma ExtremeMeans(isMax: bool, w: seq<real>, v: real)
    ensures IsExtreme(isMax, w, v) <==>
      v in w && forall i :: 0 <= i < |w| ==> if isMax then w[i] <= v else v <= w[i]
  {
    if IsExtreme(isMax, w, v) {
      forall i | 0 <= i < |w| ensures if isMax then w[i] <= v else v <= w[i] {
        assert w[i] in w;
      }
    }
  }

  /** Where the window of the last d samples begins. */
  lemma WindowBegins(h: seq<real>, d: nat)
    ensures WindowStart(h, d) <= |h| && h[WindowStart(h, d)..] == Window(h, d)
    ensures |h| >= d ==> |Window(h, d)| == d && forall i :: 0 <= i < d ==> Window(h, d)[i] == h[|h| - d + i]
  {
  }

  /** The samples from place i on, each as often as its place in the window counts. */
  function Ramp(w: seq<real>, i: nat): real
    requires i <= |w|
    decreases |w| - i
  {
    if i == |w| then 0.0 else (i + 1) as real * w[i] + Ramp(w, i + 1)
  }

  lemma {:induction false} RampOfMore(w: seq<real>, x: real, i: nat)
    requires i <= |w|
    ensures Ramp(w + [x], i) == Ramp(w, i) + (|w| + 1) as real * x
    decreases |w| - i
  {
    if i < |w| {
      RampOfMore(w, x, i + 1);
    } else {
      assert Ramp(w + [x], |w| + 1) == 0.0;
    }
  }

  lemma {:induction false} WeightedIsRamp(w: seq<real>)
    ensures WeightedSum(w) == Ramp(w, 0)
  {
    if w != [] {
      var init, x := w[..|w| - 1], w[|w| - 1];
      assert w == init + [x];
      WeightedIsRamp(init);
      WeightedSumOfAppend(init, x);
      RampOfMore(init, x, 0);
      TimesIsProduct(|w|, x);
    }
  }

  /** A weighted average: the newest sample counts most, the oldest once, over the triangular number. */
  lemma WeightedMeans(w: seq<real>, v: real)
    ensures IsWeightedAverage(v, w) ==> v * ((|w| * (|w| + 1)) as real / 2.0) == Ramp(w, 0)
  {
    WeightedIsRamp(w);
    NormIsTriangular(|w|);
    hide WeightedSum, Norm, Ramp;
  }

  /** And it lies within any bounds of the window. */
  lemma AverageIsWithin(w: seq<real>, v: real, lo: real, hi: real)
    requires IsWeightedAverage(v, w) && forall i :: 0 <= i < |w| ==> lo <= w[i] <= hi
    ensures lo <= v <= hi
  {
    assert AllWithin(w, lo, hi);
  }

  // ---------------------------------------------------------------------------- the moments

  /** The squares, or cubes, of the deviations from m. */
  function Squares(w: seq<real>, m: real): real {
    if w == [] then 0.0 else (w[0] - m) * (w[0] - m) + Squares(w[1..], m)
  }

  function Cubes(w: seq<real>, m: real): real {
    if w == [] then 0.0 else (w[0] - m) * (w[0] - m) * (w[0] - m) + Cubes(w[1..], m)
  }

  lemma {:induction false} CentredFromFront(w: seq<real>, m: real, k: nat)
    requires w != []
    ensures CentredSum(w, m, k) == Power(w[0] - m, k) + CentredSum(w[1..], m, k)
    decreases |w|
  {
    hide Power;
    if |w| > 1 {
      CentredFromFront(w[..|w| - 1], m, k);
      assert w[1..][..|w| - 2] == w[..|w| - 1][1..];
    }
  }

  lemma DeviationsOfFirst(w: seq<real>, m: real)
    requires w != []
    ensures Squares(w, m) == Power(w[0] - m, 2) + Squares(w[1..], m)
    ensures Cubes(w, m) == Power(w[0] - m, 3) + Cubes(w[1..], m)
  {
    Powers(w[0] - m);
  }

  lemma {:induction false} CentredAre(w: seq<real>, m: real)
    ensures CentredSum(w, m, 2) == Squares(w, m) && CentredSum(w, m, 3) == Cubes(w, m)
    decreases |w|
  {
    if w != [] {
      hide Power, CentredSum, Squares, Cubes;
      CentredFromFront(w, m, 2);
      CentredFromFront(w, m, 3);
      DeviationsOfFirst(w, m);
      CentredAre(w[1..], m);
    }
  }

  lemma {:induction false} FirstPowerIsSum(w: seq<real>)
    ensures PowerSum(w, 1) == Sum(w)
  {
    if w != [] {
      FirstPowerIsSum(w[..|w| - 1]);
      Powers(w[|w| - 1]);
    }
  }

  /** The mean of a window. */
  lemma MeanMeans(w: seq<real>)
    requires w != []
    ensures MeanOf(w) == Sum(w) / |w| as real
  {
    FirstPowerIsSum(w);
  }

  /** The variance: the squared deviations from the mean over one less than their number; none of fewer than two
      samples, or of samples that are all equal. */
  lemma VarianceMeans(w: seq<real>)
    ensures |w| < 2 ==> VarianceOf(w) == None
    ensures |w| >= 2 ==>
      var m := Sum(w) / |w| as real;
      VarianceOf(w) == if Squares(w, m) == 0.0 then None else Some(Squares(w, m) / (|w| as real - 1.0))
  {
    if |w| >= 2 {
      var m := Sum(w) / |w| as real;
      MeanMeans(w);
      CentredAre(w, m);
      CentredSquares(w, m);
      ConstantMeans(w, m);
      hide Squares, CentredSum, MeanOf, Constant, Sum;
      assert (|w| - 1) as real == |w| as real - 1.0;
    }
  }

  lemma {:induction false} SumOfConstant(w: seq<real>, c: real)
    requires forall i :: 0 <= i < |w| ==> w[i] == c
    ensures Sum(w) == |w| as real * c
  {
    FirstPowerIsSum(w);
    MeanOfConstant(w, c);
  }

  lemma ConstantMeans(w: seq<real>, m: real)
    requires |w| >= 2 && m == Sum(w) / |w| as real
    ensures Constant(w) <==> forall i :: 0 <= i < |w| ==> w[i] == m
  {
    if Constant(w) {
      forall i | 0 <= i < |w| ensures w[i] == w[0] {
      }
      SumOfConstant(w, w[0]);
      OverItself(|w| as real, w[0]);
    }
  }

  lemma OverItself(n: real, c: real)
    requires n > 0.0
    ensures n * c / n == c
  {
  }

  /** The two moments behind the skew: averages of squared and cubed deviations from the mean; none of fewer than
      three samples, or of hardly any deviation. */
  lemma MomentsMean(w: seq<real>)
    ensures |w| < 3 ==> CentralMomentsOf(w) == None
    ensures |w| >= 3 ==>
      var m, n := Sum(w) / |w| as real, |w| as real;
      CentralMomentsOf(w) ==
      if Squares(w, m) / n <= 0.000000000001 then None else Some((Squares(w, m) / n, Cubes(w, m) / n))
  {
    if |w| >= 3 {
      MeanMeans(w);
      CentredAre(w, Sum(w) / |w| as real);
      hide Squares, Cubes, CentredSum, MeanOf, Sum;
    }
  }
}
