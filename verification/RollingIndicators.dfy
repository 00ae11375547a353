/** The constant-time streaming indicators and the window formulas they stand for.

    Each class keeps, beside the fields the program updates, a ghost history of the samples
    it has accepted; its readings are proved about the window of that history, over streams
    of any length.  A sample may be NaN, which every indicator skips. */
module RollingIndicators {
  import opened Wrappers
  import opened Reals

  datatype Sample = NaN | Num(x: real)

  // ------------------------------------------------------------- monotone-deque extremum

  /** a is at least as extreme as b. */
  predicate Beats(isMax: bool, a: real, b: real) { if isMax then a >= b else a <= b }

  ghost predicate IsExtreme(isMax: bool, window: seq<real>, v: real) {
    v in window && forall w :: w in window ==> Beats(isMax, v, w)
  }

  ghost predicate BeatsAll(isMax: bool, v: real, h: seq<real>, from: nat, to: int) {
    forall j :: from <= j < to && j < |h| ==> Beats(isMax, v, h[j])
  }

  /** The deque q covers the samples of h from `from` on: its front entry is one of them and
      beats all up to itself, the next is strictly less extreme and covers the rest. */
  ghost predicate Covers(isMax: bool, q: seq<(int, real)>, h: seq<real>, from: nat) {
    if q == [] then from >= |h|
    else
      && from <= q[0].0 < |h|
      && q[0].1 == h[q[0].0]
      && BeatsAll(isMax, q[0].1, h, from, q[0].0)
      && (|q| > 1 ==> !Beats(isMax, q[1].1, q[0].1))
      && Covers(isMax, q[1..], h, q[0].0 + 1)
  }

  lemma {:induction false} FrontBeatsAll(isMax: bool, q: seq<(int, real)>, h: seq<real>, from: nat)
    requires Covers(isMax, q, h, from) && q != []
    ensures BeatsAll(isMax, q[0].1, h, from, |h|)
  {
    if |q| > 1 {
      FrontBeatsAll(isMax, q[1..], h, q[0].0 + 1);
    }
  }

  /** Pushing x behind the n entries it does not beat, in place of those it does. */
  lemma {:induction false} PushCovers(isMax: bool, q: seq<(int, real)>, n: nat, h: seq<real>, x: real, from: nat)
    requires Covers(isMax, q, h, from) && from <= |h| && n <= |q|
    requires n < |q| ==> Beats(isMax, x, q[n].1)
    requires n > 0 ==> !Beats(isMax, x, q[n - 1].1)
    ensures Covers(isMax, q[..n] + [(|h|, x)], h + [x], from)
    decreases n
  {
    var q' := q[..n] + [(|h|, x)];
    if n == 0 {
      if q != [] {
        FrontBeatsAll(isMax, q, h, from);
      }
      assert q'[1..] == [];
    } else {
      PushCovers(isMax, q[1..], n - 1, h, x, q[0].0 + 1);
      assert q'[1..] == q[1..][..n - 1] + [(|h|, x)];
      assert n > 1 ==> q[1..][n - 2] == q[n - 1];
    }
  }

  /** Dropping the m entries that are older than the new start of the window. */
  lemma {:induction false} ExpireCovers(isMax: bool, q: seq<(int, real)>, m: nat, h: seq<real>, from: nat, later: nat)
    requires Covers(isMax, q, h, from) && from <= later && m < |q|
    requires m > 0 ==> q[m - 1].0 < later
    requires later <= q[m].0
    ensures Covers(isMax, q[m..], h, later)
    decreases m
  {
    if m > 0 {
      Increasing(isMax, q, h, from, m - 1);
      ExpireCovers(isMax, q[1..], m - 1, h, q[0].0 + 1, later);
      assert q[1..][m - 1..] == q[m..];
    }
  }

  lemma {:induction false} Increasing(isMax: bool, q: seq<(int, real)>, h: seq<real>, from: nat, k: nat)
    requires Covers(isMax, q, h, from) && k < |q|
    ensures q[0].0 <= q[k].0
    decreases k
  {
    if k > 0 {
      Increasing(isMax, q[1..], h, q[0].0 + 1, k - 1);
    }
  }

  function WindowStart(h: seq<real>, d: nat): nat { if |h| < d then 0 else |h| - d }

  class RollingExtreme {
    const d: nat
    const isMax: bool
    var dq: seq<(int, real)>
    var t: int
    ghost var history: seq<real>

    ghost predicate Valid()
      reads this
    {
      d > 0 && t == |history| && Covers(isMax, dq, history, WindowStart(history, d))
    }

    constructor (d: nat, isMax: bool)
      requires d > 0
      ensures Valid() && history == [] && this.d == d && this.isMax == isMax
    {
      this.d, this.isMax := d, isMax;
      dq, t, history := [], 0, [];
    }

    method Update(sample: Sample)
      requires Valid()
      modifies this
      ensures Valid() && history == if sample.NaN? then old(history) else old(history) + [sample.x]
    {
      if sample.NaN? {
        return;
      }
      var x := sample.x;
      var q := dq;
      while q != [] && Beats(isMax, x, q[|q| - 1].1)
        invariant |q| <= |dq| && q == dq[..|q|]
        invariant |q| < |dq| ==> Beats(isMax, x, dq[|q|].1)
        decreases |q|
      {
        q := q[..|q| - 1];
      }
      PushCovers(isMax, dq, |q|, history, x, WindowStart(history, d));
      q := q + [(t, x)];
      ghost var pushed, m := q, 0;
      while q[0].0 <= t - d
        invariant m < |pushed| && q == pushed[m..] && pushed[|pushed| - 1] == (t, x)
        invariant m > 0 ==> pushed[m - 1].0 <= t - d
        decreases |q|
      {
        q, m := q[1..], m + 1;
      }
      history := history + [x];
      Increasing(isMax, pushed, history, WindowStart(old(history), d), m);
      ExpireCovers(isMax, pushed, m, history, WindowStart(old(history), d), WindowStart(history, d));
      dq := q;
      t := t + 1;
    }

    /** The front of the deque is the extremum of the last d samples, once there are d. */
    function Value(): (r: Option<real>)
      reads this
      requires Valid()
      ensures r.Some? <==> |history| >= d
      ensures r.Some? ==> IsExtreme(isMax, Window(history, d), r.value)
    {
      if t >= d then
        assert dq != [] && IsExtreme(isMax, Window(history, d), dq[0].1) by { FrontIsExtreme(isMax, dq, history, d); }
        Some(dq[0].1)
      else None
    }
  }

  lemma FrontIsExtreme(isMax: bool, q: seq<(int, real)>, h: seq<real>, d: nat)
    requires 0 < d <= |h| && Covers(isMax, q, h, WindowStart(h, d))
    ensures q != [] && IsExtreme(isMax, Window(h, d), q[0].1)
  {
    var w := Window(h, d);
    FrontBeatsAll(isMax, q, h, |h| - d);
    assert w[q[0].0 - (|h| - d)] == q[0].1;
    assert forall i :: 0 <= i < |w| ==> w[i] == h[|h| - d + i];
  }

  // ----------------------------------------------------------- linearly weighted average

  /** k times x, as repeated addition; `TimesIsProduct` ties it to multiplication. */
  function Times(k: nat, x: real): real { if k == 0 then 0.0 else Times(k - 1, x) + x }

  lemma {:induction false} TimesIsProduct(k: nat, x: real)
    ensures Times(k, x) == k as real * x
  {
    if k > 0 {
      TimesIsProduct(k - 1, x);
      assert k as real * x == (k - 1) as real * x + x;
    }
  }

  /** Oldest sample weighted 1, newest weighted by the length. */
  function WeightedSum(b: seq<real>): real {
    if b == [] then 0.0 else WeightedSum(b[..|b| - 1]) + Times(|b|, b[|b| - 1])
  }

  lemma WeightedSumOfAppend(b: seq<real>, x: real)
    ensures WeightedSum(b + [x]) == WeightedSum(b) + Times(|b| + 1, x)
    ensures Sum(b + [x]) == Sum(b) + x
  {
  }

  /** Prepending an older sample raises every other weight by one. */
  lemma {:induction false} WeightedSumOfPrepend(a: real, b: seq<real>)
    ensures WeightedSum([a] + b) == a + WeightedSum(b) + Sum(b)
    ensures Sum([a] + b) == a + Sum(b)
  {
    if b == [] {
      assert [a] + b == [] + [a];
      WeightedSumOfAppend([], a);
      assert Times(1, a) == Times(0, a) + a;
    } else {
      var init, x := b[..|b| - 1], b[|b| - 1];
      WeightedSumOfPrepend(a, init);
      WeightedSumOfAppend([a] + init, x);
      WeightedSumOfAppend(init, x);
      assert [a] + b == ([a] + init) + [x] && b == init + [x];
    }
  }

  /** The constant-time step: subtract the old sum, add the newest at full weight. */
  lemma WeightedSumSlides(b: seq<real>, x: real)
    requires b != []
    ensures WeightedSum((b + [x])[1..]) == WeightedSum(b) - Sum(b) + Times(|b|, x)
    ensures Sum((b + [x])[1..]) == Sum(b) - b[0] + x
  {
    var rest := b[1..];
    assert b == [b[0]] + rest && (b + [x])[1..] == rest + [x];
    WeightedSumOfPrepend(b[0], rest);
    WeightedSumOfAppend(rest, x);
  }

  predicate AllWithin(b: seq<real>, lo: real, hi: real) { forall i :: 0 <= i < |b| ==> lo <= b[i] <= hi }

  /** The sum of the weights 1..n; `NormIsTriangular` gives the program's closed form. */
  function Norm(n: nat): real { if n == 0 then 0.0 else Norm(n - 1) + n as real }

  lemma {:induction false} NormIsTriangular(n: nat)
    ensures Norm(n) == (n * (n + 1)) as real / 2.0
    ensures n > 0 ==> Norm(n) > 0.0
  {
    if n > 0 {
      NormIsTriangular(n - 1);
      assert n * (n + 1) == (n - 1) * n + 2 * n;
    }
  }

  /** The weighted sum of n samples all equal to x. */
  function Level(n: nat, x: real): real { if n == 0 then 0.0 else Level(n - 1, x) + Times(n, x) }

  lemma {:induction false} LevelIsProduct(n: nat, x: real)
    ensures Level(n, x) == x * Norm(n)
  {
    if n > 0 {
      LevelIsProduct(n - 1, x);
      TimesIsProduct(n, x);
      ProductOfSum(x, Norm(n - 1), n as real);
    }
  }

  lemma ProductOfSum(x: real, a: real, b: real)
    ensures x * (a + b) == x * a + b * x
  {
  }

  lemma {:induction false} TimesMonotone(k: nat, x: real, y: real)
    requires x <= y
    ensures Times(k, x) <= Times(k, y)
  {
    if k > 0 {
      TimesMonotone(k - 1, x, y);
    }
  }

  lemma {:induction false} TimesIncreases(k: nat, x: real, y: real)
    requires x < y && k > 0
    ensures Times(k, x) < Times(k, y)
  {
    if k > 1 {
      TimesIncreases(k - 1, x, y);
    }
  }

  lemma {:induction false} LevelIncreases(n: nat, x: real, y: real)
    requires x < y && n > 0
    ensures Level(n, x) < Level(n, y)
  {
    TimesIncreases(n, x, y);
    if n > 1 {
      LevelIncreases(n - 1, x, y);
    }
  }

  /** A weighted sum lies between those of its bounds. */
  lemma {:induction false} WeightedSumBounds(b: seq<real>, lo: real, hi: real)
    requires AllWithin(b, lo, hi)
    ensures Level(|b|, lo) <= WeightedSum(b) <= Level(|b|, hi)
  {
    if b != [] {
      var init, x := b[..|b| - 1], b[|b| - 1];
      assert AllWithin(init, lo, hi) && lo <= x <= hi;
      WeightedSumBounds(init, lo, hi);
      TimesMonotone(|b|, lo, x);
      TimesMonotone(|b|, x, hi);
    }
  }

  /** What one more sample does to the window, its sum and its weighted sum. */
  lemma DecayStep(h: seq<real>, x: real, d: nat)
    requires d > 0
    ensures |h| < d ==> Window(h + [x], d) == Window(h, d) + [x]
    ensures |h| < d ==> Sum(Window(h + [x], d)) == Sum(Window(h, d)) + x
    ensures |h| >= d ==> Window(h + [x], d) == (Window(h, d) + [x])[1..]
    ensures |h| >= d ==> Sum(Window(h + [x], d)) == Sum(Window(h, d)) - Window(h, d)[0] + x
    ensures |h| >= d ==> WeightedSum(Window(h + [x], d)) == WeightedSum(Window(h, d)) - Sum(Window(h, d)) + Times(d, x)
  {
    WindowSlides(h, x, d);
    if |h| >= d {
      WeightedSumSlides(Window(h, d), x);
    } else {
      WeightedSumOfAppend(Window(h, d), x);
    }
  }

  /** The full weight of the newest sample. */
  method FullWeight(d: nat, x: real) returns (r: real)
    ensures r == Times(d, x)
  {
    TimesIsProduct(d, x);
    r := d as real * x;
  }

  class DecayLinear {
    const d: nat
    var buf: seq<real>
    var s: real
    var ws: real
    ghost var history: seq<real>

    ghost predicate Valid()
      reads this
    {
      && d > 0
      && buf == Window(history, d)
      && s == Sum(buf)
      && (|buf| == d ==> ws == WeightedSum(buf))
    }

    constructor (d: nat)
      requires d > 0
      ensures Valid() && history == [] && this.d == d
    {
      this.d := d;
      buf, s, ws, history := [], 0.0, 0.0, [];
    }

    method Update(sample: Sample)
      requires Valid()
      modifies this
      ensures Valid() && history == if sample.NaN? then old(history) else old(history) + [sample.x]
    {
      if sample.NaN? {
        return;
      }
      if |buf| == d {
        Slide(sample.x);
      } else {
        Fill(sample.x);
      }
    }

    method Slide(x: real)
      requires Valid() && |buf| == d
      modifies this
      ensures Valid() && history == old(history) + [x]
    {
      hide WeightedSum, Sum, Times;
      DecayStep(history, x, d);
      var oldest := buf[0];
      var newest := FullWeight(d, x);
      ws := ws - s + newest;
      s := s - oldest + x;
      buf := buf + [x];
      buf := buf[1..];
      history := history + [x];
    }

    method Fill(x: real)
      requires Valid() && |buf| < d
      modifies this
      ensures Valid() && history == old(history) + [x]
    {
      hide WeightedSum, Sum, Times;
      DecayStep(history, x, d);
      buf := buf + [x];
      s := s + x;
      if |buf| == d {
        ws := WeightedSum(buf);
      }
      history := history + [x];
    }

    /** The weights sum to the norm, so a reading stays within any bounds of its window. */
    method Value() returns (r: Option<real>)
      requires Valid()
      ensures r.Some? <==> |history| >= d
      ensures r.Some? ==> IsWeightedAverage(r.value, Window(history, d))
    {
      if |buf| == d {
        var norm := (d * (d + 1)) as real / 2.0;
        NormIsTriangular(d);
        r := Some(ws / norm);
        DivideBack(ws, norm);
        WeightedAverage(buf, r.value);
      } else {
        r := None;
      }
    }
  }

  ghost predicate IsWeightedAverage(v: real, b: seq<real>) {
    && v * Norm(|b|) == WeightedSum(b)
    && forall lo, hi :: AllWithin(b, lo, hi) ==> lo <= v <= hi
  }

  lemma DivideBack(a: real, b: real)
    requires b != 0.0
    ensures a / b * b == a
  {
  }

  lemma WeightedAverage(b: seq<real>, v: real)
    requires b != [] && v * Norm(|b|) == WeightedSum(b)
    ensures IsWeightedAverage(v, b)
  {
    forall lo, hi | AllWithin(b, lo, hi) ensures lo <= v <= hi {
      WeightedSumBounds(b, lo, hi);
      LevelIsProduct(|b|, v);
      if v < lo { LevelIncreases(|b|, v, lo); }
      if hi < v { LevelIncreases(|b|, hi, v); }
    }
  }

  // --------------------------------------------------------------------- power-sum moments

  function Power(x: real, k: nat): real { if k == 0 then 1.0 else x * Power(x, k - 1) }

  function PowerSum(s: seq<real>, k: nat): real {
    if s == [] then 0.0 else PowerSum(s[..|s| - 1], k) + Power(s[|s| - 1], k)
  }

  /** The k-th power sum of the deviations from m: what a moment means. */
  function CentredSum(s: seq<real>, m: real, k: nat): real {
    if s == [] then 0.0 else CentredSum(s[..|s| - 1], m, k) + Power(s[|s| - 1] - m, k)
  }

  lemma Powers(x: real)
    ensures Power(x, 1) == x && Power(x, 2) == x * x && Power(x, 3) == x * x * x
  {
  }

  lemma {:induction false} PowerSumDropsOldest(s: seq<real>, k: nat)
    requires s != []
    ensures PowerSum(s[1..], k) == PowerSum(s, k) - Power(s[0], k)
  {
    var n := |s|;
    if n > 1 {
      PowerSumDropsOldest(s[..n - 1], k);
      assert s[..n - 1][1..] == s[1..][..n - 2];
    } else {
      assert s[..0] == [];
    }
  }

  /** One more sample x: the arithmetic of the step, with c samples before it. */
  lemma CentredStep(x: real, m: real, c: real, p1: real, p2: real, p3: real)
    ensures (x - m) * (x - m) == x * x - 2.0 * m * x + m * m
    ensures 2.0 * m * (p1 + x) == 2.0 * m * p1 + 2.0 * m * x
    ensures (c + 1.0) * (m * m) == c * (m * m) + m * m
    ensures 3.0 * m * (p2 + x * x) == 3.0 * m * p2 + 3.0 * m * (x * x)
    ensures 3.0 * (m * m) * (p1 + x) == 3.0 * (m * m) * p1 + 3.0 * (m * m) * x
    ensures (c + 1.0) * (m * m * m) == c * (m * m * m) + m * m * m
  {
  }

  lemma CubeOfDeviation(x: real, m: real)
    ensures (x - m) * (x - m) * (x - m) == x * x * x - 3.0 * m * (x * x) + 3.0 * (m * m) * x - m * m * m
  {
  }

  /** The second and third sums of deviations from m that raw power sums p1, p2, p3 of c
      samples imply. */
  function Second(c: real, m: real, p1: real, p2: real): real {
    p2 - 2.0 * m * p1 + c * (m * m)
  }

  function Third(c: real, m: real, p1: real, p2: real, p3: real): real {
    p3 - 3.0 * m * p2 + 3.0 * (m * m) * p1 - c * (m * m * m)
  }

  lemma CentredStepSums(x: real, m: real, c: real, p1: real, p2: real, p3: real)
    ensures Second(c, m, p1, p2) + Power(x - m, 2) == Second(c + 1.0, m, p1 + Power(x, 1), p2 + Power(x, 2))
    ensures Third(c, m, p1, p2, p3) + Power(x - m, 3) ==
      Third(c + 1.0, m, p1 + Power(x, 1), p2 + Power(x, 2), p3 + Power(x, 3))
  {
    Powers(x);
    Powers(x - m);
    CentredStep(x, m, c, p1, p2, p3);
    CubeOfDeviation(x, m);
  }

  /** Centred second and third sums in terms of raw power sums, about any m. */
  lemma {:induction false} CentredSumsFromPowers(s: seq<real>, m: real)
    ensures CentredSum(s, m, 2) == Second(|s| as real, m, PowerSum(s, 1), PowerSum(s, 2))
    ensures CentredSum(s, m, 3) == Third(|s| as real, m, PowerSum(s, 1), PowerSum(s, 2), PowerSum(s, 3))
  {
    if s != [] {
      var init, x := s[..|s| - 1], s[|s| - 1];
      CentredSumsFromPowers(init, m);
      CentredStepSums(x, m, |init| as real, PowerSum(init, 1), PowerSum(init, 2), PowerSum(init, 3));
    }
  }

  /** Squared deviations never sum below zero, and to zero only when all samples are m. */
  lemma {:induction false} CentredSquares(s: seq<real>, m: real)
    ensures CentredSum(s, m, 2) >= 0.0
    ensures CentredSum(s, m, 2) == 0.0 <==> forall i :: 0 <= i < |s| ==> s[i] == m
  {
    if s != [] {
      var n := |s|;
      CentredSquares(s[..n - 1], m);
      var y := s[n - 1] - m;
      Powers(y);
      assert y * y >= 0.0;
      assert y * y == 0.0 <==> y == 0.0;
      assert forall i :: 0 <= i < n - 1 ==> s[i] == s[..n - 1][i];
    }
  }

  predicate Constant(s: seq<real>) { forall i, j :: 0 <= i < |s| && 0 <= j < |s| ==> s[i] == s[j] }

  /** The mean of a constant window is its constant. */
  lemma {:induction false} MeanOfConstant(s: seq<real>, c: real)
    requires forall i :: 0 <= i < |s| ==> s[i] == c
    ensures PowerSum(s, 1) == |s| as real * c
  {
    if s != [] {
      var n := |s|;
      MeanOfConstant(s[..n - 1], c);
      Powers(s[n - 1]);
      assert (n - 1) as real * c + c == n as real * c;
    }
  }

  function MeanOf(w: seq<real>): real
    requires w != []
  {
    PowerSum(w, 1) / |w| as real
  }

  /** The sample variance by its definition; absent for a constant or too short window. */
  function VarianceOf(w: seq<real>): Option<real> {
    if |w| < 2 || Constant(w) then None else Some(CentredSum(w, MeanOf(w), 2) / (|w| - 1) as real)
  }

  lemma VarianceIsPositive(w: seq<real>)
    ensures VarianceOf(w).Some? ==> VarianceOf(w).value > 0.0
  {
    if VarianceOf(w).Some? {
      var c := CentredSum(w, MeanOf(w), 2);
      CentredSquares(w, MeanOf(w));
      assert c > 0.0;
      PositiveQuotient(c, (|w| - 1) as real);
    }
  }

  lemma PositiveQuotient(c: real, n: real)
    requires n > 0.0
    ensures c / n > 0.0 <==> c > 0.0
  {
  }

  /** The second and third central moments by their definition. */
  function CentralMomentsOf(w: seq<real>): Option<(real, real)> {
    if |w| < 3 || CentredSum(w, MeanOf(w), 2) / |w| as real <= EPSILON then None
    else Some((CentredSum(w, MeanOf(w), 2) / |w| as real, CentredSum(w, MeanOf(w), 3) / |w| as real))
  }

  /** About the mean, the second centred sum is what the program computes. */
  lemma SecondAboutMean(n: real, m: real, s1: real, s2: real)
    requires n > 0.0 && m == s1 / n
    ensures Second(n, m, s1, s2) == s2 - n * m * m
  {
  }

  lemma VarianceFromPowers(w: seq<real>, m: real, v: real)
    requires |w| >= 2 && m == PowerSum(w, 1) / |w| as real
    requires v == (PowerSum(w, 2) - |w| as real * m * m) / (|w| - 1) as real
    ensures VarianceOf(w) == if v > 0.0 then Some(v) else None
  {
    CentredSumsFromPowers(w, m);
    SecondAboutMean(|w| as real, m, PowerSum(w, 1), PowerSum(w, 2));
    var c := CentredSum(w, m, 2);
    PositiveQuotient(c, (|w| - 1) as real);
    CentredSquares(w, m);
    if Constant(w) {
      MeanOfConstant(w, w[0]);
      QuotientOfProduct(|w| as real, w[0]);
      assert m == w[0];
    }
  }

  lemma QuotientOfProduct(n: real, c: real)
    requires n > 0.0
    ensures n * c / n == c
  {
  }

  /** The program's moment formulas are the centred sums over the count. */
  lemma MomentsAreCentred(n: real, m: real, s1: real, s2: real, s3: real, m2: real, m3: real)
    requires n > 0.0 && m == s1 / n
    requires m2 == s2 / n - m * m
    requires m3 == s3 / n - 3.0 * m * (s2 / n) + 2.0 * m * m * m
    ensures Second(n, m, s1, s2) / n == m2 && Third(n, m, s1, s2, s3) / n == m3
  {
  }

  ghost predicate Summarises(b: seq<real>, s1: real, s2: real, s3: real, h: seq<real>, d: nat) {
    b == Window(h, d) && s1 == PowerSum(b, 1) && s2 == PowerSum(b, 2) && s3 == PowerSum(b, 3)
  }

  lemma PowerSumOfAppend(b: seq<real>, x: real, k: nat)
    ensures PowerSum(b + [x], k) == PowerSum(b, k) + Power(x, k)
  {
  }

  lemma SampleJoins(b: seq<real>, s1: real, s2: real, s3: real, h: seq<real>, x: real, d: nat)
    requires Summarises(b, s1, s2, s3, h, d) && |h| < d
    ensures Summarises(b + [x], s1 + Power(x, 1), s2 + Power(x, 2), s3 + Power(x, 3), h + [x], d)
  {
  }

  lemma SampleReplaces(b: seq<real>, s1: real, s2: real, s3: real, h: seq<real>, x: real, d: nat)
    requires Summarises(b, s1, s2, s3, h, d) && |h| >= d
    ensures var o := (b + [x])[0];
      Summarises((b + [x])[1..], s1 + Power(x, 1) - Power(o, 1), s2 + Power(x, 2) - Power(o, 2),
                 s3 + Power(x, 3) - Power(o, 3), h + [x], d)
  {
    WindowSlides(h, x, d);
    forall k: nat ensures PowerSum((b + [x])[1..], k) == PowerSum(b, k) + Power(x, k) - Power((b + [x])[0], k) {
      PowerSumOfAppend(b, x, k);
      PowerSumDropsOldest(b + [x], k);
    }
  }

  /** The sums with sample x added (sign 1) or taken out (sign -1). */
  method AddPowers(s1: real, s2: real, s3: real, sign: real, x: real) returns (t1: real, t2: real, t3: real)
    requires sign == 1.0 || sign == -1.0
    ensures t1 == if sign == 1.0 then s1 + Power(x, 1) else s1 - Power(x, 1)
    ensures t2 == if sign == 1.0 then s2 + Power(x, 2) else s2 - Power(x, 2)
    ensures t3 == if sign == 1.0 then s3 + Power(x, 3) else s3 - Power(x, 3)
  {
    Powers(x);
    t1, t2, t3 := s1 + sign * x, s2 + sign * (x * x), s3 + sign * (x * x * x);
  }

  class RollingMoments {
    const d: nat
    var buf: seq<real>
    var s1: real
    var s2: real
    var s3: real
    ghost var history: seq<real>

    ghost predicate Valid()
      reads this
    {
      Summarises(buf, s1, s2, s3, history, d)
    }

    constructor (d: nat)
      ensures Valid() && history == [] && this.d == d
    {
      this.d := d;
      buf, s1, s2, s3, history := [], 0.0, 0.0, 0.0, [];
    }

    method Update(sample: Sample)
      requires Valid()
      modifies this
      ensures Valid() && history == if sample.NaN? then old(history) else old(history) + [sample.x]
    {
      if sample.NaN? {
        return;
      }
      var x := sample.x;
      if |history| < d {
        SampleJoins(buf, s1, s2, s3, history, x, d);
      } else {
        SampleReplaces(buf, s1, s2, s3, history, x, d);
      }
      buf := buf + [x];
      s1, s2, s3 := AddPowers(s1, s2, s3, 1.0, x);
      if |buf| > d {
        var o := buf[0];
        buf := buf[1..];
        s1, s2, s3 := AddPowers(s1, s2, s3, -1.0, o);
      }
      history := history + [x];
    }

    function Mean(): (r: Option<real>)
      reads this
      requires Valid()
      ensures r == if Window(history, d) == [] then None else Some(MeanOf(Window(history, d)))
    {
      if |buf| > 0 then Some(s1 / |buf| as real) else None
    }

    /** The square of `std`.  It is withheld (NaN) exactly when the window is constant or
        shorter than two, so it is never zero or negative. */
    method Variance() returns (r: Option<real>)
      requires Valid()
      ensures r == VarianceOf(Window(history, d))
    {
      var n := |buf|;
      if n < 2 {
        return None;
      }
      var m := s1 / n as real;
      var v := (s2 - n as real * m * m) / (n - 1) as real;
      VarianceFromPowers(buf, m, v);
      r := if v > 0.0 then Some(v) else None;
    }

    /** The parts of `skew`: second and third central moments of the window. */
    method CentralMoments() returns (r: Option<(real, real)>)
      requires Valid()
      ensures r == CentralMomentsOf(Window(history, d))
    {
      var n := |buf|;
      if n < 3 {
        return None;
      }
      var m := s1 / n as real;
      var m2 := s2 / n as real - m * m;
      var m3 := s3 / n as real - 3.0 * m * (s2 / n as real) + 2.0 * m * m * m;
      CentredSumsFromPowers(buf, m);
      MomentsAreCentred(n as real, m, s1, s2, s3, m2, m3);
      r := if m2 > EPSILON then Some((m2, m3)) else None;
    }
  }
}
