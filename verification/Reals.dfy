/** The few facts about real numbers and finite sums that the other modules share. */
module Reals {
  /** Below this a closed remainder, a slope range or a variance counts as zero. */
  const EPSILON: real := 0.000000000001

  function Abs(x: real): real { if x < 0.0 then -x else x }

  function Max(x: real, y: real): real { if x < y then y else x }

  function Min(x: real, y: real): real { if y < x then y else x }

  function Sum(s: seq<real>): real {
    if s == [] then 0.0 else Sum(s[..|s| - 1]) + s[|s| - 1]
  }

  lemma {:induction false} SumConcat(a: seq<real>, b: seq<real>)
    ensures Sum(a + b) == Sum(a) + Sum(b)
  {
    if b == [] {
      assert a + b == a;
    } else {
      assert (a + b)[..|a + b| - 1] == a + b[..|b| - 1];
      SumConcat(a, b[..|b| - 1]);
    }
  }

  lemma SumSplit(s: seq<real>, k: nat)
    requires k <= |s|
    ensures Sum(s) == Sum(s[..k]) + Sum(s[k..])
  {
    assert s == s[..k] + s[k..];
    SumConcat(s[..k], s[k..]);
  }

  lemma SumOfOne(x: real)
    ensures Sum([x]) == x
  {
  }

  /** The last d elements, or all of them while there are fewer. */
  function Window<T>(s: seq<T>, d: nat): (w: seq<T>)
    ensures |w| == if |s| < d then |s| else d
  {
    if |s| < d then s else s[|s| - d..]
  }

  /** How a window moves when one more sample arrives. */
  lemma WindowSlides<T>(s: seq<T>, x: T, d: nat)
    ensures |s| < d ==> Window(s + [x], d) == Window(s, d) + [x]
    ensures |s| >= d ==> Window(s + [x], d) == (Window(s, d) + [x])[1..]
  {
  }
}
