/** Sorted sequences of reals: insertion, removal, and why a sorted form is unique. */
module Sorting {
  predicate IsSorted(s: seq<real>) {
    |s| < 2 || (s[|s| - 2] <= s[|s| - 1] && IsSorted(s[..|s| - 1]))
  }

  lemma {:induction false} LastIsLargest(s: seq<real>, i: nat)
    requires IsSorted(s) && i < |s|
    ensures s[i] <= s[|s| - 1]
    decreases |s|
  {
    if i < |s| - 1 {
      LastIsLargest(s[..|s| - 1], i);
    }
  }

  /** `bisect.insort`: x goes after every element that does not exceed it. */
  function Insort(s: seq<real>, x: real): seq<real> {
    if s == [] || s[|s| - 1] <= x then s + [x] else Insort(s[..|s| - 1], x) + [s[|s| - 1]]
  }

  function Sorted(s: seq<real>): seq<real> {
    if s == [] then [] else Insort(Sorted(s[..|s| - 1]), s[|s| - 1])
  }

  /** `list.index`: the first place x stands at. */
  function IndexOf(s: seq<real>, x: real): (i: nat)
    requires x in s
    ensures i < |s| && s[i] == x && x !in s[..i]
  {
    if s[0] == x then 0
    else
      assert x in s[1..];
      var i := IndexOf(s[1..], x);
      assert s[..i + 1] == [s[0]] + s[1..][..i];
      i + 1
  }

  lemma {:induction false} InsortKeepsOrder(s: seq<real>, x: real)
    requires IsSorted(s)
    ensures IsSorted(Insort(s, x))
    ensures Insort(s, x) != [] && Insort(s, x)[|Insort(s, x)| - 1] ==
      if s != [] && x < s[|s| - 1] then s[|s| - 1] else x
    decreases s
  {
    if s == [] || s[|s| - 1] <= x {
      assert (s + [x])[..|s|] == s;
    } else {
      var init, last := s[..|s| - 1], s[|s| - 1];
      InsortKeepsOrder(init, x);
      var r := Insort(init, x);
      assert (r + [last])[..|r|] == r;
    }
  }

  lemma {:induction false} InsortAddsOne(s: seq<real>, x: real)
    ensures multiset(Insort(s, x)) == multiset(s) + multiset{x}
    decreases s
  {
    if s != [] && s[|s| - 1] > x {
      InsortAddsOne(s[..|s| - 1], x);
      assert s == s[..|s| - 1] + [s[|s| - 1]];
    }
  }

  lemma {:induction false} SortedIsOrdered(s: seq<real>)
    ensures IsSorted(Sorted(s))
  {
    if s != [] {
      SortedIsOrdered(s[..|s| - 1]);
      InsortKeepsOrder(Sorted(s[..|s| - 1]), s[|s| - 1]);
    }
  }

  lemma {:induction false} SortedIsPermutation(s: seq<real>)
    ensures multiset(Sorted(s)) == multiset(s)
  {
    if s != [] {
      SortedIsPermutation(s[..|s| - 1]);
      InsortAddsOne(Sorted(s[..|s| - 1]), s[|s| - 1]);
      assert s == s[..|s| - 1] + [s[|s| - 1]];
    }
  }

  lemma SortedLength(s: seq<real>)
    ensures |Sorted(s)| == |s|
  {
    SortedIsPermutation(s);
    assert |multiset(Sorted(s))| == |Sorted(s)|;
  }

  lemma LargestOfMultiset(s: seq<real>, y: real)
    requires IsSorted(s) && y in multiset(s)
    ensures s != [] && y <= s[|s| - 1]
  {
  }

  lemma MultisetOfPrefix(s: seq<real>)
    requires s != []
    ensures multiset(s[..|s| - 1]) == multiset(s) - multiset{s[|s| - 1]}
    ensures s[|s| - 1] in multiset(s)
  {
    assert s == s[..|s| - 1] + [s[|s| - 1]];
  }

  lemma SameLargest(a: seq<real>, b: seq<real>)
    requires IsSorted(a) && IsSorted(b) && multiset(a) == multiset(b) && a != []
    ensures b != [] && a[|a| - 1] == b[|b| - 1]
    ensures multiset(a[..|a| - 1]) == multiset(b[..|b| - 1])
  {
    MultisetOfPrefix(a);
    LargestOfMultiset(b, a[|a| - 1]);
    MultisetOfPrefix(b);
    LargestOfMultiset(a, b[|b| - 1]);
  }

  /** A multiset has one sorted form. */
  lemma {:induction false} SortedFormIsUnique(a: seq<real>, b: seq<real>)
    requires IsSorted(a) && IsSorted(b) && multiset(a) == multiset(b)
    ensures a == b
    decreases |a|
  {
    if a != [] {
      SameLargest(a, b);
      SortedFormIsUnique(a[..|a| - 1], b[..|b| - 1]);
      assert a == a[..|a| - 1] + [a[|a| - 1]] && b == b[..|b| - 1] + [b[|b| - 1]];
    } else if b != [] {
      SameLargest(b, a);
    }
  }

  function Delete(s: seq<real>, i: nat): seq<real>
    requires i < |s|
  {
    s[..i] + s[i + 1..]
  }

  /** Deleting any one element keeps the rest sorted. */
  lemma {:induction false} DeleteKeepsOrder(s: seq<real>, i: nat)
    requires IsSorted(s) && i < |s|
    ensures IsSorted(Delete(s, i))
    decreases |s|
  {
    var r, init := Delete(s, i), s[..|s| - 1];
    if i == |s| - 1 {
      assert r == init;
    } else {
      DeleteKeepsOrder(init, i);
      assert r[..|r| - 1] == Delete(init, i);
      if |r| > 1 {
        LastIsLargest(s, if i == |s| - 2 then |s| - 3 else |s| - 2);
      }
    }
  }

  lemma DeleteRemovesOne(s: seq<real>, i: nat)
    requires i < |s|
    ensures multiset(Delete(s, i)) == multiset(s) - multiset{s[i]}
  {
    assert s == s[..i] + [s[i]] + s[i + 1..];
  }

  /** Sliding a sorted window: insert the newcomer, delete the one that leaves. */
  lemma SortedSlides(w: seq<real>, x: real)
    requires w != []
    ensures w[0] in Insort(Sorted(w), x)
    ensures Delete(Insort(Sorted(w), x), IndexOf(Insort(Sorted(w), x), w[0])) == Sorted((w + [x])[1..])
  {
    var s, next := Insort(Sorted(w), x), (w + [x])[1..];
    InsortHolds(w, x);
    var i := IndexOf(s, w[0]);
    DeleteKeepsOrder(s, i);
    DeleteRemovesOne(s, i);
    SortedIsOrdered(next);
    SortedIsPermutation(next);
    WindowMultiset(w, x);
    SortedFormIsUnique(Delete(s, i), Sorted(next));
  }

  lemma WindowMultiset(w: seq<real>, x: real)
    requires w != []
    ensures multiset((w + [x])[1..]) == multiset(w) + multiset{x} - multiset{w[0]}
  {
    assert w == [w[0]] + w[1..] && (w + [x])[1..] == w[1..] + [x];
  }

  lemma InsortHolds(w: seq<real>, x: real)
    requires w != []
    ensures IsSorted(Insort(Sorted(w), x)) && w[0] in Insort(Sorted(w), x)
    ensures multiset(Insort(Sorted(w), x)) == multiset(w) + multiset{x}
  {
    SortedIsOrdered(w);
    SortedIsPermutation(w);
    InsortKeepsOrder(Sorted(w), x);
    InsortAddsOne(Sorted(w), x);
    assert w[0] in multiset(w);
    assert w[0] in multiset(Insort(Sorted(w), x));
  }
}
