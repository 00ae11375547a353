/** The replay's target book: weights with a usable price, trimmed to as many longs as shorts. */
module RecoveryWeights {
  import opened Reals

  /** One entry of the selection's weight dictionary; symbols are their alphabetical ranks. */
  datatype Weight = Weight(symbol: nat, value: real)

  predicate Tradable(w: Weight, prices: map<nat, real>) { w.symbol in prices && prices[w.symbol] > 0.0 }

  function Tradables(ws: seq<Weight>, prices: map<nat, real>): seq<Weight> {
    if ws == [] then []
    else
      var init, last := Tradables(ws[..|ws| - 1], prices), ws[|ws| - 1];
      if Tradable(last, prices) then init + [last] else init
  }

  predicate OnSide(w: Weight, long: bool) { if long then w.value > 0.0 else w.value < 0.0 }

  /** The longs, or the shorts, in dictionary order. */
  function Legs(ws: seq<Weight>, long: bool): seq<Weight> {
    if ws == [] then []
    else
      var init, last := Legs(ws[..|ws| - 1], long), ws[|ws| - 1];
      if OnSide(last, long) then init + [last] else init
  }

  function Symbols(ws: seq<Weight>): set<nat> {
    if ws == [] then {} else Symbols(ws[..|ws| - 1]) + {ws[|ws| - 1].symbol}
  }

  /** A dictionary lists each symbol once. */
  predicate Distinct(ws: seq<Weight>) {
    ws == [] || (Distinct(ws[..|ws| - 1]) && ws[|ws| - 1].symbol !in Symbols(ws[..|ws| - 1]))
  }

  // ------------------------------------------------------------------------ sorting by size

  /** Into its place, after entries of the same size. */
  function Insert(s: seq<Weight>, w: Weight): seq<Weight> {
    if s == [] || Abs(s[|s| - 1].value) <= Abs(w.value) then s + [w]
    else Insert(s[..|s| - 1], w) + [s[|s| - 1]]
  }

  function SortBySize(ws: seq<Weight>): seq<Weight> {
    if ws == [] then [] else Insert(SortBySize(ws[..|ws| - 1]), ws[|ws| - 1])
  }

  predicate BySize(s: seq<Weight>) {
    |s| < 2 || (BySize(s[..|s| - 1]) && Abs(s[|s| - 2].value) <= Abs(s[|s| - 1].value))
  }

  lemma {:induction false} InsertSorts(s: seq<Weight>, w: Weight)
    requires BySize(s)
    ensures |Insert(s, w)| == |s| + 1 && BySize(Insert(s, w))
    ensures var top := Abs(Insert(s, w)[|s|].value);
      top == if s == [] then Abs(w.value) else Max(Abs(s[|s| - 1].value), Abs(w.value))
    decreases |s|
  {
    if s == [] || Abs(s[|s| - 1].value) <= Abs(w.value) {
      assert Insert(s, w)[..|s|] == s;
    } else {
      InsertSorts(s[..|s| - 1], w);
      assert Insert(s, w)[..|s|] == Insert(s[..|s| - 1], w);
    }
  }

  lemma {:induction false} InsertHasAll(s: seq<Weight>, w: Weight)
    ensures multiset(Insert(s, w)) == multiset(s) + multiset{w}
    decreases |s|
  {
    if s == [] || Abs(s[|s| - 1].value) <= Abs(w.value) {
    } else {
      InsertHasAll(s[..|s| - 1], w);
      assert s == s[..|s| - 1] + [s[|s| - 1]];
    }
  }

  lemma {:induction false} SortIsOrdered(ws: seq<Weight>)
    ensures BySize(SortBySize(ws))
    decreases |ws|
  {
    if ws != [] {
      SortIsOrdered(ws[..|ws| - 1]);
      InsertSorts(SortBySize(ws[..|ws| - 1]), ws[|ws| - 1]);
    }
  }

  lemma {:induction false} SortHasAll(ws: seq<Weight>)
    ensures multiset(SortBySize(ws)) == multiset(ws)
    decreases |ws|
  {
    if ws != [] {
      hide Insert;
      SortHasAll(ws[..|ws| - 1]);
      InsertHasAll(SortBySize(ws[..|ws| - 1]), ws[|ws| - 1]);
      assert ws == ws[..|ws| - 1] + [ws[|ws| - 1]];
    }
  }

  /** The sort is a sort: in order of size, and with exactly the given entries. */
  lemma SortSorts(ws: seq<Weight>)
    ensures BySize(SortBySize(ws)) && multiset(SortBySize(ws)) == multiset(ws)
  {
    SortIsOrdered(ws);
    SortHasAll(ws);
  }

  lemma {:induction false} SizeRises(s: seq<Weight>, i: nat, j: nat)
    requires BySize(s) && i <= j < |s|
    ensures Abs(s[i].value) <= Abs(s[j].value)
    decreases |s|
  {
    if i < j {
      if j < |s| - 1 {
        SizeRises(s[..|s| - 1], i, j);
      } else {
        SizeRises(s[..|s| - 1], i, j - 1);
      }
    }
  }

  // ---------------------------------------------------------------------------- the trimming

  /** The entries whose symbol was not dropped. */
  function Without(ws: seq<Weight>, dropped: set<nat>): seq<Weight> {
    if ws == [] then []
    else
      var init, last := Without(ws[..|ws| - 1], dropped), ws[|ws| - 1];
      if last.symbol in dropped then init else init + [last]
  }

  /** The smallest legs of a side, down to the target count. */
  function Smallest(ws: seq<Weight>, long: bool, target: nat): seq<Weight> {
    var legs := Legs(ws, long);
    SortSorts(legs);
    assert |SortBySize(legs)| == |multiset(SortBySize(legs))|;
    if target <= |legs| then SortBySize(legs)[..|legs| - target] else []
  }

  function BalancedWeights(ws: seq<Weight>, prices: map<nat, real>): seq<Weight> {
    var kept := Tradables(ws, prices);
    var target := LegTarget(kept);
    if target == 0 then kept
    else Without(kept, Symbols(Smallest(kept, true, target)) + Symbols(Smallest(kept, false, target)))
  }

  /** The smaller of the two leg counts. */
  function LegTarget(ws: seq<Weight>): nat {
    if |Legs(ws, true)| <= |Legs(ws, false)| then |Legs(ws, true)| else |Legs(ws, false)|
  }

  // ------------------------------------------------------------------------------ its result

  lemma {:induction false} SymbolOf(ws: seq<Weight>, w: Weight)
    requires w in ws
    ensures w.symbol in Symbols(ws)
    decreases |ws|
  {
    if w != ws[|ws| - 1] {
      SymbolOf(ws[..|ws| - 1], w);
    }
  }

  lemma {:induction false} SymbolHasEntry(ws: seq<Weight>, s: nat) returns (w: Weight)
    requires s in Symbols(ws)
    ensures w in ws && w.symbol == s
    decreases |ws|
  {
    if ws[|ws| - 1].symbol == s {
      w := ws[|ws| - 1];
    } else {
      w := SymbolHasEntry(ws[..|ws| - 1], s);
    }
  }

  /** In a dictionary a symbol names one entry. */
  lemma {:induction false} OneEntry(ws: seq<Weight>, v: Weight, w: Weight)
    requires Distinct(ws) && v in ws && w in ws && v.symbol == w.symbol
    ensures v == w
    decreases |ws|
  {
    var init := ws[..|ws| - 1];
    if v in init && w in init {
      OneEntry(init, v, w);
    } else if v in init {
      SymbolOf(init, v);
    } else if w in init {
      SymbolOf(init, w);
    }
  }

  lemma {:induction false} DistinctCount(ws: seq<Weight>)
    requires Distinct(ws)
    ensures |Symbols(ws)| == |ws|
    decreases |ws|
  {
    if ws != [] {
      DistinctCount(ws[..|ws| - 1]);
    }
  }

  lemma {:induction false} InWithout(ws: seq<Weight>, dropped: set<nat>, w: Weight)
    ensures w in Without(ws, dropped) <==> w in ws && w.symbol !in dropped
    decreases |ws|
  {
    if ws != [] {
      InWithout(ws[..|ws| - 1], dropped, w);
      assert w in ws <==> w in ws[..|ws| - 1] || w == ws[|ws| - 1];
    }
  }

  lemma {:induction false} InLegs(ws: seq<Weight>, long: bool, w: Weight)
    ensures w in Legs(ws, long) <==> w in ws && OnSide(w, long)
    decreases |ws|
  {
    if ws != [] {
      InLegs(ws[..|ws| - 1], long, w);
      assert w in ws <==> w in ws[..|ws| - 1] || w == ws[|ws| - 1];
    }
  }

  lemma {:induction false} InTradables(ws: seq<Weight>, prices: map<nat, real>, w: Weight)
    ensures w in Tradables(ws, prices) <==> w in ws && Tradable(w, prices)
    decreases |ws|
  {
    if ws != [] {
      InTradables(ws[..|ws| - 1], prices, w);
      assert w in ws <==> w in ws[..|ws| - 1] || w == ws[|ws| - 1];
    }
  }

  lemma {:induction false} TradablesDistinct(ws: seq<Weight>, prices: map<nat, real>)
    requires Distinct(ws)
    ensures Distinct(Tradables(ws, prices)) && Symbols(Tradables(ws, prices)) <= Symbols(ws)
    decreases |ws|
  {
    if ws != [] {
      TradablesDistinct(ws[..|ws| - 1], prices);
      var init, last := Tradables(ws[..|ws| - 1], prices), ws[|ws| - 1];
      assert (init + [last])[..|init|] == init;
    }
  }

  lemma {:induction false} LegsDistinct(ws: seq<Weight>, long: bool)
    requires Distinct(ws)
    ensures Distinct(Legs(ws, long)) && Symbols(Legs(ws, long)) <= Symbols(ws)
    decreases |ws|
  {
    if ws != [] {
      LegsDistinct(ws[..|ws| - 1], long);
      var init, last := Legs(ws[..|ws| - 1], long), ws[|ws| - 1];
      assert (init + [last])[..|init|] == init;
    }
  }

  lemma AppendDistinct(init: seq<Weight>, w: Weight)
    ensures Symbols(init + [w]) == Symbols(init) + {w.symbol}
    ensures Distinct(init + [w]) <==> Distinct(init) && w.symbol !in Symbols(init)
  {
  }

  lemma {:induction false} SymbolsOfWithout(ws: seq<Weight>, dropped: set<nat>)
    ensures Symbols(Without(ws, dropped)) == Symbols(ws) - dropped
    decreases |ws|
  {
    if ws != [] {
      SymbolsOfWithout(ws[..|ws| - 1], dropped);
      AppendDistinct(Without(ws[..|ws| - 1], dropped), ws[|ws| - 1]);
    }
  }

  lemma {:induction false} WithoutDistinct(ws: seq<Weight>, dropped: set<nat>)
    requires Distinct(ws)
    ensures Distinct(Without(ws, dropped))
    decreases |ws|
  {
    if ws != [] {
      var init, last := ws[..|ws| - 1], ws[|ws| - 1];
      WithoutDistinct(init, dropped);
      SymbolsOfWithout(init, dropped);
      AppendDistinct(Without(init, dropped), last);
    }
  }

  /** Dropping symbols and picking a side commute. */
  lemma {:induction false} LegsOfWithout(ws: seq<Weight>, dropped: set<nat>, long: bool)
    ensures Legs(Without(ws, dropped), long) == Without(Legs(ws, long), dropped)
    decreases |ws|
  {
    if ws != [] {
      LegsOfWithout(ws[..|ws| - 1], dropped, long);
      var init, legs, last := Without(ws[..|ws| - 1], dropped), Legs(ws[..|ws| - 1], long), ws[|ws| - 1];
      assert (init + [last])[..|init|] == init;
      assert (legs + [last])[..|legs|] == legs;
    }
  }

  lemma {:induction false} SameEntriesSameSymbols(a: seq<Weight>, b: seq<Weight>)
    requires forall w :: w in a ==> w in b
    ensures Symbols(a) <= Symbols(b)
    decreases |a|
  {
    if a != [] {
      SameEntriesSameSymbols(a[..|a| - 1], b);
      SymbolOf(b, a[|a| - 1]);
    }
  }

  /** A prefix of a rearranged dictionary is a dictionary too. */
  lemma {:induction false} SortDistinct(ws: seq<Weight>)
    requires Distinct(ws)
    ensures Distinct(SortBySize(ws)) && Symbols(SortBySize(ws)) == Symbols(ws)
    decreases |ws|
  {
    if ws != [] {
      SortDistinct(ws[..|ws| - 1]);
      InsertDistinct(SortBySize(ws[..|ws| - 1]), ws[|ws| - 1]);
    }
  }

  lemma {:induction false} InsertDistinct(s: seq<Weight>, w: Weight)
    requires Distinct(s) && w.symbol !in Symbols(s)
    ensures Distinct(Insert(s, w)) && Symbols(Insert(s, w)) == Symbols(s) + {w.symbol}
    decreases |s|
  {
    if s == [] || Abs(s[|s| - 1].value) <= Abs(w.value) {
      assert (s + [w])[..|s|] == s;
    } else {
      InsertDistinct(s[..|s| - 1], w);
      var placed := Insert(s[..|s| - 1], w);
      assert (placed + [s[|s| - 1]])[..|placed|] == placed;
    }
  }

  lemma {:induction false} PrefixDistinct(s: seq<Weight>, n: nat)
    requires Distinct(s) && n <= |s|
    ensures Distinct(s[..n]) && Symbols(s[..n]) <= Symbols(s)
    decreases |s|
  {
    if n < |s| {
      PrefixDistinct(s[..|s| - 1], n);
      assert s[..|s| - 1][..n] == s[..n];
    } else {
      assert s[..n] == s;
    }
  }

  /** What is dropped from a side: as many legs as exceed the target, all of that side. */
  lemma SmallestAreLegs(ws: seq<Weight>, long: bool, target: nat)
    requires Distinct(ws) && target <= |Legs(ws, long)|
    ensures Distinct(Smallest(ws, long, target))
    ensures Symbols(Smallest(ws, long, target)) <= Symbols(Legs(ws, long))
    ensures |Symbols(Smallest(ws, long, target))| == |Legs(ws, long)| - target
  {
    LegsDistinct(ws, long);
    SortSorts(Legs(ws, long));
    SortDistinct(Legs(ws, long));
    assert |SortBySize(Legs(ws, long))| == |multiset(SortBySize(Legs(ws, long)))|;
    PrefixDistinct(SortBySize(Legs(ws, long)), |Legs(ws, long)| - target);
    DistinctCount(Smallest(ws, long, target));
  }

  /** No symbol is on both sides. */
  lemma SidesAreApart(ws: seq<Weight>)
    requires Distinct(ws)
    ensures Symbols(Legs(ws, true)) !! Symbols(Legs(ws, false))
  {
    forall s | s in Symbols(Legs(ws, true)) && s in Symbols(Legs(ws, false)) ensures false {
      var v := SymbolHasEntry(Legs(ws, true), s);
      var w := SymbolHasEntry(Legs(ws, false), s);
      InLegs(ws, true, v);
      InLegs(ws, false, w);
      OneEntry(ws, v, w);
    }
  }

  lemma SubsetCount(all: set<nat>, own: set<nat>, other: set<nat>)
    requires own <= all && all !! other
    ensures |all - (own + other)| == |all| - |own|
  {
    assert all - (own + other) == all - own;
    assert all == (all - own) + own;
  }

  /** Dropping some of a side's symbols, and any of others', shortens that side by as many. */
  lemma SideShrinks(kept: seq<Weight>, long: bool, own: set<nat>, other: set<nat>)
    requires Distinct(kept)
    requires own <= Symbols(Legs(kept, long)) && Symbols(Legs(kept, long)) !! other
    ensures |Legs(Without(kept, own + other), long)| == |Legs(kept, long)| - |own|
  {
    var legs := Legs(kept, long);
    LegsOfWithout(kept, own + other, long);
    LegsDistinct(kept, long);
    WithoutDistinct(legs, own + other);
    SymbolsOfWithout(legs, own + other);
    DistinctCount(legs);
    DistinctCount(Without(legs, own + other));
    SubsetCount(Symbols(legs), own, other);
  }

  /** After trimming, each side holds exactly the target count. */
  lemma TrimmedSides(kept: seq<Weight>)
    requires Distinct(kept)
    ensures var trimmed := Without(kept, Symbols(Smallest(kept, true, LegTarget(kept))) +
                                         Symbols(Smallest(kept, false, LegTarget(kept))));
      |Legs(trimmed, true)| == |Legs(trimmed, false)| == LegTarget(kept)
  {
    hide Smallest, Legs, Without, Symbols, Distinct;
    var target := LegTarget(kept);
    var longs, shorts := Symbols(Smallest(kept, true, target)), Symbols(Smallest(kept, false, target));
    SmallestAreLegs(kept, true, target);
    SmallestAreLegs(kept, false, target);
    SidesAreApart(kept);
    SideShrinks(kept, true, longs, shorts);
    SideShrinks(kept, false, shorts, longs);
    assert shorts + longs == longs + shorts;
  }

  /** A trimmed book has as many longs as shorts, as many as the smaller side had; a one-sided book,
      or an empty one, is left as it is. */
  lemma BookIsBalanced(ws: seq<Weight>, prices: map<nat, real>)
    requires Distinct(ws)
    ensures var target := LegTarget(Tradables(ws, prices));
      if target == 0 then BalancedWeights(ws, prices) == Tradables(ws, prices)
      else |Legs(BalancedWeights(ws, prices), true)| == |Legs(BalancedWeights(ws, prices), false)| == target
  {
    var kept := Tradables(ws, prices);
    TradablesDistinct(ws, prices);
    if LegTarget(kept) > 0 {
      TrimmedSides(kept);
    }
  }

  /** Nothing is invented: every kept entry was selected and has a positive price; and the
      trimmed book is again a dictionary. */
  lemma BookIsTradable(ws: seq<Weight>, prices: map<nat, real>, w: Weight)
    requires Distinct(ws)
    ensures Distinct(BalancedWeights(ws, prices))
    ensures w in BalancedWeights(ws, prices) ==> w in ws && Tradable(w, prices)
  {
    var kept := Tradables(ws, prices);
    TradablesDistinct(ws, prices);
    InTradables(ws, prices, w);
    var dropped := Symbols(Smallest(kept, true, LegTarget(kept))) + Symbols(Smallest(kept, false, LegTarget(kept)));
    WithoutDistinct(kept, dropped);
    InWithout(kept, dropped, w);
  }

  /** A tradable entry that is gone was a leg no larger than any that stayed on its side;
      in particular zero weights always stay. */
  lemma DroppedAreSmallest(ws: seq<Weight>, prices: map<nat, real>, gone: Weight, stays: Weight)
    requires Distinct(ws) && gone in Tradables(ws, prices) && gone !in BalancedWeights(ws, prices)
    ensures gone.value != 0.0
    ensures stays in BalancedWeights(ws, prices) && OnSide(stays, gone.value > 0.0) ==>
      Abs(gone.value) <= Abs(stays.value)
  {
    var kept := Tradables(ws, prices);
    var target := LegTarget(kept);
    TradablesDistinct(ws, prices);
    assert target > 0;
    var dropped := Symbols(Smallest(kept, true, target)) + Symbols(Smallest(kept, false, target));
    InWithout(kept, dropped, gone);
    InWithout(kept, dropped, stays);
    var long := gone.symbol in Symbols(Smallest(kept, true, target));
    var out := SymbolHasEntry(Smallest(kept, long, target), gone.symbol);
    DroppedIsLeg(kept, long, target, out);
    OneEntry(kept, out, gone);
    if stays in BalancedWeights(ws, prices) && OnSide(stays, gone.value > 0.0) {
      SmallestBeforeRest(kept, long, target, gone, stays);
    }
  }

  lemma DroppedIsLeg(kept: seq<Weight>, long: bool, target: nat, out: Weight)
    requires target <= |Legs(kept, long)| && out in Smallest(kept, long, target)
    ensures out in kept && OnSide(out, long)
  {
    var legs := Legs(kept, long);
    SortSorts(legs);
    assert out in multiset(SortBySize(legs));
    InLegs(kept, long, out);
  }

  /** A leg that sorts among the smallest is no larger than one that does not. */
  lemma SmallestBeforeRest(kept: seq<Weight>, long: bool, target: nat, gone: Weight, stays: Weight)
    requires Distinct(kept) && target <= |Legs(kept, long)| && gone in Smallest(kept, long, target)
    requires stays in kept && OnSide(stays, long) && stays.symbol !in Symbols(Smallest(kept, long, target))
    ensures Abs(gone.value) <= Abs(stays.value)
  {
    var legs := Legs(kept, long);
    var sorted, n := SortBySize(legs), |legs| - target;
    SortSorts(legs);
    InLegs(kept, long, stays);
    assert stays in multiset(sorted);
    var i :| 0 <= i < n && sorted[i] == gone;
    var j :| 0 <= j < |sorted| && sorted[j] == stays;
    if j < n {
      assert stays == sorted[..n][j];
      SymbolOf(sorted[..n], stays);
    }
    SizeRises(sorted, i, j);
  }
}
