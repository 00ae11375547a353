/** Which entries of a selection a recovery point trades, told from the dictionary and the prices alone. */
module RecoveryTrim {
  import opened Reals
  import opened RecoveryWeights

  predicate Usable(w: Weight, prices: map<nat, real>) { w.symbol in prices && prices[w.symbol] > 0.0 }

  predicate IsLong(w: Weight, long: bool) { if long then w.value > 0.0 else w.value < 0.0 }

  /** The places of a side's entries. */
  function SideOf(ws: seq<Weight>, long: bool): set<nat> { set i: nat | i < |ws| && IsLong(ws[i], long) }

  function UsableSide(ws: seq<Weight>, prices: map<nat, real>, long: bool): set<nat> {
    set i: nat | i < |ws| && Usable(ws[i], prices) && IsLong(ws[i], long)
  }

  lemma {:induction false} LegsCount(ws: seq<Weight>, long: bool)
    ensures |Legs(ws, long)| == |SideOf(ws, long)|
    decreases |ws|
  {
    if ws == [] {
      assert SideOf(ws, long) == {};
    } else {
      var init, n := ws[..|ws| - 1], |ws| - 1;
      LegsCount(init, long);
      assert SideOf(ws, long) == SideOf(init, long) + if IsLong(ws[n], long) then {n as nat} else {};
    }
  }

  lemma OneMoreUsable(ws: seq<Weight>, prices: map<nat, real>, long: bool)
    requires ws != []
    ensures var init, n := ws[..|ws| - 1], |ws| - 1;
      |UsableSide(ws, prices, long)| ==
      |UsableSide(init, prices, long)| + if Usable(ws[n], prices) && IsLong(ws[n], long) then 1 else 0
  {
    var init, n := ws[..|ws| - 1], |ws| - 1;
    var before, after := UsableSide(init, prices, long), UsableSide(ws, prices, long);
    hide Usable, IsLong;
    assert forall i: nat :: i < n ==> init[i] == ws[i];
    forall i: nat ensures i in after <==> i in before || (i == n && Usable(ws[n], prices) && IsLong(ws[n], long)) {
    }
    hide UsableSide;
    if Usable(ws[n], prices) && IsLong(ws[n], long) {
      assert n !in before;
      assert after == before + {n};
    } else {
      assert after == before;
    }
  }

  lemma {:induction false} UsableLegsCount(ws: seq<Weight>, prices: map<nat, real>, long: bool)
    ensures |Legs(Tradables(ws, prices), long)| == |UsableSide(ws, prices, long)|
    decreases |ws|
  {
    if ws == [] {
      assert UsableSide(ws, prices, long) == {};
    } else {
      var init, n := ws[..|ws| - 1], |ws| - 1;
      UsableLegsCount(init, prices, long);
      OneMoreUsable(ws, prices, long);
      var before := Tradables(init, prices);
      assert (before + [ws[n]])[..|before|] == before;
      hide UsableSide;
    }
  }

  /** The smaller of the two sides' usable entries. */
  function Smaller(ws: seq<Weight>, prices: map<nat, real>): nat {
    var longs, shorts := |UsableSide(ws, prices, true)|, |UsableSide(ws, prices, false)|;
    if longs < shorts then longs else shorts
  }

  /** Every entry that is kept was selected and has a positive price.  Without longs or without shorts all of those
      are kept; otherwise as many longs as shorts, as many as the smaller side has. */
  lemma TrimMeans(ws: seq<Weight>, prices: map<nat, real>)
    requires Distinct(ws)
    ensures var kept := BalancedWeights(ws, prices);
      && (forall w :: w in kept ==> w in ws && Usable(w, prices))
      && (if Smaller(ws, prices) == 0 then forall w :: w in ws && Usable(w, prices) ==> w in kept
          else |SideOf(kept, true)| == |SideOf(kept, false)| == Smaller(ws, prices))
  {
    var kept := BalancedWeights(ws, prices);
    UsableLegsCount(ws, prices, true);
    UsableLegsCount(ws, prices, false);
    LegsCount(kept, true);
    LegsCount(kept, false);
    BookIsBalanced(ws, prices);
    hide BalancedWeights, Legs, Distinct, Tradables;
    forall w ensures w in kept ==> w in ws && Usable(w, prices) {
      BookIsTradable(ws, prices, w);
    }
    forall w ensures w in Tradables(ws, prices) <==> w in ws && Usable(w, prices) {
      InTradables(ws, prices, w);
    }
  }

  // ------------------------------------------------------------------------- which are dropped

  /** Smaller, or as large and listed earlier. */
  predicate Precedes(ws: seq<Weight>, i: nat, k: nat)
    requires i < |ws| && k < |ws|
  {
    var x, y := if ws[i].value < 0.0 then -ws[i].value else ws[i].value,
                if ws[k].value < 0.0 then -ws[k].value else ws[k].value;
    x < y || (x == y && i < k)
  }

  /** The sorted entries stand in the order of their places. */
  ghost predicate Placed(ws: seq<Weight>, s: seq<Weight>, at: seq<nat>) {
    && |at| == |s|
    && (forall i :: 0 <= i < |s| ==> at[i] < |ws| && ws[at[i]] == s[i])
    && (forall i, j :: 0 <= i < j < |s| ==> at[i] < |ws| && at[j] < |ws| && Precedes(ws, at[i], at[j]))
  }

  lemma PlacedInMore(ws: seq<Weight>, w: Weight, s: seq<Weight>, at: seq<nat>)
    requires Placed(ws, s, at)
    ensures Placed(ws + [w], s, at)
  {
    var more := ws + [w];
    assert forall i :: 0 <= i < |ws| ==> more[i] == ws[i];
    forall i, j | 0 <= i < j < |s| ensures Precedes(more, at[i], at[j]) {
      assert Precedes(ws, at[i], at[j]);
    }
  }

  lemma {:induction false} InsertPlaces(ws: seq<Weight>, s: seq<Weight>, at: seq<nat>, n: nat) returns (at': seq<nat>)
    requires Placed(ws, s, at) && n < |ws| && forall i :: 0 <= i < |at| ==> at[i] < n
    ensures Placed(ws, Insert(s, ws[n]), at')
    ensures forall x :: x in at' <==> x in at || x == n
    decreases |s|
  {
    var w := ws[n];
    if s == [] || Abs(s[|s| - 1].value) <= Abs(w.value) {
      at' := at + [n];
      AppendPlaces(ws, s, at, n);
    } else {
      var init, last := s[..|s| - 1], |s| - 1;
      var inner := InsertPlaces(ws, init, at[..last], n);
      at' := inner + [at[last]];
      assert at == at[..last] + [at[last]];
      forall i | 0 <= i < |inner| ensures inner[i] < |ws| && Precedes(ws, inner[i], at[last]) {
        assert inner[i] in inner;
        if inner[i] != n {
          var j :| 0 <= j < last && at[j] == inner[i];
          assert Precedes(ws, at[j], at[last]);
        }
      }
      PlacesAppend(ws, Insert(init, w), inner, s[last], at[last]);
    }
  }

  lemma AppendPlaces(ws: seq<Weight>, s: seq<Weight>, at: seq<nat>, n: nat)
    requires Placed(ws, s, at) && n < |ws| && forall i :: 0 <= i < |at| ==> at[i] < n
    requires s != [] ==> Abs(s[|s| - 1].value) <= Abs(ws[n].value)
    ensures Placed(ws, s + [ws[n]], at + [n])
  {
    forall i | 0 <= i < |at| ensures Precedes(ws, at[i], n) {
      if i < |s| - 1 {
        assert Precedes(ws, at[i], at[|s| - 1]);
      }
    }
    PlacesAppend(ws, s, at, ws[n], n);
  }

  lemma PlacesAppend(ws: seq<Weight>, s: seq<Weight>, at: seq<nat>, w: Weight, n: nat)
    requires Placed(ws, s, at) && n < |ws| && ws[n] == w
    requires forall i :: 0 <= i < |at| ==> at[i] < |ws| && Precedes(ws, at[i], n)
    ensures Placed(ws, s + [w], at + [n])
  {
    hide Precedes;
  }

  lemma {:induction false} LegsArePlaced(ws: seq<Weight>, long: bool) returns (at: seq<nat>)
    ensures Placed(ws, SortBySize(Legs(ws, long)), at)
    decreases |ws|
  {
    if ws == [] {
      at := [];
    } else {
      hide Precedes, Insert, Placed;
      var init, n := ws[..|ws| - 1], |ws| - 1;
      at := LegsArePlaced(init, long);
      assert ws == init + [ws[n]];
      PlacedInMore(init, ws[n], SortBySize(Legs(init, long)), at);
      if OnSide(ws[n], long) {
        var legs := Legs(init, long);
        assert (legs + [ws[n]])[..|legs|] == legs;
        BelowLength(init, SortBySize(legs), at);
        at := InsertPlaces(ws, SortBySize(legs), at, n);
      }
    }
  }

  lemma BelowLength(ws: seq<Weight>, s: seq<Weight>, at: seq<nat>)
    requires Placed(ws, s, at)
    ensures forall i :: 0 <= i < |at| ==> at[i] < |ws|
  {
  }

  lemma {:induction false} DistinctPlaces(ws: seq<Weight>, i: nat, k: nat)
    requires Distinct(ws) && i < |ws| && k < |ws| && ws[i].symbol == ws[k].symbol
    ensures i == k
    decreases |ws|
  {
    var init, n := ws[..|ws| - 1], |ws| - 1;
    if i < n && k < n {
      DistinctPlaces(init, i, k);
    } else if i != k {
      SymbolOf(init, init[if i < n then i else k]);
    }
  }

  /** A usable entry that is dropped is on a side, and precedes every one that is kept there: it is smaller, or as
      large and listed earlier.  Zero weights are never dropped. */
  lemma DroppedPrecede(ws: seq<Weight>, prices: map<nat, real>, i: nat, k: nat)
    requires Distinct(ws) && i < |ws| && k < |ws| && Usable(ws[i], prices) && ws[i] !in BalancedWeights(ws, prices)
    ensures ws[i].value != 0.0
    ensures ws[k] in BalancedWeights(ws, prices) && IsLong(ws[k], ws[i].value > 0.0) ==> Precedes(ws, i, k)
  {
    InTradables(ws, prices, ws[i]);
    DroppedAreSmallest(ws, prices, ws[i], ws[k]);
    if ws[k] in BalancedWeights(ws, prices) && IsLong(ws[k], ws[i].value > 0.0) {
      var tradable := Tradables(ws, prices);
      var at := TradablesPlaces(ws, prices);
      BookIsTradable(ws, prices, ws[k]);
      InTradables(ws, prices, ws[k]);
      var a :| 0 <= a < |tradable| && tradable[a] == ws[i];
      var b :| 0 <= b < |tradable| && tradable[b] == ws[k];
      DistinctPlaces(ws, at[a], i);
      DistinctPlaces(ws, at[b], k);
      TradablesDistinct(ws, prices);
      TradedOrder(ws, prices, a, b);
    }
  }

  /** The usable entries keep the order of the dictionary. */
  lemma {:induction false} TradablesPlaces(ws: seq<Weight>, prices: map<nat, real>) returns (at: seq<nat>)
    ensures |at| == |Tradables(ws, prices)|
    ensures forall i :: 0 <= i < |at| ==> at[i] < |ws| && ws[at[i]] == Tradables(ws, prices)[i]
    ensures forall i, j :: 0 <= i < j < |at| ==> at[i] < at[j]
    decreases |ws|
  {
    if ws == [] {
      at := [];
    } else {
      var init, n := ws[..|ws| - 1], |ws| - 1;
      at := TradablesPlaces(init, prices);
      if Tradable(ws[n], prices) {
        at := at + [n];
      }
    }
  }

  /** Among the usable entries, the dropped one comes first in the sorted side. */
  lemma TradedOrder(ws: seq<Weight>, prices: map<nat, real>, a: nat, b: nat)
    requires Distinct(Tradables(ws, prices)) && a < |Tradables(ws, prices)| && b < |Tradables(ws, prices)|
    requires var kept, book := Tradables(ws, prices), BalancedWeights(ws, prices);
      kept[a] !in book && kept[b] in book && kept[a].value != 0.0 && IsLong(kept[b], kept[a].value > 0.0)
    ensures Precedes(Tradables(ws, prices), a, b)
  {
    var kept := Tradables(ws, prices);
    if LegTarget(kept) > 0 {
      DroppedIsSmallest(kept, a);
      SortedOrder(kept, a, b, kept[a].value > 0.0);
    }
  }

  /** What the trimming of a two-sided book drops. */
  function DroppedFrom(kept: seq<Weight>): set<nat> {
    Symbols(Smallest(kept, true, LegTarget(kept))) + Symbols(Smallest(kept, false, LegTarget(kept)))
  }

  lemma SortedOrder(kept: seq<Weight>, a: nat, b: nat, long: bool)
    requires Distinct(kept) && a < |kept| && b < |kept| && IsLong(kept[b], long)
    requires kept[a] in Smallest(kept, long, LegTarget(kept)) && kept[b] in Without(kept, DroppedFrom(kept))
    ensures Precedes(kept, a, b)
  {
    var legs := Legs(kept, long);
    var sorted := SortBySize(legs);
    var at := LegsArePlaced(kept, long);
    SmallestIs(kept, long);
    InSorted(kept, b, long);
    hide Precedes, Distinct, Legs, SortBySize, Without, Symbols, Smallest, LegTarget, IsLong;
    var x :| 0 <= x < |Smallest(kept, long, LegTarget(kept))| && Smallest(kept, long, LegTarget(kept))[x] == kept[a];
    assert sorted[x] == kept[a];
    var y :| 0 <= y < |sorted| && sorted[y] == kept[b];
    KeptIsLater(kept, b, long, y);
    DistinctPlaces(kept, at[x], a);
    DistinctPlaces(kept, at[y], b);
  }

  lemma InSorted(kept: seq<Weight>, b: nat, long: bool)
    requires b < |kept| && IsLong(kept[b], long)
    ensures kept[b] in SortBySize(Legs(kept, long))
  {
    var legs := Legs(kept, long);
    SortSorts(legs);
    InLegs(kept, long, kept[b]);
    assert kept[b] in multiset(SortBySize(legs));
  }

  lemma SortedLength(legs: seq<Weight>)
    ensures |SortBySize(legs)| == |legs|
  {
    SortSorts(legs);
    assert |SortBySize(legs)| == |multiset(SortBySize(legs))|;
  }

  lemma DroppedIsSmallest(kept: seq<Weight>, a: nat)
    requires Distinct(kept) && a < |kept| && kept[a].value != 0.0 && kept[a] !in Without(kept, DroppedFrom(kept))
    ensures kept[a] in Smallest(kept, kept[a].value > 0.0, LegTarget(kept))
  {
    hide Smallest, Distinct, Legs;
    var target := LegTarget(kept);
    InWithout(kept, DroppedFrom(kept), kept[a]);
    var side := kept[a].symbol in Symbols(Smallest(kept, true, target));
    var out := SymbolHasEntry(Smallest(kept, side, target), kept[a].symbol);
    DroppedIsLeg(kept, side, target, out);
    OneEntry(kept, out, kept[a]);
  }

  lemma KeptIsLater(kept: seq<Weight>, b: nat, long: bool, y: nat)
    requires b < |kept| && kept[b] in Without(kept, DroppedFrom(kept))
    requires y < |SortBySize(Legs(kept, long))| && SortBySize(Legs(kept, long))[y] == kept[b]
    ensures y >= |Legs(kept, long)| - LegTarget(kept)
  {
    SmallestIs(kept, long);
    hide Legs, SortBySize, Without, Symbols, Smallest;
    InWithout(kept, DroppedFrom(kept), kept[b]);
    var smallest := Smallest(kept, long, LegTarget(kept));
    if y < |Legs(kept, long)| - LegTarget(kept) {
      assert smallest[y] == kept[b];
      SymbolOf(smallest, kept[b]);
    }
  }

  lemma SmallestIs(kept: seq<Weight>, long: bool)
    ensures var legs, target := Legs(kept, long), LegTarget(kept);
      target <= |legs| == |SortBySize(legs)| && Smallest(kept, long, target) == SortBySize(legs)[..|legs| - target]
  {
    SortedLength(Legs(kept, long));
  }
}
