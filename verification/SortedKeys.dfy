/** The keys of a dictionary in ascending order, as `sorted(d.items())` visits them. */
module SortedKeys {
  lemma {:induction false} LargestExists(s: set<nat>)
    requires s != {}
    ensures exists x :: x in s && forall y :: y in s ==> y <= x
    decreases s
  {
    var z :| z in s;
    if s != {z} {
      var rest := s - {z};
      assert s == rest + {z};
      LargestExists(rest);
      var m :| m in rest && forall y :: y in rest ==> y <= m;
      var x := if z < m then m else z;
      assert x in s && forall y :: y in s ==> y <= x by {
        forall y | y in s ensures y <= x { assert y == z || y in rest; }
      }
    }
  }

  function Largest(s: set<nat>): (x: nat)
    requires s != {}
    ensures x in s && forall y :: y in s ==> y <= x
  {
    LargestExists(s);
    var x :| x in s && forall y :: y in s ==> y <= x;
    x
  }

  function Sorted(s: set<nat>): seq<nat>
    decreases s
  {
    if s == {} then [] else Sorted(s - {Largest(s)}) + [Largest(s)]
  }

  /** Each element is larger than all before it. */
  predicate Ascending(r: seq<nat>) {
    r == [] || (Ascending(r[..|r| - 1]) && AllBelow(r[..|r| - 1], r[|r| - 1]))
  }

  predicate AllBelow(r: seq<nat>, m: nat) { forall x :: x in r ==> x < m }

  lemma {:induction false} SortedHasAll(s: set<nat>)
    ensures forall x :: x in Sorted(s) <==> x in s
    decreases s
  {
    if s != {} {
      var m := Largest(s);
      SortedHasAll(s - {m});
      assert Sorted(s) == Sorted(s - {m}) + [m];
    }
  }

  lemma RestIsBelow(s: set<nat>)
    requires s != {}
    ensures AllBelow(Sorted(s - {Largest(s)}), Largest(s))
  {
  }

  lemma {:induction false} SortedIsAscending(s: set<nat>)
    ensures Ascending(Sorted(s))
    decreases s
  {
    if s != {} {
      hide AllBelow;
      var m := Largest(s);
      var init := Sorted(s - {m});
      SortedIsAscending(s - {m});
      RestIsBelow(s);
      assert (init + [m])[..|init + [m]| - 1] == init;
    }
  }
}
