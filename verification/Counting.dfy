// Counting the elements of a sequence that have a property.
module Counting {

  function Keep<T>(xs: seq<T>, p: T -> bool): seq<T> {
    if xs == [] then []
    else Keep(xs[..|xs| - 1], p) + if p(xs[|xs| - 1]) then [xs[|xs| - 1]] else []
  }

  // The positions of the elements that have it.
  ghost function Positions<T>(xs: seq<T>, p: T -> bool): set<nat> {
    set i: nat | i < |xs| && p(xs[i])
  }

  lemma {:induction false} KeepExactly<T>(xs: seq<T>, p: T -> bool)
    ensures |Keep(xs, p)| == |Positions(xs, p)|
    ensures forall x :: x in Keep(xs, p) <==> x in xs && p(x)
  {
    if xs != [] {
      var n := |xs| - 1;
      var init := xs[..n];
      assert xs == init + [xs[n]];
      KeepExactly(init, p);
      assert Positions(xs, p) == Positions(init, p) + if p(xs[n]) then {n} else {};
    }
  }
}
