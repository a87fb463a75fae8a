/**
 The trivial builder (`driver_per_load_vrp`): one driver per load.
 */
module Baseline {
  import opened Vrp

  /** `driver_per_load_vrp`: a singleton route per load, in input order. */
  function Solve(loads: seq<Load>): seq<Route> {
    seq(|loads|, i requires 0 <= i < |loads| => [loads[i].id])
  }

  /** Each route is one load, in input order, so the routes read one after
      another are exactly the input ids. */
  lemma {:induction false} OneDriverPerLoad(loads: seq<Load>)
    ensures |Solve(loads)| == |loads|
    ensures forall i :: 0 <= i < |loads| ==> Solve(loads)[i] == [loads[i].id]
    ensures Flatten(Solve(loads)) == Ids(loads)
    decreases |loads|
  {
    if |loads| > 0 {
      var n := |loads| - 1;
      OneDriverPerLoad(loads[..n]);
      assert Solve(loads)[..n] == Solve(loads[..n]);
      assert Ids(loads) == Ids(loads[..n]) + [loads[n].id];
    }
  }
}
