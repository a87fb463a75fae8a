/**
 The simpler builder (`greedy_vrp_v1`): loads in order of their pickup's
 distance from the depot are packed, one pass, into drivers; each load is
 costed as its own depot round trip, and a new driver is opened whenever
 the next round trip would take the open driver over the cap.

 The program keeps only the ids of a driver's loads; here a driver's loads
 are kept whole while packing and turned into ids at the end, so that the
 cap can be stated about the loads themselves.
 */
module GreedyV1 {
  import opened StableSort
  import opened Vrp

  /** The loop variables: the closed drivers, the open driver's loads
      (`current_driver_loads`) and its distance (`current_driver_distance`). */
  datatype Packing = Packing(closed: seq<seq<Load>>, open: seq<Load>, acc: real)

  /** The summed round trips of a driver's loads. */
  function Trips(g: seq<Load>, d: Metric): real {
    if |g| == 0 then 0.0 else Trips(g[..|g| - 1], d) + RoundTrip(d, g[|g| - 1])
  }

  /** One iteration of the `for load in sorted_loads` loop. */
  function Place(p: Packing, l: Load, d: Metric): Packing {
    var extra := RoundTrip(d, l);
    if p.acc + extra > MaxDistance then Packing(p.closed + [p.open], [l], extra)
    else Packing(p.closed, p.open + [l], p.acc + extra)
  }

  /** The loop over the remaining `loads`. */
  function PlaceAll(p: Packing, loads: seq<Load>, d: Metric): Packing
    decreases |loads|
  {
    if |loads| == 0 then p else PlaceAll(Place(p, loads[0], d), loads[1..], d)
  }

  /** After the loop: the last driver is kept only if it holds a load. */
  function Close(p: Packing): seq<seq<Load>> {
    if |p.open| > 0 then p.closed + [p.open] else p.closed
  }

  /** The loop from no drivers over the loads in the given order. */
  function Pack(sorted: seq<Load>, d: Metric): seq<seq<Load>> {
    Close(PlaceAll(Packing([], [], 0.0), sorted, d))
  }

  /** The drivers' loads, for loads sorted by depot distance. */
  function Groups(loads: seq<Load>, d: Metric): seq<seq<Load>> {
    Pack(Sort(loads, DepotKey(d)), d)
  }

  function IdRoutes(groups: seq<seq<Load>>): (r: seq<Route>)
    ensures |r| == |groups|
    ensures forall i :: 0 <= i < |groups| ==> r[i] == Ids(groups[i])
  {
    seq(|groups|, i requires 0 <= i < |groups| => Ids(groups[i]))
  }

  /** `greedy_vrp_v1`: the routes in the order their drivers were opened. */
  function Solve(loads: seq<Load>, d: Metric): seq<Route> {
    IdRoutes(Groups(loads, d))
  }

  /* ---------------------------------------------------------------------- */
  /* Invariants of the packing loop                                          */
  /* ---------------------------------------------------------------------- */

  /** The accumulator is the open driver's summed round trips, and every
      driver with two or more loads keeps within the cap. */
  ghost predicate Packed(p: Packing, d: Metric) {
    && p.acc == Trips(p.open, d)
    && (forall i :: 0 <= i < |p.closed| && |p.closed[i]| >= 2 ==> Trips(p.closed[i], d) <= MaxDistance)
    && (|p.open| >= 2 ==> Trips(p.open, d) <= MaxDistance)
  }

  /** The open driver and every closed driver from position `k` on hold a load. */
  ghost predicate FilledFrom(p: Packing, k: nat) {
    && (forall i :: k <= i < |p.closed| ==> p.closed[i] != [])
    && p.open != []
  }

  lemma PlaceKeepsPacked(p: Packing, l: Load, d: Metric)
    requires Packed(p, d)
    ensures Packed(Place(p, l, d), d)
  {
    var q := Place(p, l, d);
    if p.acc + RoundTrip(d, l) > MaxDistance {
      assert [l][..0] == [];
      forall i | 0 <= i < |q.closed| && |q.closed[i]| >= 2
        ensures Trips(q.closed[i], d) <= MaxDistance
      {
        if i < |p.closed| {
          assert q.closed[i] == p.closed[i];
        }
      }
    } else {
      assert (p.open + [l])[..|p.open|] == p.open;
    }
  }

  lemma {:induction false} PlaceAllKeepsPacked(p: Packing, loads: seq<Load>, d: Metric)
    requires Packed(p, d)
    ensures Packed(PlaceAll(p, loads, d), d)
    decreases |loads|
  {
    if |loads| > 0 {
      PlaceKeepsPacked(p, loads[0], d);
      PlaceAllKeepsPacked(Place(p, loads[0], d), loads[1..], d);
    }
  }

  /** Packing appends each load, in order, to the open driver or a new one. */
  lemma {:induction false} PlaceAllKeepsOrder(p: Packing, loads: seq<Load>, d: Metric)
    ensures var q := PlaceAll(p, loads, d);
      Flatten(q.closed) + q.open == Flatten(p.closed) + p.open + loads
    decreases |loads|
  {
    if |loads| > 0 {
      var p' := Place(p, loads[0], d);
      PlaceAllKeepsOrder(p', loads[1..], d);
      if p'.closed != p.closed {
        FlattenAppend(p.closed, p.open);
      }
      assert loads == [loads[0]] + loads[1..];
    }
  }

  /** Closed drivers are never changed. */
  lemma {:induction false} PlaceAllKeepsClosed(p: Packing, loads: seq<Load>, d: Metric)
    ensures |PlaceAll(p, loads, d).closed| >= |p.closed|
    ensures PlaceAll(p, loads, d).closed[..|p.closed|] == p.closed
    decreases |loads|
  {
    if |loads| > 0 {
      var p' := Place(p, loads[0], d);
      PlaceAllKeepsClosed(p', loads[1..], d);
      var q := PlaceAll(p', loads[1..], d);
      assert p'.closed[..|p.closed|] == p.closed;
      assert q.closed[..|p.closed|] == q.closed[..|p'.closed|][..|p.closed|];
    }
  }

  /** Once the open driver holds a load, no empty driver is closed. */
  lemma {:induction false} PlaceAllKeepsFilled(p: Packing, loads: seq<Load>, d: Metric, k: nat)
    requires FilledFrom(p, k)
    ensures FilledFrom(PlaceAll(p, loads, d), k)
    decreases |loads|
  {
    if |loads| > 0 {
      var p' := Place(p, loads[0], d);
      assert FilledFrom(p', k);
      PlaceAllKeepsFilled(p', loads[1..], d, k);
    }
  }

  /* ---------------------------------------------------------------------- */
  /* Properties of the output                                                */
  /* ---------------------------------------------------------------------- */

  lemma {:induction false} FlattenIdRoutes(groups: seq<seq<Load>>)
    ensures Flatten(IdRoutes(groups)) == Ids(Flatten(groups))
    decreases |groups|
  {
    if |groups| > 0 {
      var n := |groups| - 1;
      FlattenIdRoutes(groups[..n]);
      assert IdRoutes(groups)[..n] == IdRoutes(groups[..n]);
      IdsAppend(Flatten(groups[..n]), groups[n]);
    }
  }

  /** Packing keeps the loads and their order. */
  lemma PackKeepsOrder(sorted: seq<Load>, d: Metric)
    ensures Flatten(Pack(sorted, d)) == sorted
  {
    var p := PlaceAll(Packing([], [], 0.0), sorted, d);
    PlaceAllKeepsOrder(Packing([], [], 0.0), sorted, d);
    assert Flatten(p.closed) + p.open == sorted;
    if |p.open| > 0 {
      FlattenAppend(p.closed, p.open);
    }
  }

  /** The routes, read one after another, are the ids of the loads in
      depot-distance order: v1 never reorders. */
  lemma Order(loads: seq<Load>, d: Metric)
    ensures Flatten(Solve(loads, d)) == Ids(Sort(loads, DepotKey(d)))
  {
    PackKeepsOrder(Sort(loads, DepotKey(d)), d);
    FlattenIdRoutes(Groups(loads, d));
  }

  /** Every route of two or more loads keeps its summed round trips within
      the cap; so a route over the cap holds a single load. */
  lemma Cap(loads: seq<Load>, d: Metric)
    ensures var g := Groups(loads, d);
      && |Solve(loads, d)| == |g|
      && forall i :: 0 <= i < |g| ==>
           && Solve(loads, d)[i] == Ids(g[i])
           && (|g[i]| >= 2 ==> Trips(g[i], d) <= MaxDistance)
  {
    var p := PlaceAll(Packing([], [], 0.0), Sort(loads, DepotKey(d)), d);
    PlaceAllKeepsPacked(Packing([], [], 0.0), Sort(loads, DepotKey(d)), d);
    var g := Groups(loads, d);
    forall i | 0 <= i < |g| && |g[i]| >= 2 ensures Trips(g[i], d) <= MaxDistance {
      if i < |p.closed| {
        assert g[i] == p.closed[i];
      }
    }
  }

  /** Packing a non-empty list: the first driver is empty exactly when the
      first load's round trip is over the cap, and no other driver is. */
  lemma PackEmptyOnlyFirst(sorted: seq<Load>, d: Metric)
    requires |sorted| > 0
    ensures var g := Pack(sorted, d);
      && |g| > 0
      && (g[0] == [] <==> RoundTrip(d, sorted[0]) > MaxDistance)
      && forall i :: 0 < i < |g| ==> g[i] != []
  {
    var p0 := Packing([], [], 0.0);
    var p1 := Place(p0, sorted[0], d);
    assert PlaceAll(p0, sorted, d) == PlaceAll(p1, sorted[1..], d);
    PlaceAllKeepsClosed(p1, sorted[1..], d);
    var p := PlaceAll(p1, sorted[1..], d);
    var g := Close(p);
    if RoundTrip(d, sorted[0]) > MaxDistance {
      assert p1.closed == [[]];
      PlaceAllKeepsFilled(p1, sorted[1..], d, 1);
      assert p.closed[0] == p.closed[..1][0] == [];
      assert g[0] == [];
    } else {
      assert p1.closed == [];
      PlaceAllKeepsFilled(p1, sorted[1..], d, 0);
      assert g[0] != [];
    }
    forall i | 0 < i < |g| ensures g[i] != [] {
      if i < |p.closed| {
        assert g[i] == p.closed[i];
      }
    }
  }

  /** A leading empty route appears exactly when the first load in
      depot-distance order has a round trip over the cap; no other route is
      empty, and with no loads there are no routes. */
  lemma LeadingEmptyRoute(loads: seq<Load>, d: Metric)
    ensures |loads| == 0 ==> Solve(loads, d) == []
    ensures |loads| > 0 ==>
      var r := Solve(loads, d);
      && |r| > 0
      && (r[0] == [] <==> RoundTrip(d, Sort(loads, DepotKey(d))[0]) > MaxDistance)
      && forall i :: 0 < i < |r| ==> r[i] != []
  {
    if |loads| > 0 {
      var g := Groups(loads, d);
      PackEmptyOnlyFirst(Sort(loads, DepotKey(d)), d);
      forall i | 0 <= i < |g| ensures Solve(loads, d)[i] == [] <==> g[i] == [] {
        assert |Ids(g[i])| == |g[i]|;
      }
    }
  }
}
