/**
 The route builder the program actually runs (`greedy_vrp_v2`): loads are
 served nearest-pickup-to-depot first; after each load a one-step lookahead
 picks the pending load whose pickup is nearest the dropoff and, if the
 driver could still do it and get home with ERROR minutes to spare, serves
 it next on the same route without a depot return.

 One iteration of the `while sorted_loads` loop is `Step` on a `State`
 record holding every variable the loop reads or writes.
 */
module GreedyV2 {
  import opened StableSort
  import opened Vrp

  /** The program's ERROR: slack kept under the cap when deciding to chain. */
  const ErrorMargin: real := 10.0

  /** What the next iteration services: the head of the pending list
      (`pop_next` true), or the chain candidate at position `index` of the
      pending list, chosen by lookahead while servicing `prev`. The index
      stands for the Python object identity `list.remove` finds. */
  datatype Next = PopHead | Chain(index: nat, prev: Load)

  /** The loop variables: `sorted_loads`, `current_driver_loads`, `drivers`,
      `current_driver_distance`, `current_driver_point`, and the pair
      `pop_next`/`next_load` together with the previous `load`. */
  datatype State = State(
    pending: seq<Load>,
    route: Route,
    drivers: seq<Route>,
    acc: real,
    pos: Point,
    next: Next)

  /** A chain candidate points into the pending list. */
  predicate Ready(s: State) {
    s.next.Chain? ==> s.next.index < |s.pending|
  }

  function ServicedIndex(s: State): (i: nat)
    requires Ready(s) && |s.pending| > 0
    ensures i < |s.pending|
  {
    if s.next.PopHead? then 0 else s.next.index
  }

  /** The load this iteration services. */
  function Serviced(s: State): Load
    requires Ready(s) && |s.pending| > 0
  {
    s.pending[ServicedIndex(s)]
  }

  /** The pending list once the serviced load is taken out. */
  function Remaining(s: State): seq<Load>
    requires Ready(s) && |s.pending| > 0
  {
    RemoveAt(s.pending, ServicedIndex(s))
  }

  /** Where the driver sets off from: a chained load moves the position to
      the previous dropoff first; otherwise the stored position is used. */
  function StartPoint(s: State): Point {
    if s.next.Chain? then s.next.prev.dropoff else s.pos
  }

  /** `additional_distance`: to the pickup, then to the dropoff. */
  function Leg(d: Metric, from: Point, l: Load): real {
    d(from, l.pickup) + d(l.pickup, l.dropoff)
  }

  /** `distance_to_depo`. */
  function Back(d: Metric, l: Load): real {
    d(l.dropoff, Depot)
  }

  /** The new-driver test: serving this load and returning would pass the cap. */
  predicate Overflows(s: State, d: Metric)
    requires Ready(s) && |s.pending| > 0
  {
    s.acc + Leg(d, StartPoint(s), Serviced(s)) + Back(d, Serviced(s)) > MaxDistance
  }

  /** The lookahead key: distance from `l`'s dropoff to a candidate's pickup. */
  function NearestKey(d: Metric, l: Load): Load -> real {
    (c: Load) => d(l.dropoff, c.pickup)
  }

  /** `additional_distance_next_load`: this load's leg, then straight on to
      candidate `c`, then home. */
  function ChainTotal(d: Metric, leg: real, l: Load, c: Load): real {
    leg + d(l.dropoff, c.pickup) + d(c.pickup, c.dropoff) + d(c.dropoff, Depot)
  }

  /** The ids still to be placed, together with the ones already placed. */
  function Content(s: State): multiset<int> {
    multiset(Flatten(s.drivers)) + multiset(s.route) + multiset(Ids(s.pending))
  }

  /** The state before the loop: loads sorted by depot distance, nothing placed. */
  function Initial(loads: seq<Load>, d: Metric): State {
    State(Sort(loads, DepotKey(d)), [], [], 0.0, Depot, PopHead)
  }

  /** One iteration of the loop. */
  function Step(s: State, d: Metric): (t: State)
    requires Ready(s) && |s.pending| > 0
    ensures Ready(t)
    ensures |t.pending| == |s.pending| - 1
  {
    var load := Serviced(s);
    var rest := Remaining(s);
    var pos := StartPoint(s);
    var additional := Leg(d, pos, load);
    var back := Back(d, load);
    if s.acc + additional + back > MaxDistance then
      // the open route is closed as it is, even when empty, and the load
      // goes to a fresh driver; `additional` keeps its old starting point
      State(rest, [load.id], s.drivers + [s.route], additional + back, Depot, PopHead)
    else
      var next :=
        if |rest| > 0
           && s.acc + ChainTotal(d, additional, load, rest[ArgMin(rest, NearestKey(d, load))])
              + ErrorMargin < MaxDistance
        then Chain(ArgMin(rest, NearestKey(d, load)), load)
        else PopHead;
      var acc := s.acc + additional + (if next.PopHead? then back else 0.0);
      State(rest, s.route + [load.id], s.drivers, acc, pos, next)
  }

  /** One iteration places one id and takes one load off the pending list. */
  lemma StepKeepsContent(s: State, d: Metric)
    requires Ready(s) && |s.pending| > 0
    ensures Content(Step(s, d)) == Content(s)
  {
    var t := Step(s, d);
    StepPlacesServiced(s, d);
    assert t.pending == Remaining(s);
    IdsRemoveAt(s.pending, ServicedIndex(s));
    ContentMoves(s, t, Serviced(s).id);
  }

  /** Moving one id from the pending list onto the open route, or onto a
      fresh route after closing the open one, keeps the content. */
  lemma ContentMoves(s: State, t: State, id: int)
    requires multiset(Ids(t.pending)) + multiset{id} == multiset(Ids(s.pending))
    requires || (t.drivers == s.drivers + [s.route] && t.route == [id])
             || (t.drivers == s.drivers && t.route == s.route + [id])
    ensures Content(t) == Content(s)
  {
    var rest := multiset(Ids(t.pending));
    if t.drivers == s.drivers + [s.route] && t.route == [id] {
      ClosedRouteContent(s.drivers, s.route, id);
      assert Content(t) == multiset(Flatten(s.drivers + [s.route])) + multiset([id]) + rest;
    } else {
      assert Content(t) == multiset(Flatten(s.drivers)) + multiset(s.route + [id]) + rest;
      assert multiset(s.route + [id]) == multiset(s.route) + multiset{id};
    }
  }

  lemma ClosedRouteContent(drivers: seq<Route>, route: Route, id: int)
    ensures multiset(Flatten(drivers + [route])) + multiset([id])
         == multiset(Flatten(drivers)) + multiset(route) + multiset{id}
  {
    FlattenAppend(drivers, route);
  }

  /** After the loop: the open route is kept only if it holds a load. */
  function Finish(s: State): seq<Route> {
    if |s.route| > 0 then s.drivers + [s.route] else s.drivers
  }

  /** The loop run to completion. */
  function Run(s: State, d: Metric): seq<Route>
    requires Ready(s)
    decreases |s.pending|
  {
    if |s.pending| == 0 then Finish(s) else Run(Step(s, d), d)
  }

  /** `greedy_vrp_v2`: the routes in the order their drivers were opened. */
  function Solve(loads: seq<Load>, d: Metric): seq<Route> {
    Run(Initial(loads, d), d)
  }

  /** The state after `n` iterations of the loop. */
  function Iterate(s: State, d: Metric, n: nat): (r: State)
    requires Ready(s) && n <= |s.pending|
    ensures Ready(r) && |r.pending| == |s.pending| - n
  {
    if n == 0 then s else Step(Iterate(s, d, n - 1), d)
  }

  /** Every id still to be placed ends up in the output, and nothing else does. */
  lemma {:induction false} RunKeepsContent(s: State, d: Metric)
    requires Ready(s)
    ensures multiset(Flatten(Run(s, d))) == Content(s)
    decreases |s.pending|
  {
    if |s.pending| == 0 {
      FlattenAppend(s.drivers, s.route);
    } else {
      StepKeepsContent(s, d);
      RunKeepsContent(Step(s, d), d);
    }
  }

  /** Partition: the routes together hold exactly the input ids, each as
      often as in the input. */
  lemma Partition(loads: seq<Load>, d: Metric)
    ensures multiset(Flatten(Solve(loads, d))) == multiset(Ids(loads))
  {
    SortKeepsIds(loads, DepotKey(d));
    RunKeepsContent(Initial(loads, d), d);
  }

  /** The loop as written, counting its iterations: it runs once per load,
      its state after `k` iterations is `Iterate(Initial(loads, d), d, k)`,
      and every state it passes through is `Valid`. */
  method BuildRoutes(loads: seq<Load>, d: Metric) returns (drivers: seq<Route>, iterations: nat)
    ensures drivers == Solve(loads, d)
    ensures iterations == |loads|
    ensures drivers == Finish(Iterate(Initial(loads, d), d, iterations))
  {
    var s := Initial(loads, d);
    ghost var start := s;
    iterations := 0;
    while |s.pending| > 0
      invariant Valid(s, d)
      invariant Run(s, d) == Solve(loads, d)
      invariant iterations + |s.pending| == |loads|
      invariant s == Iterate(start, d, iterations)
      decreases |s.pending|
    {
      StepKeepsValid(s, d);
      s := Step(s, d);
      iterations := iterations + 1;
    }
    drivers := Finish(s);
  }

  /* ---------------------------------------------------------------------- */
  /* Invariants of the states the loop goes through                          */
  /* ---------------------------------------------------------------------- */

  /** What holds of every state the loop reaches: the pending list stays
      sorted by depot distance, and a pending chain candidate is the first
      nearest pickup to the previous dropoff and was affordable when chosen. */
  ghost predicate Valid(s: State, d: Metric) {
    && Ready(s)
    && SortedBy(s.pending, DepotKey(d))
    && (s.next.Chain? ==>
          var c := s.pending[s.next.index];
          && s.next.index == ArgMin(s.pending, NearestKey(d, s.next.prev))
          && s.acc + Leg(d, s.next.prev.dropoff, c) + Back(d, c) + ErrorMargin < MaxDistance)
  }

  lemma InitialIsValid(loads: seq<Load>, d: Metric)
    ensures Valid(Initial(loads, d), d)
  {
  }

  lemma StepKeepsValid(s: State, d: Metric)
    requires Valid(s, d) && |s.pending| > 0
    ensures Valid(Step(s, d), d)
  {
    RemoveAtKeepsSorted(s.pending, DepotKey(d), ServicedIndex(s));
  }

  /* ---------------------------------------------------------------------- */
  /* Seeding order                                                           */
  /* ---------------------------------------------------------------------- */

  /** The pending list starts as the loads ordered by depot distance, loads
      at the same distance keeping their input order. */
  lemma SeedOrder(loads: seq<Load>, d: Metric, v: real)
    ensures KeyClass(Initial(loads, d).pending, DepotKey(d), v) == KeyClass(loads, DepotKey(d), v)
  {
    SortIsStable(loads, DepotKey(d), v);
  }

  /** Without a chain candidate the head is serviced, and it is a pending
      load nearest the depot. */
  lemma HeadIsNearestDepot(s: State, d: Metric)
    requires Valid(s, d) && |s.pending| > 0 && s.next.PopHead?
    ensures Serviced(s) == s.pending[0]
    ensures forall l :: l in s.pending ==> d(Depot, Serviced(s).pickup) <= d(Depot, l.pickup)
  {
    forall l | l in s.pending ensures d(Depot, s.pending[0].pickup) <= d(Depot, l.pickup) {
      var k :| 0 <= k < |s.pending| && s.pending[k] == l;
      if k > 0 {
        assert DepotKey(d)(s.pending[0]) <= DepotKey(d)(s.pending[k]);
      }
    }
  }

  /* ---------------------------------------------------------------------- */
  /* What one iteration does                                                 */
  /* ---------------------------------------------------------------------- */

  /** Where one iteration puts the serviced load. */
  lemma StepPlacesServiced(s: State, d: Metric)
    requires Ready(s) && |s.pending| > 0
    ensures var t := Step(s, d);
      && |t.route| > 0 && t.route[|t.route| - 1] == Serviced(s).id
      && (Overflows(s, d) ==> t.drivers == s.drivers + [s.route] && t.route == [Serviced(s).id])
      && (!Overflows(s, d) ==> t.drivers == s.drivers && t.route == s.route + [Serviced(s).id])
  {
  }

  /** With non-negative distances the accumulator never falls while a route stays open. */
  lemma AccumulatorGrowsOnRoute(s: State, d: Metric)
    requires NonNegative(d)
    requires Ready(s) && |s.pending| > 0 && !Overflows(s, d)
    ensures Step(s, d).acc >= s.acc
  {
    var leg := Leg(d, StartPoint(s), Serviced(s));
    assert d(StartPoint(s), Serviced(s).pickup) >= 0.0;
    assert d(Serviced(s).pickup, Serviced(s).dropoff) >= 0.0;
    assert d(Serviced(s).dropoff, Depot) >= 0.0;
  }

  /** Lookahead: a chain is planned exactly when the new-driver test did not
      fire, a load remains, and the first remaining load nearest this
      dropoff could be done with the margin to spare; that load is the head
      of the remaining loads stably sorted by distance from this dropoff, so
      every remaining load before it in pending order is strictly farther. */
  lemma LookaheadSelection(s: State, d: Metric)
    requires Ready(s) && |s.pending| > 0
    ensures var t := Step(s, d);
      var load := Serviced(s);
      var rest := Remaining(s);
      var leg := Leg(d, StartPoint(s), load);
      && (t.next.Chain? <==>
            && !Overflows(s, d)
            && |rest| > 0
            && s.acc + ChainTotal(d, leg, load, rest[ArgMin(rest, NearestKey(d, load))])
               + ErrorMargin < MaxDistance)
      && (t.next.Chain? ==>
            && t.next.prev == load
            && t.pending[t.next.index] == Sort(rest, NearestKey(d, load))[0]
            && (forall j :: 0 <= j < |rest| ==>
                 d(load.dropoff, t.pending[t.next.index].pickup) <= d(load.dropoff, rest[j].pickup))
            && (forall j :: 0 <= j < t.next.index ==>
                 d(load.dropoff, t.pending[t.next.index].pickup) < d(load.dropoff, rest[j].pickup)))
  {
    var t := Step(s, d);
    if t.next.Chain? {
      SortHeadIsArgMin(Remaining(s), NearestKey(d, Serviced(s)));
      var key := NearestKey(d, Serviced(s));
      forall j | 0 <= j < |Remaining(s)|
        ensures d(Serviced(s).dropoff, t.pending[t.next.index].pickup)
             <= d(Serviced(s).dropoff, Remaining(s)[j].pickup)
      {
        assert key(t.pending[t.next.index]) <= key(Remaining(s)[j]);
      }
      forall j | 0 <= j < t.next.index
        ensures d(Serviced(s).dropoff, t.pending[t.next.index].pickup)
              < d(Serviced(s).dropoff, Remaining(s)[j].pickup)
      {
        assert key(t.pending[t.next.index]) < key(Remaining(s)[j]);
      }
    }
  }

  /** A planned chain candidate is serviced by the next step on the same
      route: the new-driver test cannot fire, as its sum is the lookahead
      total, which was below the cap less the margin. */
  lemma ChainCandidateFits(t: State, d: Metric)
    requires Valid(t, d) && |t.pending| > 0 && t.next.Chain?
    ensures Serviced(t) == t.pending[t.next.index]
    ensures !Overflows(t, d)
    ensures Step(t, d).drivers == t.drivers
    ensures Step(t, d).route == t.route + [Serviced(t).id]
  {
    assert StartPoint(t) == t.next.prev.dropoff;
    StepPlacesServiced(t, d);
  }

  /** So a chained pair sits on one route, the candidate right after the
      load that chose it. */
  lemma ChainedLoadStaysOnRoute(s: State, d: Metric)
    requires Valid(s, d) && |s.pending| > 0
    requires Step(s, d).next.Chain?
    ensures var t := Step(s, d);
      var u := Step(t, d);
      && u.drivers == t.drivers
      && |u.route| >= 2
      && u.route[|u.route| - 2] == Serviced(s).id
      && u.route[|u.route| - 1] == t.pending[t.next.index].id
  {
    var t := Step(s, d);
    StepKeepsValid(s, d);
    StepPlacesServiced(s, d);
    ChainCandidateFits(t, d);
    var tr := t.route;
    assert Step(t, d).route == tr + [Serviced(t).id];
    assert |tr| > 0 && tr[|tr| - 1] == Serviced(s).id;
  }

  /** The chain step's `list.remove(next_load)`, which removes the first
      load equal to the candidate, removes the candidate itself: no earlier
      pending load is equal to it, since the candidate is the first nearest. */
  lemma ChainRemovesCandidate(s: State, d: Metric)
    requires Valid(s, d) && |s.pending| > 0 && s.next.Chain?
    ensures Remaining(s) == RemoveFirst(s.pending, Serviced(s))
  {
    RemoveFirstMinimiser(s.pending, NearestKey(d, s.next.prev));
  }

  /* ---------------------------------------------------------------------- */
  /* Routes over the limit                                                   */
  /* ---------------------------------------------------------------------- */

  /** An open route over the cap holds a single load and plans no chain. */
  ghost predicate OverCapIsSolo(s: State) {
    s.acc > MaxDistance ==> |s.route| == 1 && s.next.PopHead?
  }

  /** Every iteration leaves a state with that property, whatever state it
      starts from. */
  lemma StepIsOverCapSolo(s: State, d: Metric)
    requires NonNegative(d)
    requires Ready(s) && |s.pending| > 0
    ensures OverCapIsSolo(Step(s, d))
  {
    var t := Step(s, d);
    if !Overflows(s, d) && t.next.Chain? {
      assert Back(d, Serviced(s)) >= 0.0;
    }
  }

  lemma {:induction false} IterateKeepsOverCapSolo(s: State, d: Metric, n: nat)
    requires NonNegative(d)
    requires Ready(s) && n <= |s.pending| && OverCapIsSolo(s)
    ensures OverCapIsSolo(Iterate(s, d, n))
  {
    if n > 0 {
      IterateKeepsOverCapSolo(s, d, n - 1);
      StepIsOverCapSolo(Iterate(s, d, n - 1), d);
    }
  }

  /** The v2 counterpart of the v1 cap, on the accumulator: with non-negative
      distances, in every state the loop reaches, an open route holding two
      or more loads, or planning a chain, has its accumulator within the cap. */
  lemma ReachedStatesWithinCap(loads: seq<Load>, d: Metric, n: nat)
    requires NonNegative(d) && n <= |loads|
    ensures var s := Iterate(Initial(loads, d), d, n);
      && OverCapIsSolo(s)
      && (|s.route| >= 2 || s.next.Chain? ==> s.acc <= MaxDistance)
  {
    IterateKeepsOverCapSolo(Initial(loads, d), d, n);
  }

  /** An open route over the cap is closed by the next step, with its one load. */
  lemma OverCapRouteCloses(s: State, d: Metric)
    requires NonNegative(d)
    requires Ready(s) && |s.pending| > 0 && OverCapIsSolo(s) && s.acc > MaxDistance
    ensures Overflows(s, d)
    ensures Step(s, d).drivers == s.drivers + [s.route] && |s.route| == 1
  {
    assert d(s.pos, Serviced(s).pickup) >= 0.0;
    assert d(Serviced(s).pickup, Serviced(s).dropoff) >= 0.0;
    assert d(Serviced(s).dropoff, Depot) >= 0.0;
  }

  /* ---------------------------------------------------------------------- */
  /* The recorded position                                                   */
  /* ---------------------------------------------------------------------- */

  /** The pending loads and a chain's predecessor come from the input, and the
      recorded position is the depot or the dropoff of a load on the open
      route: it moves only to a chained load's predecessor's dropoff, and
      goes back to the depot only when a new driver opens, not when the
      driver returns home between loads. */
  ghost predicate PositionOnRoute(s: State, loads: seq<Load>) {
    && (forall l :: l in s.pending ==> l in loads)
    && (s.next.Chain? ==> s.next.prev in loads && s.next.prev.id in s.route)
    && (s.pos == Depot || exists l :: l in loads && l.id in s.route && l.dropoff == s.pos)
  }

  lemma StepKeepsPositionOnRoute(s: State, d: Metric, loads: seq<Load>)
    requires Ready(s) && |s.pending| > 0 && PositionOnRoute(s, loads)
    ensures PositionOnRoute(Step(s, d), loads)
  {
    var t := Step(s, d);
    StepPlacesServiced(s, d);
    forall l | l in t.pending ensures l in loads {
      var k :| 0 <= k < |t.pending| && t.pending[k] == l;
      var i := ServicedIndex(s);
      assert l == s.pending[if k < i then k else k + 1];
    }
    if !Overflows(s, d) && s.pos != Depot && s.next.PopHead? {
      var l :| l in loads && l.id in s.route && l.dropoff == s.pos;
      assert l.id in t.route;
    }
  }

  lemma {:induction false} IterateKeepsPositionOnRoute(s: State, d: Metric, loads: seq<Load>, n: nat)
    requires Ready(s) && n <= |s.pending| && PositionOnRoute(s, loads)
    ensures PositionOnRoute(Iterate(s, d, n), loads)
  {
    if n > 0 {
      IterateKeepsPositionOnRoute(s, d, loads, n - 1);
      StepKeepsPositionOnRoute(Iterate(s, d, n - 1), d, loads);
    }
  }

  /** In every state the loop reaches, the recorded position is the depot or
      the dropoff of an input load already on the open route. */
  lemma ReachedPositions(loads: seq<Load>, d: Metric, n: nat)
    requires n <= |loads|
    ensures var s := Iterate(Initial(loads, d), d, n);
      s.pos == Depot || exists l :: l in loads && l.id in s.route && l.dropoff == s.pos
  {
    var s0 := Initial(loads, d);
    assert forall l :: l in s0.pending ==> l in loads by {
      forall l | l in s0.pending ensures l in loads {
        assert l in multiset(s0.pending);
      }
    }
    IterateKeepsPositionOnRoute(s0, d, loads, n);
  }

  /* ---------------------------------------------------------------------- */
  /* The whole run                                                           */
  /* ---------------------------------------------------------------------- */

  /** Routes once closed are never changed or reordered. */
  lemma {:induction false} RunKeepsClosedRoutes(s: State, d: Metric)
    requires Ready(s)
    ensures |Run(s, d)| >= |s.drivers|
    ensures Run(s, d)[..|s.drivers|] == s.drivers
    decreases |s.pending|
  {
    if |s.pending| > 0 {
      var t := Step(s, d);
      RunKeepsClosedRoutes(t, d);
      assert s.drivers <= t.drivers;
    }
  }

  /** Once a route holds a load, it and every route emitted after it hold one. */
  lemma {:induction false} RunEmitsNoEmptyRoute(s: State, d: Metric)
    requires Ready(s) && |s.route| > 0
    ensures |Run(s, d)| > |s.drivers|
    ensures forall i :: |s.drivers| <= i < |Run(s, d)| ==> |Run(s, d)[i]| > 0
    decreases |s.pending|
  {
    if |s.pending| > 0 {
      var t := Step(s, d);
      assert Run(s, d) == Run(t, d);
      StepPlacesServiced(s, d);
      RunEmitsNoEmptyRoute(t, d);
      RunKeepsClosedRoutes(t, d);
      var r := Run(t, d);
      forall i | |s.drivers| <= i < |r| ensures |r[i]| > 0 {
        if i < |t.drivers| {
          assert t.drivers == s.drivers + [s.route];
          assert r[i] == r[..|t.drivers|][i] == t.drivers[i] == s.route;
        }
      }
    }
  }

  /** From a fresh driver with no route yet, the first route is empty exactly
      when the head load's own round trip is over the cap, and no later
      route is empty. */
  lemma FreshRunRoutes(s: State, d: Metric)
    requires s.drivers == [] && s.route == [] && s.acc == 0.0 && s.pos == Depot
    requires s.next.PopHead? && |s.pending| > 0
    ensures var r := Run(s, d);
      && |r| > 0
      && (r[0] == [] <==> RoundTrip(d, s.pending[0]) > MaxDistance)
      && forall i :: 0 < i < |r| ==> r[i] != []
  {
    var t := Step(s, d);
    assert Run(s, d) == Run(t, d);
    assert Overflows(s, d) <==> RoundTrip(d, s.pending[0]) > MaxDistance;
    StepPlacesServiced(s, d);
    RunEmitsNoEmptyRoute(t, d);
    RunKeepsClosedRoutes(t, d);
    var r := Run(t, d);
    if Overflows(s, d) {
      assert t.drivers == [[]];
      assert r[0] == r[..1][0] == [];
    } else {
      assert t.drivers == [];
    }
  }

  /** The serviced load is never dropped: its id is in the output. When the
      new-driver test fires, the open route is emitted as it was, even
      empty, and the load starts the next route. */
  lemma ServicedLoadIsNeverDropped(s: State, d: Metric)
    requires Ready(s) && |s.pending| > 0
    ensures Serviced(s).id in Flatten(Run(s, d))
    ensures Overflows(s, d) ==>
      && |Run(s, d)| > |s.drivers| + 1
      && Run(s, d)[|s.drivers|] == s.route
      && |Run(s, d)[|s.drivers| + 1]| > 0
      && Run(s, d)[|s.drivers| + 1][0] == Serviced(s).id
  {
    var t := Step(s, d);
    var id := Serviced(s).id;
    assert Run(s, d) == Run(t, d);
    StepPlacesServiced(s, d);
    RunKeepsContent(t, d);
    assert id in multiset(t.route);
    assert id in Content(t);
    assert id in multiset(Flatten(Run(t, d)));
    if Overflows(s, d) {
      RunKeepsClosedRoutes(t, d);
      RunEmitsNoEmptyRoute(t, d);
      RunRouteStartsWith(t, d);
      var r := Run(t, d);
      assert r[..|t.drivers|] == t.drivers;
      assert r[|s.drivers|] == t.drivers[|s.drivers|];
    }
  }

  /** The open route is emitted at the position after the closed routes,
      starting with what it holds now. */
  lemma {:induction false} RunRouteStartsWith(s: State, d: Metric)
    requires Ready(s) && |s.route| > 0
    ensures |Run(s, d)| > |s.drivers|
    ensures |Run(s, d)[|s.drivers|]| > 0 && Run(s, d)[|s.drivers|][0] == s.route[0]
    decreases |s.pending|
  {
    if |s.pending| > 0 {
      var t := Step(s, d);
      assert Run(s, d) == Run(t, d);
      StepPlacesServiced(s, d);
      if Overflows(s, d) {
        RunKeepsClosedRoutes(t, d);
        var r := Run(t, d);
        assert r[..|t.drivers|] == t.drivers;
        assert r[|s.drivers|] == t.drivers[|s.drivers|] == s.route;
      } else {
        RunRouteStartsWith(t, d);
        assert t.route[0] == s.route[0];
      }
    }
  }

  /** The only empty route the builder can emit is a leading one, and it is
      emitted exactly when the nearest-to-depot load's own round trip is
      over the cap; with no loads there are no routes. */
  lemma LeadingEmptyRoute(loads: seq<Load>, d: Metric)
    ensures |loads| == 0 ==> Solve(loads, d) == []
    ensures |loads| > 0 ==>
      var r := Solve(loads, d);
      && |r| > 0
      && (r[0] == [] <==> RoundTrip(d, Sort(loads, DepotKey(d))[0]) > MaxDistance)
      && forall i :: 0 < i < |r| ==> r[i] != []
  {
    if |loads| > 0 {
      FreshRunRoutes(Initial(loads, d), d);
    }
  }

  /** With distinct input ids, every id appears in exactly one route, once. */
  lemma EachIdOnce(loads: seq<Load>, d: Metric)
    requires Distinct(Ids(loads))
    ensures Distinct(Flatten(Solve(loads, d)))
    ensures forall id :: id in Flatten(Solve(loads, d)) <==> id in Ids(loads)
  {
    var flat := Flatten(Solve(loads, d));
    Partition(loads, d);
    PermutationKeepsDistinct(flat, Ids(loads));
    forall id ensures id in flat <==> id in Ids(loads) {
      assert id in flat <==> id in multiset(flat);
      assert id in Ids(loads) <==> id in multiset(Ids(loads));
    }
  }
}
