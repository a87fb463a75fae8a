/**
 Worked examples. Every point lies on the y axis, so each distance used is
 the difference of y coordinates; the examples ask only that the metric
 give those values, as the program's Euclidean distance does.
 */
module Scenarios {
  import opened StableSort
  import opened Vrp
  import GreedyV2
  import GreedyV1

  /** Two loads whose pickups tie at the depot: the input order is kept, and
      the second is chained onto the first driver. The distances required
      are the Euclidean ones between the points involved. */
  lemma TwoLoadsShareOneRoute(d: Metric)
    requires d(Depot, Depot) == 0.0
    requires d(Depot, Point(0.0, 100.0)) == 100.0 && d(Point(0.0, 100.0), Depot) == 100.0
    requires d(Depot, Point(0.0, 50.0)) == 50.0 && d(Point(0.0, 50.0), Depot) == 50.0
    ensures GreedyV2.Solve([Load(1, Depot, Point(0.0, 100.0)), Load(2, Depot, Point(0.0, 50.0))], d)
         == [[1, 2]]
  {
    var l1 := Load(1, Depot, Point(0.0, 100.0));
    var l2 := Load(2, Depot, Point(0.0, 50.0));
    TiedLoadsKeepOrder(l1, l2, d);
    var s0 := GreedyV2.Initial([l1, l2], d);
    var s1 := GreedyV2.State([l2], [1], [], 100.0, Depot, GreedyV2.Chain(0, l1));
    FirstLoadPlansChain(d);
    SecondLoadJoinsRoute(d);
    assert GreedyV2.Run(s0, d) == GreedyV2.Run(s1, d);
  }

  lemma TiedLoadsKeepOrder(a: Load, b: Load, d: Metric)
    requires DepotKey(d)(a) == DepotKey(d)(b)
    ensures Sort([a, b], DepotKey(d)) == [a, b]
  {
    assert [b][1..] == [];
    assert [a, b][1..] == [b];
  }

  lemma FirstLoadPlansChain(d: Metric)
    requires d(Depot, Depot) == 0.0
    requires d(Depot, Point(0.0, 100.0)) == 100.0 && d(Point(0.0, 100.0), Depot) == 100.0
    requires d(Depot, Point(0.0, 50.0)) == 50.0 && d(Point(0.0, 50.0), Depot) == 50.0
    ensures var l1 := Load(1, Depot, Point(0.0, 100.0));
      var l2 := Load(2, Depot, Point(0.0, 50.0));
      GreedyV2.Step(GreedyV2.State([l1, l2], [], [], 0.0, Depot, GreedyV2.PopHead), d)
      == GreedyV2.State([l2], [1], [], 100.0, Depot, GreedyV2.Chain(0, l1))
  {
    var l1 := Load(1, Depot, Point(0.0, 100.0));
    var l2 := Load(2, Depot, Point(0.0, 50.0));
    var s0 := GreedyV2.State([l1, l2], [], [], 0.0, Depot, GreedyV2.PopHead);
    assert GreedyV2.Serviced(s0) == l1 && GreedyV2.Remaining(s0) == [l2];
    assert GreedyV2.Leg(d, Depot, l1) == 100.0;
    assert GreedyV2.ChainTotal(d, 100.0, l1, l2) == 300.0;
  }

  lemma SecondLoadJoinsRoute(d: Metric)
    requires d(Depot, Depot) == 0.0
    requires d(Point(0.0, 100.0), Depot) == 100.0
    requires d(Depot, Point(0.0, 50.0)) == 50.0 && d(Point(0.0, 50.0), Depot) == 50.0
    ensures var l1 := Load(1, Depot, Point(0.0, 100.0));
      var l2 := Load(2, Depot, Point(0.0, 50.0));
      var s2 := GreedyV2.Step(GreedyV2.State([l2], [1], [], 100.0, Depot, GreedyV2.Chain(0, l1)), d);
      s2.route == [1, 2] && s2.drivers == [] && s2.pending == []
  {
    var l1 := Load(1, Depot, Point(0.0, 100.0));
    var l2 := Load(2, Depot, Point(0.0, 50.0));
    var s1 := GreedyV2.State([l2], [1], [], 100.0, Depot, GreedyV2.Chain(0, l1));
    assert GreedyV2.Serviced(s1) == l2 && GreedyV2.Remaining(s1) == [];
    assert GreedyV2.Leg(d, l1.dropoff, l2) == 150.0;
  }

  /** A single load whose own round trip is over the cap still gets a
      driver, after a leading empty route. */
  lemma LongLoadAfterEmptyRoute(d: Metric)
    requires d(Depot, Depot) == 0.0
    requires d(Depot, Point(0.0, 1000.0)) == 1000.0 && d(Point(0.0, 1000.0), Depot) == 1000.0
    ensures GreedyV2.Solve([Load(1, Depot, Point(0.0, 1000.0))], d) == [[], [1]]
    ensures GreedyV1.Solve([Load(1, Depot, Point(0.0, 1000.0))], d) == [[], [1]]
  {
    var l := Load(1, Depot, Point(0.0, 1000.0));
    assert Sort([l], DepotKey(d)) == [l] by {
      assert [l][1..] == [];
    }
    assert RoundTrip(d, l) == 2000.0;
    var s0 := GreedyV2.Initial([l], d);
    assert s0.pending == [l];
    var s1 := GreedyV2.Step(s0, d);
    assert s1.drivers == [[]] && s1.route == [1] && s1.pending == [];
    assert GreedyV2.Run(s0, d) == GreedyV2.Run(s1, d);
    var p0 := GreedyV1.Packing([], [], 0.0);
    var p1 := GreedyV1.Place(p0, l, d);
    assert p1 == GreedyV1.Packing([[]], [l], 2000.0);
    assert GreedyV1.PlaceAll(p0, [l], d) == GreedyV1.PlaceAll(p1, [], d) by {
      assert [l][1..] == [];
    }
    assert GreedyV1.Groups([l], d) == [[], [l]];
    assert Ids([l]) == [1];
  }

  /** The length of a drive through `pts`, in order. */
  function PathLength(d: Metric, pts: seq<Point>): real {
    if |pts| < 2 then 0.0 else d(pts[0], pts[1]) + PathLength(d, pts[1..])
  }

  /** The recorded position goes stale, and a route drives past the cap
      although its accumulator stays within it. With `P` at (0, 200), load 1
      goes from the depot to `P`, and loads 2 and 3 from `P` to the depot. Load 2 is chained onto load 1,
      moving the position to `P`; the driver then returns to the depot, but
      the position stays at `P`, so load 3's leg is measured from `P` and
      counts 200 where the driver really goes 400. The accumulator ends at
      600; the drive itself is 800, 80 over the cap, more than the 10-minute
      overrun the program's `ERROR` margin allows for. */
  lemma StaleStartOverrunsCap(d: Metric)
    requires d(Depot, Depot) == 0.0 && d(Point(0.0, 200.0), Point(0.0, 200.0)) == 0.0
    requires d(Depot, Point(0.0, 200.0)) == 200.0 && d(Point(0.0, 200.0), Depot) == 200.0
    ensures var p := Point(0.0, 200.0);
      var l1 := Load(1, Depot, p);
      var l2 := Load(2, p, Depot);
      var l3 := Load(3, p, Depot);
      && GreedyV2.Solve([l1, l2, l3], d) == [[1, 2, 3]]
      && GreedyV2.Iterate(GreedyV2.Initial([l1, l2, l3], d), d, 3).acc == 600.0
      && PathLength(d, [Depot, l1.pickup, l1.dropoff, l2.pickup, l2.dropoff, Depot,
                        l3.pickup, l3.dropoff, Depot]) == 800.0
      && 800.0 > MaxDistance + GreedyV2.ErrorMargin
  {
    var p := Point(0.0, 200.0);
    var l1 := Load(1, Depot, p);
    var l2 := Load(2, p, Depot);
    var l3 := Load(3, p, Depot);
    SortedByDepotDistance(d);
    var s0 := GreedyV2.Initial([l1, l2, l3], d);
    var s1 := GreedyV2.State([l2, l3], [1], [], 200.0, Depot, GreedyV2.Chain(0, l1));
    var s2 := GreedyV2.State([l3], [1, 2], [], 400.0, p, GreedyV2.PopHead);
    var s3 := GreedyV2.State([], [1, 2, 3], [], 600.0, p, GreedyV2.PopHead);
    StaleFirstStep(d);
    StaleSecondStep(d);
    StaleThirdStep(d);
    assert GreedyV2.Run(s0, d) == GreedyV2.Run(s1, d) == GreedyV2.Run(s2, d) == GreedyV2.Run(s3, d);
    assert GreedyV2.Iterate(s0, d, 1) == s1;
    assert GreedyV2.Iterate(s0, d, 2) == s2;
    assert GreedyV2.Iterate(s0, d, 3) == s3;
    DriveLength(d);
  }

  lemma SortedByDepotDistance(d: Metric)
    requires d(Depot, Depot) == 0.0
    requires d(Depot, Point(0.0, 200.0)) == 200.0
    ensures var p := Point(0.0, 200.0);
      Sort([Load(1, Depot, p), Load(2, p, Depot), Load(3, p, Depot)], DepotKey(d))
      == [Load(1, Depot, p), Load(2, p, Depot), Load(3, p, Depot)]
  {
    var p := Point(0.0, 200.0);
    var l1 := Load(1, Depot, p);
    var l2 := Load(2, p, Depot);
    var l3 := Load(3, p, Depot);
    var key := DepotKey(d);
    TiedLoadsKeepOrder(l2, l3, d);
    assert key(l1) <= key(l2);
    assert Insert(l1, [l2, l3], key) == [l1, l2, l3];
    assert [l1, l2, l3][1..] == [l2, l3];
  }

  lemma StaleFirstStep(d: Metric)
    requires d(Depot, Depot) == 0.0 && d(Point(0.0, 200.0), Point(0.0, 200.0)) == 0.0
    requires d(Depot, Point(0.0, 200.0)) == 200.0 && d(Point(0.0, 200.0), Depot) == 200.0
    ensures var p := Point(0.0, 200.0);
      var l1 := Load(1, Depot, p);
      GreedyV2.Step(GreedyV2.State([l1, Load(2, p, Depot), Load(3, p, Depot)], [], [], 0.0, Depot, GreedyV2.PopHead), d)
      == GreedyV2.State([Load(2, p, Depot), Load(3, p, Depot)], [1], [], 200.0, Depot, GreedyV2.Chain(0, l1))
  {
    var p := Point(0.0, 200.0);
    var l1 := Load(1, Depot, p);
    var s0 := GreedyV2.State([l1, Load(2, p, Depot), Load(3, p, Depot)], [], [], 0.0, Depot, GreedyV2.PopHead);
    FirstStepPicks();
    FirstStepCosts(d);
    FirstStepChains(d);
    StepPlansChain(s0, d);
  }

  lemma FirstStepPicks()
    ensures var p := Point(0.0, 200.0);
      var s0 := GreedyV2.State([Load(1, Depot, p), Load(2, p, Depot), Load(3, p, Depot)], [], [], 0.0,
                               Depot, GreedyV2.PopHead);
      && GreedyV2.Ready(s0)
      && GreedyV2.Serviced(s0) == Load(1, Depot, p)
      && GreedyV2.Remaining(s0) == [Load(2, p, Depot), Load(3, p, Depot)]
      && GreedyV2.StartPoint(s0) == Depot
  {
  }

  lemma FirstStepChains(d: Metric)
    requires d(Depot, Depot) == 0.0 && d(Point(0.0, 200.0), Point(0.0, 200.0)) == 0.0
    requires d(Depot, Point(0.0, 200.0)) == 200.0 && d(Point(0.0, 200.0), Depot) == 200.0
    ensures var p := Point(0.0, 200.0);
      var s0 := GreedyV2.State([Load(1, Depot, p), Load(2, p, Depot), Load(3, p, Depot)], [], [], 0.0,
                               Depot, GreedyV2.PopHead);
      && !GreedyV2.Overflows(s0, d)
      && var load := GreedyV2.Serviced(s0);
         var rest := GreedyV2.Remaining(s0);
         var leg := GreedyV2.Leg(d, GreedyV2.StartPoint(s0), load);
         && |rest| > 0
         && s0.acc + GreedyV2.ChainTotal(d, leg, load, rest[ArgMin(rest, GreedyV2.NearestKey(d, load))])
            + GreedyV2.ErrorMargin < MaxDistance
  {
    FirstStepPicks();
    FirstStepCosts(d);
  }

  lemma FirstStepCosts(d: Metric)
    requires d(Depot, Depot) == 0.0 && d(Point(0.0, 200.0), Point(0.0, 200.0)) == 0.0
    requires d(Depot, Point(0.0, 200.0)) == 200.0 && d(Point(0.0, 200.0), Depot) == 200.0
    ensures var p := Point(0.0, 200.0);
      var l1 := Load(1, Depot, p);
      var l2 := Load(2, p, Depot);
      var l3 := Load(3, p, Depot);
      && GreedyV2.Leg(d, Depot, l1) == 200.0 && GreedyV2.Back(d, l1) == 200.0
      && ArgMin([l2, l3], GreedyV2.NearestKey(d, l1)) == 0
      && GreedyV2.ChainTotal(d, 200.0, l1, l2) == 400.0
  {
    var p := Point(0.0, 200.0);
    var l2 := Load(2, p, Depot);
    var l3 := Load(3, p, Depot);
    assert [l2, l3][1..] == [l3];
  }

  lemma StaleSecondStep(d: Metric)
    requires d(Depot, Depot) == 0.0 && d(Point(0.0, 200.0), Point(0.0, 200.0)) == 0.0
    requires d(Depot, Point(0.0, 200.0)) == 200.0 && d(Point(0.0, 200.0), Depot) == 200.0
    ensures var p := Point(0.0, 200.0);
      GreedyV2.Step(GreedyV2.State([Load(2, p, Depot), Load(3, p, Depot)], [1], [], 200.0, Depot,
                                   GreedyV2.Chain(0, Load(1, Depot, p))), d)
      == GreedyV2.State([Load(3, p, Depot)], [1, 2], [], 400.0, p, GreedyV2.PopHead)
  {
    var p := Point(0.0, 200.0);
    var l1 := Load(1, Depot, p);
    var l2 := Load(2, p, Depot);
    var l3 := Load(3, p, Depot);
    var s1 := GreedyV2.State([l2, l3], [1], [], 200.0, Depot, GreedyV2.Chain(0, l1));
    SecondStepPicks();
    SecondStepCosts(d);
    SecondStepGoesHome(d);
    StepGoesHome(s1, d);
  }

  lemma SecondStepPicks()
    ensures var p := Point(0.0, 200.0);
      var s1 := GreedyV2.State([Load(2, p, Depot), Load(3, p, Depot)], [1], [], 200.0, Depot,
                               GreedyV2.Chain(0, Load(1, Depot, p)));
      && GreedyV2.Ready(s1)
      && GreedyV2.Serviced(s1) == Load(2, p, Depot)
      && GreedyV2.Remaining(s1) == [Load(3, p, Depot)]
      && GreedyV2.StartPoint(s1) == p
  {
  }

  lemma SecondStepGoesHome(d: Metric)
    requires d(Depot, Depot) == 0.0 && d(Point(0.0, 200.0), Point(0.0, 200.0)) == 0.0
    requires d(Depot, Point(0.0, 200.0)) == 200.0 && d(Point(0.0, 200.0), Depot) == 200.0
    ensures var p := Point(0.0, 200.0);
      var s1 := GreedyV2.State([Load(2, p, Depot), Load(3, p, Depot)], [1], [], 200.0, Depot,
                               GreedyV2.Chain(0, Load(1, Depot, p)));
      && !GreedyV2.Overflows(s1, d)
      && var load := GreedyV2.Serviced(s1);
         var rest := GreedyV2.Remaining(s1);
         var leg := GreedyV2.Leg(d, GreedyV2.StartPoint(s1), load);
         s1.acc + GreedyV2.ChainTotal(d, leg, load, rest[ArgMin(rest, GreedyV2.NearestKey(d, load))])
         + GreedyV2.ErrorMargin >= MaxDistance
  {
    SecondStepPicks();
    SecondStepCosts(d);
  }

  lemma SecondStepCosts(d: Metric)
    requires d(Depot, Depot) == 0.0 && d(Point(0.0, 200.0), Point(0.0, 200.0)) == 0.0
    requires d(Depot, Point(0.0, 200.0)) == 200.0 && d(Point(0.0, 200.0), Depot) == 200.0
    ensures var p := Point(0.0, 200.0);
      var l2 := Load(2, p, Depot);
      var l3 := Load(3, p, Depot);
      && GreedyV2.Leg(d, p, l2) == 200.0 && GreedyV2.Back(d, l2) == 0.0
      && ArgMin([l3], GreedyV2.NearestKey(d, l2)) == 0
      && GreedyV2.ChainTotal(d, 200.0, l2, l3) == 600.0
  {
  }

  lemma StaleThirdStep(d: Metric)
    requires d(Depot, Depot) == 0.0 && d(Point(0.0, 200.0), Point(0.0, 200.0)) == 0.0
    requires d(Point(0.0, 200.0), Depot) == 200.0
    ensures var p := Point(0.0, 200.0);
      GreedyV2.Step(GreedyV2.State([Load(3, p, Depot)], [1, 2], [], 400.0, p, GreedyV2.PopHead), d)
      == GreedyV2.State([], [1, 2, 3], [], 600.0, p, GreedyV2.PopHead)
  {
    var p := Point(0.0, 200.0);
    var l3 := Load(3, p, Depot);
    var s2 := GreedyV2.State([l3], [1, 2], [], 400.0, p, GreedyV2.PopHead);
    assert GreedyV2.Serviced(s2) == l3 && GreedyV2.Remaining(s2) == [];
    assert GreedyV2.Leg(d, p, l3) == 200.0;
  }

  lemma DriveLength(d: Metric)
    requires d(Depot, Depot) == 0.0 && d(Point(0.0, 200.0), Point(0.0, 200.0)) == 0.0
    requires d(Depot, Point(0.0, 200.0)) == 200.0 && d(Point(0.0, 200.0), Depot) == 200.0
    ensures var p := Point(0.0, 200.0);
      PathLength(d, [Depot, Depot, p, p, Depot, Depot, p, Depot, Depot]) == 800.0
  {
    var p := Point(0.0, 200.0);
    var pts := [Depot, Depot, p, p, Depot, Depot, p, Depot, Depot];
    assert PathLength(d, pts[7..]) == 0.0;
    assert PathLength(d, pts[6..]) == 200.0;
    assert PathLength(d, pts[5..]) == 400.0;
    assert PathLength(d, pts[4..]) == 400.0;
    assert PathLength(d, pts[3..]) == 600.0;
    assert PathLength(d, pts[2..]) == 600.0;
    assert PathLength(d, pts[1..]) == 800.0;
  }

  /** An iteration that keeps the route open and plans a chain. */
  lemma StepPlansChain(s: GreedyV2.State, d: Metric)
    requires GreedyV2.Ready(s) && |s.pending| > 0 && !GreedyV2.Overflows(s, d)
    requires var load := GreedyV2.Serviced(s);
      var rest := GreedyV2.Remaining(s);
      var leg := GreedyV2.Leg(d, GreedyV2.StartPoint(s), load);
      && |rest| > 0
      && s.acc + GreedyV2.ChainTotal(d, leg, load, rest[ArgMin(rest, GreedyV2.NearestKey(d, load))])
         + GreedyV2.ErrorMargin < MaxDistance
    ensures var load := GreedyV2.Serviced(s);
      var rest := GreedyV2.Remaining(s);
      GreedyV2.Step(s, d)
      == GreedyV2.State(rest, s.route + [load.id], s.drivers,
                        s.acc + GreedyV2.Leg(d, GreedyV2.StartPoint(s), load),
                        GreedyV2.StartPoint(s), GreedyV2.Chain(ArgMin(rest, GreedyV2.NearestKey(d, load)), load))
  {
  }

  /** An iteration that keeps the route open and plans no chain. */
  lemma StepGoesHome(s: GreedyV2.State, d: Metric)
    requires GreedyV2.Ready(s) && |s.pending| > 0 && !GreedyV2.Overflows(s, d)
    requires var load := GreedyV2.Serviced(s);
      var rest := GreedyV2.Remaining(s);
      var leg := GreedyV2.Leg(d, GreedyV2.StartPoint(s), load);
      |rest| == 0
      || s.acc + GreedyV2.ChainTotal(d, leg, load, rest[ArgMin(rest, GreedyV2.NearestKey(d, load))])
         + GreedyV2.ErrorMargin >= MaxDistance
    ensures var load := GreedyV2.Serviced(s);
      GreedyV2.Step(s, d)
      == GreedyV2.State(GreedyV2.Remaining(s), s.route + [load.id], s.drivers,
                        s.acc + GreedyV2.Leg(d, GreedyV2.StartPoint(s), load) + GreedyV2.Back(d, load),
                        GreedyV2.StartPoint(s), GreedyV2.PopHead)
  {
  }
}
