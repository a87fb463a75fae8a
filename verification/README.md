# Greedy vehicle routing: a Dafny model

The program assigns pickup-and-delivery loads to drivers. Every driver starts
and ends at a depot at the origin and may drive at most 720 minutes, at one
distance unit per minute. Its output is a list of routes, each a list of load
ids in visiting order. The model covers three route builders:

- `greedy_vrp_v2` (module `GreedyV2`), the builder the program runs. It sorts
  the loads by the distance from the depot to their pickups. It then services
  loads one at a time. A new driver is opened when the next load and the
  return home would pass the cap. After each load that did not open a new
  driver, a one-step lookahead picks the pending load whose pickup is
  nearest the dropoff. If that load and the return home fit with more than
  10 minutes to spare, it is serviced next on the same route.
- `greedy_vrp_v1` (module `GreedyV1`). It packs the depot-sorted loads, as
  separate depot round trips, into drivers in one pass.
- `driver_per_load_vrp` (module `Baseline`). It gives one driver per load.

Shared definitions are in `Vrp`. They cover points, loads, the depot, the cap,
route ids and `Flatten`. Python's stable `sorted` is in `StableSort`. The
distance function is a parameter `d: Metric` of every builder. Each property
holds for every real-valued metric. The few that need non-negative distances
say so with `NonNegative(d)`.

The v2 loop is the function `Step` on a `State` record. The record holds every
loop variable:

- the pending list;
- the open route;
- the closed routes;
- the accumulator;
- the position;
- what is serviced next: the head, or a chain candidate together with the load
  that chose it.

The chain candidate is stored by its position in the pending list. This stands
for the Python object that `list.remove` finds by identity.
`ChainRemovesCandidate` shows that removing the first equal value removes the
same load.

The model keeps the code's quirks as written:

- In the new-driver branch, the leg is measured from the old position.
- After a depot return, the position is not reset to the depot.
- A route can be closed while empty.

The worked examples in `Scenarios` follow the code. A single load whose own
round trip is over the cap gives `[[], [id]]` from both greedy builders: the
code closes the empty route it started with before giving the load a driver.

Because of the stale position, the accumulator can fall short of what a
driver really drives. `Scenarios.StaleStartOverrunsCap` gives three loads
that v2 puts on one route with an accumulator of 600, although the route as
driven is 800 long. That is 80 over the cap, more than the 10-minute overrun
the code's `ERROR` comment (vrpSolution.py:125) allows for.

## Model

| member | source | states |
|---|---|---|
| StableSort.Sort | vrpSolution.py:129 | the depot ordering is a permutation of the loads and is non-decreasing by key |
| StableSort.SortIsStable | vrpSolution.py:129 | among loads with equal key, the sorted list keeps the input order |
| StableSort.ArgMin | vrpSolution.py:162-163 | the chosen position holds a minimal key, and every earlier position has a strictly larger key |
| StableSort.SortHeadIsArgMin | vrpSolution.py:162-163 | the head of a stable sort is the first element with a minimal key, so `next_loads[0]` is the first nearest pending load |
| StableSort.RemoveFirstMinimiser | vrpSolution.py:144 | `list.remove` of the first minimiser removes exactly that position |
| GreedyV2.Step | vrpSolution.py:140-178 | one iteration takes exactly one load off the pending list, and a planned candidate still points into it |
| GreedyV2.BuildRoutes | vrpSolution.py:126-184 | the loop runs exactly once per load, its state after `k` iterations is `Iterate(Initial(loads, d), d, k)`, and it returns the routes `Solve` describes |
| GreedyV2.StepKeepsContent | vrpSolution.py:141-159 | the ids on closed routes, the open route and the pending list, as a multiset, are the same before and after an iteration |
| GreedyV2.RunKeepsContent | vrpSolution.py:140-182 | the returned routes hold exactly the ids that were placed or pending, with multiplicity |
| GreedyV2.Partition | vrpSolution.py:122-184 | the concatenated routes are a permutation of the input ids |
| GreedyV2.EachIdOnce | vrpSolution.py:122-184 | with distinct input ids, every input id appears exactly once across the routes, and no other id appears |
| GreedyV2.InitialIsValid | vrpSolution.py:129-138 | the state before the loop meets the loop invariant `Valid`: the pending list is sorted by depot distance |
| GreedyV2.StepKeepsValid | vrpSolution.py:140-178 | each iteration keeps the pending list sorted by depot distance; a planned candidate is the first nearest pickup and is affordable |
| GreedyV2.SeedOrder | vrpSolution.py:129 | loads at the same depot distance keep their input order in the pending list |
| GreedyV2.HeadIsNearestDepot | vrpSolution.py:141-142 | with no chain planned, the serviced load is the head, which has the smallest depot distance of all pending loads |
| GreedyV2.ServicedLoadIsNeverDropped | vrpSolution.py:155-182 | the serviced id is in the final output; when the new-driver test fires, the open route is emitted unchanged, even empty, and the next emitted route starts with the serviced id |
| GreedyV2.AccumulatorGrowsOnRoute | vrpSolution.py:176-178 | with non-negative distances, the accumulator never falls while the route stays open |
| GreedyV2.LookaheadSelection | vrpSolution.py:160-170 | a chain is planned iff the new-driver test did not fire, a load remains, and the first nearest candidate's total plus 10 is below 720; the candidate is the head of the stable sort by distance from the dropoff, no farther than any remaining load, and strictly nearer than every load before it |
| GreedyV2.ChainCandidateFits | vrpSolution.py:143-155 | a planned candidate is serviced next and never triggers the new-driver test |
| GreedyV2.ChainedLoadStaysOnRoute | vrpSolution.py:143-176 | a chained candidate is placed on the same route right after the load that chose it, and no route is closed in between |
| GreedyV2.ChainRemovesCandidate | vrpSolution.py:144 | removal by value takes out the chosen candidate itself |
| GreedyV2.StepIsOverCapSolo | vrpSolution.py:155-178 | with non-negative distances, after any iteration an accumulator over the cap belongs to a route of one load that plans no chain |
| GreedyV2.ReachedStatesWithinCap | vrpSolution.py:140-178 | with non-negative distances, in every state the loop reaches, an open route holding two or more loads, or planning a chain, has its accumulator within 720 |
| GreedyV2.ReachedPositions | vrpSolution.py:134-159 | in every state the loop reaches, the recorded position is the depot or the dropoff of an input load already on the open route |
| GreedyV2.OverCapRouteCloses | vrpSolution.py:155-159 | with non-negative distances, such a route is closed by the next iteration with its single load |
| GreedyV2.RunKeepsClosedRoutes | vrpSolution.py:156 | closed routes are emitted unchanged and in the order they were closed |
| GreedyV2.RunEmitsNoEmptyRoute | vrpSolution.py:155-182 | once the open route holds a load, no later emitted route is empty |
| GreedyV2.LeadingEmptyRoute | vrpSolution.py:155-159 | the only empty route is the first one, which is empty iff the nearest-depot load's round trip is over 720; no loads give no routes |
| GreedyV1.PlaceAllKeepsPacked | vrpSolution.py:98-114 | the packing loop keeps the accumulator equal to the open driver's round trips and keeps every driver of two or more loads within the cap |
| GreedyV1.PlaceAllKeepsOrder | vrpSolution.py:98-114 | the packing loop appends each load, in order, to the open driver or to a new one |
| GreedyV1.Order | vrpSolution.py:86-120 | the concatenated v1 routes are the ids of the loads in depot-distance order |
| GreedyV1.Cap | vrpSolution.py:98-118 | every v1 route of two or more loads has summed round trips of at most 720 |
| GreedyV1.LeadingEmptyRoute | vrpSolution.py:104-118 | the only empty v1 route is the first one, which is empty iff the first sorted load's round trip is over 720 |
| Baseline.OneDriverPerLoad | vrpSolution.py:186-189 | one route per load, in input order, each holding only that load's id |
| Scenarios.TwoLoadsShareOneRoute | vrpSolution.py:140-182 | two loads tied at the depot, whose chain fits, go on one route `[1, 2]` |
| Scenarios.StaleStartOverrunsCap | vrpSolution.py:125-178 | loads (0,0)→(0,200), (0,200)→(0,0), (0,200)→(0,0) go on one v2 route `[1, 2, 3]` whose final accumulator is 600, while the drive it stands for is 800, more than 720 plus the 10-minute margin |
| Scenarios.LongLoadAfterEmptyRoute | vrpSolution.py:98-118 | a single load over the cap gives `[[], [1]]` from both greedy builders |

## Left out

- Reading the problem file, argument parsing and printing the routes
  (vrpSolution.py:41-84, 191-209). These are input and output.
- The Euclidean distance (vrpSolution.py:18-24). It uses floating-point
  `sqrt`, so the distance is a parameter and values are exact reals. Rounding
  in the float sums is not modelled.
- The internals of Python's sort. `sorted` is modelled as a stable insertion
  sort. Its result is sorted by key, a permutation of the input and stable.
  Only one list has those three properties, so it is the list Python's
  `sorted` returns. Some proofs unfold the insertion sort itself.
- Python object identity. A chain candidate is kept by its position in the
  pending list.
- The driving distance of a route. The model proves no bound on a v2
  route's true driving distance, because no such bound holds. The position is
  not reset after a depot return, and a new driver's first leg starts from the
  old position, so the accumulator can fall short of the distance driven.
  `Scenarios.StaleStartOverrunsCap` gives a route that is driven for 800,
  80 over the cap, while its accumulator reads 600. The code's comment at
  vrpSolution.py:125 says drivers go over by at most 10 minutes; this route
  goes over by 80. The accumulator is modelled as the code computes it.
