/**
 The problem model shared by the three route builders: points, loads, the
 depot, the 720-minute cap, and the distance function. The Euclidean
 distance of the program works on floating point; here it is an arbitrary
 real-valued `Metric` handed to every builder, so that each property below
 holds whatever the distances are (a few also ask that they be non-negative).
 */
module Vrp {
  import opened StableSort

  datatype Point = Point(x: real, y: real)

  /** One delivery: drive to `pickup`, then to `dropoff`. */
  datatype Load = Load(id: int, pickup: Point, dropoff: Point)

  /** The single depot every driver starts from, at the origin. */
  const Depot: Point := Point(0.0, 0.0)

  /** A driver's shift: twelve hours of driving, one distance unit per minute. */
  const MaxDistance: real := 720.0

  /** Distance between two points; stands for the program's Euclidean distance. */
  type Metric = (Point, Point) -> real

  ghost predicate NonNegative(d: Metric) {
    forall p, q :: d(p, q) >= 0.0
  }

  /** A route as the program outputs it: the ids of its loads, in visiting order. */
  type Route = seq<int>

  /** The sort key of both greedy builders: how far the pickup lies from the depot. */
  function DepotKey(d: Metric): Load -> real {
    (l: Load) => d(Depot, l.pickup)
  }

  /** Depot to pickup, pickup to dropoff, dropoff back to depot. */
  function RoundTrip(d: Metric, l: Load): real {
    d(Depot, l.pickup) + d(l.pickup, l.dropoff) + d(l.dropoff, Depot)
  }

  function Ids(loads: seq<Load>): (r: seq<int>)
    ensures |r| == |loads|
    ensures forall i :: 0 <= i < |loads| ==> r[i] == loads[i].id
  {
    seq(|loads|, i requires 0 <= i < |loads| => loads[i].id)
  }

  /** The concatenation of a list of lists, in order. */
  function Flatten<T>(ss: seq<seq<T>>): seq<T> {
    if |ss| == 0 then [] else Flatten(ss[..|ss| - 1]) + ss[|ss| - 1]
  }

  ghost predicate Distinct<T>(s: seq<T>) {
    forall i, j :: 0 <= i < j < |s| ==> s[i] != s[j]
  }

  lemma FlattenAppend<T>(ss: seq<seq<T>>, s: seq<T>)
    ensures Flatten(ss + [s]) == Flatten(ss) + s
  {
    assert (ss + [s])[..|ss|] == ss;
  }

  lemma IdsAppend(a: seq<Load>, b: seq<Load>)
    ensures Ids(a + b) == Ids(a) + Ids(b)
  {
  }

  lemma IdsRemoveAt(s: seq<Load>, i: nat)
    requires i < |s|
    ensures multiset(Ids(RemoveAt(s, i))) + multiset{s[i].id} == multiset(Ids(s))
  {
    var ids := Ids(s);
    assert Ids(RemoveAt(s, i)) == ids[..i] + ids[i + 1..];
    assert ids == ids[..i] + [ids[i]] + ids[i + 1..];
  }

  /** Sorting moves loads around but keeps their ids. */
  lemma {:induction false} SortKeepsIds(loads: seq<Load>, key: Load -> real)
    ensures multiset(Ids(Sort(loads, key))) == multiset(Ids(loads))
  {
    if |loads| > 0 {
      SortKeepsIds(loads[1..], key);
      InsertKeepsIds(loads[0], Sort(loads[1..], key), key);
      IdsCons(loads);
    }
  }

  lemma IdsCons(s: seq<Load>)
    requires |s| > 0
    ensures multiset(Ids(s)) == multiset{s[0].id} + multiset(Ids(s[1..]))
  {
    assert Ids(s) == [s[0].id] + Ids(s[1..]);
  }

  lemma {:induction false} InsertKeepsIds(x: Load, s: seq<Load>, key: Load -> real)
    ensures multiset(Ids(Insert(x, s, key))) == multiset(Ids(s)) + multiset{x.id}
  {
    if |s| == 0 || key(x) <= key(s[0]) {
      IdsCons([x] + s);
      assert ([x] + s)[1..] == s;
    } else {
      var rest := Insert(x, s[1..], key);
      InsertKeepsIds(x, s[1..], key);
      IdsCons([s[0]] + rest);
      assert ([s[0]] + rest)[1..] == rest;
      IdsCons(s);
    }
  }

  /** A sequence with no repeats holds each of its elements once. */
  lemma {:induction false} DistinctCountsOne<T>(s: seq<T>, x: T)
    requires Distinct(s)
    ensures multiset(s)[x] <= 1
  {
    if |s| > 0 {
      assert s == [s[0]] + s[1..];
      assert Distinct(s[1..]) by {
        forall i, j | 0 <= i < j < |s[1..]| ensures s[1..][i] != s[1..][j] {
          assert s[1..][i] == s[i + 1] && s[1..][j] == s[j + 1];
        }
      }
      DistinctCountsOne(s[1..], x);
      if s[0] == x {
        assert x !in s[1..] by {
          forall k | 0 <= k < |s[1..]| ensures s[1..][k] != x {
            assert s[1..][k] == s[k + 1];
          }
        }
      }
    }
  }

  /** A rearrangement of a sequence with no repeats has no repeats. */
  lemma PermutationKeepsDistinct<T>(s: seq<T>, t: seq<T>)
    requires multiset(s) == multiset(t)
    requires Distinct(t)
    ensures Distinct(s)
  {
    forall i, j | 0 <= i < j < |s| ensures s[i] != s[j] {
      if s[i] == s[j] {
        assert s == s[..j] + s[j..];
        assert s[i] in s[..j];
        assert s[j] in s[j..];
        assert multiset(s)[s[i]] == multiset(s[..j])[s[i]] + multiset(s[j..])[s[i]];
        DistinctCountsOne(t, s[i]);
        assert false;
      }
    }
  }
}
