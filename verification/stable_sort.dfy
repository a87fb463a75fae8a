/**
 A stable sort by a real-valued key, the behaviour the route builder relies on
 when it calls Python's `sorted(..., key=...)`: the result is ordered by key,
 is a permutation of the input, and keeps the input order among equal keys.
 Insertion sort is used as the definition; only those three facts matter.
 */
module StableSort {

  /** `s` is non-decreasing by `key`. */
  ghost predicate SortedBy<T>(s: seq<T>, key: T -> real) {
    forall i, j :: 0 <= i < j < |s| ==> key(s[i]) <= key(s[j])
  }

  /** The elements of `s` whose key is `v`, in the order they occur in `s`. */
  function KeyClass<T>(s: seq<T>, key: T -> real, v: real): seq<T>
  {
    if |s| == 0 then []
    else (if key(s[0]) == v then [s[0]] else []) + KeyClass(s[1..], key, v)
  }

  /** Inserts `x` in front of the first element whose key is not smaller. */
  function Insert<T>(x: T, s: seq<T>, key: T -> real): (r: seq<T>)
    ensures |r| == |s| + 1
    ensures multiset(r) == multiset(s) + multiset{x}
    ensures forall y :: y in r ==> y == x || y in s
    ensures SortedBy(s, key) ==> SortedBy(r, key)
  {
    if |s| == 0 || key(x) <= key(s[0]) then [x] + s
    else
      var rest := Insert(x, s[1..], key);
      assert SortedBy(s, key) ==> forall y :: y in rest ==> key(s[0]) <= key(y) by {
        if SortedBy(s, key) {
          forall y | y in rest ensures key(s[0]) <= key(y) {
            if y != x {
              var k :| 0 <= k < |s[1..]| && s[1..][k] == y;
              assert s[k + 1] == y;
            }
          }
        }
      }
      assert s == [s[0]] + s[1..];
      [s[0]] + rest
  }

  /** Stable sort: sorted by `key`, a permutation of `s`. */
  function Sort<T>(s: seq<T>, key: T -> real): (r: seq<T>)
    ensures |r| == |s|
    ensures multiset(r) == multiset(s)
    ensures SortedBy(r, key)
  {
    if |s| == 0 then []
    else
      assert s == [s[0]] + s[1..];
      Insert(s[0], Sort(s[1..], key), key)
  }

  /** Index of the first element of `s` whose key is minimal. */
  function ArgMin<T>(s: seq<T>, key: T -> real): (i: nat)
    requires |s| > 0
    ensures i < |s|
    ensures forall j :: 0 <= j < |s| ==> key(s[i]) <= key(s[j])
    ensures forall j :: 0 <= j < i ==> key(s[i]) < key(s[j])
  {
    if |s| == 1 then 0
    else
      var m := ArgMin(s[1..], key);
      if key(s[0]) <= key(s[1..][m]) then 0 else m + 1
  }

  /** `s` without the element at position `i`. */
  function RemoveAt<T>(s: seq<T>, i: nat): (r: seq<T>)
    requires i < |s|
    ensures |r| == |s| - 1
    ensures multiset(r) + multiset{s[i]} == multiset(s)
    ensures forall j :: 0 <= j < i ==> r[j] == s[j]
    ensures forall j :: i <= j < |r| ==> r[j] == s[j + 1]
  {
    assert s == s[..i] + [s[i]] + s[i + 1..];
    s[..i] + s[i + 1..]
  }

  /** `s` without the first element equal to `x`: Python's `list.remove`. */
  function RemoveFirst<T(==)>(s: seq<T>, x: T): (r: seq<T>)
    requires x in s
    ensures |r| == |s| - 1
  {
    if s[0] == x then s[1..] else [s[0]] + RemoveFirst(s[1..], x)
  }

  /** Inserting `x` adds it to its own key class, in front, and leaves the other classes alone. */
  lemma {:induction false} InsertKeyClass<T>(x: T, s: seq<T>, key: T -> real, v: real)
    ensures KeyClass(Insert(x, s, key), key, v)
         == (if key(x) == v then [x] else []) + KeyClass(s, key, v)
  {
    if |s| == 0 || key(x) <= key(s[0]) {
      assert ([x] + s)[1..] == s;
    } else {
      var rest := Insert(x, s[1..], key);
      assert ([s[0]] + rest)[1..] == rest;
      InsertKeyClass(x, s[1..], key, v);
    }
  }

  /** Stability: every key class keeps its order from the input. */
  lemma {:induction false} SortIsStable<T>(s: seq<T>, key: T -> real, v: real)
    ensures KeyClass(Sort(s, key), key, v) == KeyClass(s, key, v)
  {
    if |s| > 0 {
      InsertKeyClass(s[0], Sort(s[1..], key), key, v);
      SortIsStable(s[1..], key, v);
    }
  }

  /** The head of the stable sort is the first element with a minimal key. */
  lemma {:induction false} SortHeadIsArgMin<T>(s: seq<T>, key: T -> real)
    requires |s| > 0
    ensures Sort(s, key)[0] == s[ArgMin(s, key)]
  {
    if |s| > 1 {
      SortHeadIsArgMin(s[1..], key);
    }
  }

  /** Removing the first minimiser by value removes exactly that position. */
  lemma {:induction false} RemoveFirstMinimiser<T>(s: seq<T>, key: T -> real)
    requires |s| > 0
    ensures RemoveFirst(s, s[ArgMin(s, key)]) == RemoveAt(s, ArgMin(s, key))
  {
    var i := ArgMin(s, key);
    RemoveFirstOccurrence(s, i);
  }

  lemma {:induction false} RemoveFirstOccurrence<T>(s: seq<T>, i: nat)
    requires i < |s|
    requires forall j :: 0 <= j < i ==> s[j] != s[i]
    ensures RemoveFirst(s, s[i]) == s[..i] + s[i + 1..]
  {
    if i > 0 {
      var t := s[1..];
      assert t[i - 1] == s[i];
      assert s[0] != s[i];
      forall j | 0 <= j < i - 1 ensures t[j] != t[i - 1] {
        assert t[j] == s[j + 1];
      }
      RemoveFirstOccurrence(t, i - 1);
      calc {
        RemoveFirst(s, s[i]);
        [s[0]] + RemoveFirst(t, s[i]);
        [s[0]] + (t[..i - 1] + t[i..]);
        { assert [s[0]] + t[..i - 1] == s[..i]; assert t[i..] == s[i + 1..]; }
        s[..i] + s[i + 1..];
      }
    }
  }

  /** Removing any element keeps a sorted sequence sorted. */
  lemma RemoveAtKeepsSorted<T>(s: seq<T>, key: T -> real, i: nat)
    requires i < |s|
    requires SortedBy(s, key)
    ensures SortedBy(RemoveAt(s, i), key)
  {
    var r := RemoveAt(s, i);
    forall a, b | 0 <= a < b < |r| ensures key(r[a]) <= key(r[b]) {
      var a' := if a < i then a else a + 1;
      var b' := if b < i then b else b + 1;
      assert r[a] == s[a'] && r[b] == s[b'];
    }
  }
}
