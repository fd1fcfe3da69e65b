/**
 * Steps 2 and 3 of `calculate_position`: the list of candidates (one per
 * fingerprint) is sorted by signal distance with Python's stable
 * `list.sort`, and the first `K_NEIGHBORS` are kept. The sort is modelled as
 * a stable insertion sort, and proved sorted, a permutation of its input and
 * stable (candidates at equal distance keep their input order).
 */
module Neighbours {

  /** `K_NEIGHBORS`. */
  const KNeighbors: nat := 3

  /** One entry of the `distances` list: a distance and the fingerprint's position. */
  datatype Candidate = Candidate(dist: real, lat: real, lon: real, floor: int)

  ghost predicate Sorted(s: seq<Candidate>)
  {
    forall i, j :: 0 <= i < j < |s| ==> s[i].dist <= s[j].dist
  }

  function Min(a: int, b: int): int
  {
    if a <= b then a else b
  }

  /** `s` with `c` placed after every entry whose distance is at most `c.dist`. */
  function InsertByDist(c: Candidate, s: seq<Candidate>): seq<Candidate>
  {
    if s == [] then [c]
    else if s[0].dist <= c.dist then [s[0]] + InsertByDist(c, s[1..])
    else [c] + s
  }

  /** Inserting adds exactly `c`. */
  lemma {:induction false} InsertByDistPermutes(c: Candidate, s: seq<Candidate>)
    ensures |InsertByDist(c, s)| == |s| + 1
    ensures multiset(InsertByDist(c, s)) == multiset(s) + multiset{c}
  {
    if s != [] && s[0].dist <= c.dist {
      InsertByDistPermutes(c, s[1..]);
      assert s == [s[0]] + s[1..];
    }
  }

  lemma {:induction false} InsertByDistMember(c: Candidate, s: seq<Candidate>, x: Candidate)
    requires x in InsertByDist(c, s)
    ensures x in s || x == c
  {
    InsertByDistPermutes(c, s);
    assert x in multiset(InsertByDist(c, s));
  }

  lemma {:induction false} SortedTail(s: seq<Candidate>)
    requires Sorted(s) && s != []
    ensures Sorted(s[1..])
    ensures forall x :: x in s[1..] ==> s[0].dist <= x.dist
  {
  }

  /** Inserting into a sorted list keeps it sorted. */
  lemma {:induction false} InsertByDistSorted(c: Candidate, s: seq<Candidate>)
    requires Sorted(s)
    ensures Sorted(InsertByDist(c, s))
  {
    if s != [] && s[0].dist <= c.dist {
      var rest := InsertByDist(c, s[1..]);
      SortedTail(s);
      InsertByDistSorted(c, s[1..]);
      forall j | 0 <= j < |rest|
        ensures s[0].dist <= rest[j].dist
      {
        InsertByDistMember(c, s[1..], rest[j]);
      }
      assert InsertByDist(c, s) == [s[0]] + rest;
    }
  }

  /** `distances.sort(key=lambda x: x["dist"])`: the entries inserted one by one, in input order. */
  function StableSort(cs: seq<Candidate>): seq<Candidate>
  {
    if cs == [] then [] else InsertByDist(cs[|cs| - 1], StableSort(cs[..|cs| - 1]))
  }

  /** The sort returns its input reordered, by non-decreasing distance. */
  lemma {:induction false} StableSortSorted(cs: seq<Candidate>)
    ensures |StableSort(cs)| == |cs|
    ensures multiset(StableSort(cs)) == multiset(cs)
    ensures Sorted(StableSort(cs))
  {
    if cs != [] {
      var init, last := cs[..|cs| - 1], cs[|cs| - 1];
      StableSortSorted(init);
      InsertByDistPermutes(last, StableSort(init));
      InsertByDistSorted(last, StableSort(init));
      assert cs == init + [last];
    }
  }

  /** The entries of `s` at distance `d`, in order. */
  function AtDistance(s: seq<Candidate>, d: real): seq<Candidate>
  {
    if s == [] then []
    else (if s[0].dist == d then [s[0]] else []) + AtDistance(s[1..], d)
  }

  /** The entries at distance `d` in a list starting with `c`. */
  lemma {:induction false} AtDistanceCons(s: seq<Candidate>, d: real)
    requires s != []
    ensures AtDistance(s, d) == (if s[0].dist == d then [s[0]] else []) + AtDistance(s[1..], d)
  {
  }

  lemma {:induction false} AtDistanceAppend(a: seq<Candidate>, b: seq<Candidate>, d: real)
    ensures AtDistance(a + b, d) == AtDistance(a, d) + AtDistance(b, d)
  {
    if a == [] {
      assert a + b == b;
    } else {
      var head := if a[0].dist == d then [a[0]] else [];
      assert (a + b)[0] == a[0] && (a + b)[1..] == a[1..] + b;
      AtDistanceCons(a + b, d);
      AtDistanceCons(a, d);
      AtDistanceAppend(a[1..], b, d);
      assert head + (AtDistance(a[1..], d) + AtDistance(b, d)) == (head + AtDistance(a[1..], d)) + AtDistance(b, d);
    }
  }

  lemma {:induction false} AtDistanceNone(s: seq<Candidate>, d: real)
    requires forall i :: 0 <= i < |s| ==> s[i].dist != d
    ensures AtDistance(s, d) == []
  {
    if s != [] {
      AtDistanceNone(s[1..], d);
    }
  }

  /** Inserting `c` keeps the entries at each distance in order, `c` last among its equals. */
  lemma {:induction false} InsertByDistStable(c: Candidate, s: seq<Candidate>, d: real)
    requires Sorted(s)
    ensures AtDistance(InsertByDist(c, s), d) == AtDistance(s, d) + (if c.dist == d then [c] else [])
  {
    if s == [] {
      AtDistanceSingle(c, d);
    } else if s[0].dist <= c.dist {
      SortedTail(s);
      InsertByDistStable(c, s[1..], d);
      InsertAfterHeadStable(c, s, d);
    } else {
      PrependCloserStable(c, s, d);
    }
  }

  /** The step of `InsertByDistStable` when `c` goes after the head of `s`. */
  lemma {:induction false} InsertAfterHeadStable(c: Candidate, s: seq<Candidate>, d: real)
    requires s != [] && s[0].dist <= c.dist
    requires AtDistance(InsertByDist(c, s[1..]), d) == AtDistance(s[1..], d) + (if c.dist == d then [c] else [])
    ensures AtDistance(InsertByDist(c, s), d) == AtDistance(s, d) + (if c.dist == d then [c] else [])
  {
    var head := if s[0].dist == d then [s[0]] else [];
    var tail := if c.dist == d then [c] else [];
    var rest := InsertByDist(c, s[1..]);
    assert InsertByDist(c, s) == [s[0]] + rest;
    assert ([s[0]] + rest)[0] == s[0] && ([s[0]] + rest)[1..] == rest;
    AtDistanceCons([s[0]] + rest, d);
    AtDistanceCons(s, d);
    assert head + (AtDistance(s[1..], d) + tail) == (head + AtDistance(s[1..], d)) + tail;
  }

  lemma {:induction false} PrependCloserStable(c: Candidate, s: seq<Candidate>, d: real)
    requires Sorted(s) && s != [] && c.dist < s[0].dist
    ensures AtDistance(InsertByDist(c, s), d) == AtDistance(s, d) + (if c.dist == d then [c] else [])
  {
    assert InsertByDist(c, s) == [c] + s;
    assert ([c] + s)[0] == c && ([c] + s)[1..] == s;
    AtDistanceCons([c] + s, d);
    if c.dist == d {
      AtDistanceNone(s, d);
    }
  }

  lemma {:induction false} AtDistanceSingle(c: Candidate, d: real)
    ensures AtDistance([c], d) == if c.dist == d then [c] else []
  {
    assert [c][1..] == [];
  }

  lemma {:induction false} StableSortIsSorted(cs: seq<Candidate>)
    ensures Sorted(StableSort(cs))
  {
    StableSortSorted(cs);
  }

  /** The sort is stable: for every distance, the entries at that distance keep their order. */
  lemma {:induction false} StableSortIsStable(cs: seq<Candidate>, d: real)
    ensures AtDistance(StableSort(cs), d) == AtDistance(cs, d)
  {
    if cs != [] {
      var init, last := cs[..|cs| - 1], cs[|cs| - 1];
      var sortedInit := StableSort(init);
      assert StableSort(cs) == InsertByDist(last, sortedInit);
      StableSortIsSorted(init);
      StableSortIsStable(init, d);
      InsertByDistStable(last, sortedInit, d);
      assert cs == init + [last];
      AtDistanceAppend(init, [last], d);
      AtDistanceSingle(last, d);
    }
  }

  /** `distances[:K_NEIGHBORS]` after the sort. */
  function KNearest(cs: seq<Candidate>): (ns: seq<Candidate>)
    ensures |ns| == Min(KNeighbors, |cs|)
  {
    StableSortSorted(cs);
    StableSort(cs)[..Min(KNeighbors, |cs|)]
  }

  /** The selected neighbours are sorted by distance and taken from the candidates. */
  lemma {:induction false} KNearestSorted(cs: seq<Candidate>)
    ensures Sorted(KNearest(cs))
    ensures multiset(KNearest(cs)) <= multiset(cs)
  {
    var sorted, ns := StableSort(cs), KNearest(cs);
    StableSortSorted(cs);
    assert sorted == ns + sorted[|ns|..];
    assert multiset(sorted) == multiset(ns) + multiset(sorted[|ns|..]);
  }

  /** None of the candidates left out is closer than a selected one. */
  lemma {:induction false} KNearestAreNearest(cs: seq<Candidate>)
    ensures forall x, y :: x in KNearest(cs) && y in multiset(cs) - multiset(KNearest(cs)) ==> x.dist <= y.dist
  {
    var sorted, ns := StableSort(cs), KNearest(cs);
    StableSortSorted(cs);
    var rest := sorted[|ns|..];
    assert sorted == ns + rest;
    assert multiset(sorted) == multiset(ns) + multiset(rest);
    forall x, y | x in ns && y in multiset(cs) - multiset(ns)
      ensures x.dist <= y.dist
    {
      var i :| 0 <= i < |ns| && ns[i] == x;
      assert y in multiset(rest);
      assert y in rest;
      var j :| 0 <= j < |rest| && rest[j] == y;
      assert sorted[i] == x && sorted[|ns| + j] == y;
    }
  }

  /** Among candidates at the same distance, the earliest in input order are selected. */
  lemma {:induction false} KNearestKeepsInputOrder(cs: seq<Candidate>, d: real)
    ensures AtDistance(KNearest(cs), d) <= AtDistance(cs, d)
  {
    var sorted, ns := StableSort(cs), KNearest(cs);
    StableSortSorted(cs);
    var rest := sorted[|ns|..];
    assert sorted == ns + rest;
    StableSortIsStable(cs, d);
    AtDistanceAppend(ns, rest, d);
  }
}
