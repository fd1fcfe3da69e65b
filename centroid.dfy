/**
 * Steps 4 and 5 of `calculate_position`: the inverse-distance weighted
 * average of the selected neighbours' positions, the rounding of the floor,
 * and the uncertainty score (the summed planar distance of the neighbours
 * from the estimate). The sums are specified by functions over the list of
 * neighbours, computed by loops, and bounded by lemmas: the average of
 * values lies between their minimum and maximum.
 */
module Centroid {
  import opened Neighbours
  import opened SignalDistance
  import opened RealSums

  /** The `0.1` added to every distance before inverting it. */
  const Epsilon: real := 0.1

  /** The degrees-to-metres factor applied to the uncertainty score. */
  const MetersPerDegree: real := 111000.0

  /** `w = 1 / (item["dist"] + 0.1)`. */
  function Weight(dist: real): (w: real)
    requires 0.0 <= dist
    ensures 0.0 < w
  {
    1.0 / (dist + Epsilon)
  }

  ghost predicate NonNegative(ns: seq<Candidate>)
  {
    forall c :: c in ns ==> 0.0 <= c.dist
  }

  /** The coordinates that are averaged. */
  datatype Axis = Lat | Lon | Floor

  function Coord(c: Candidate, a: Axis): real
  {
    match a
    case Lat => c.lat
    case Lon => c.lon
    case Floor => c.floor as real
  }

  /** The weight of every neighbour, in order. */
  function Weights(ns: seq<Candidate>): seq<real>
    requires NonNegative(ns)
  {
    seq(|ns|, i requires 0 <= i < |ns| => assert ns[i] in ns; Weight(ns[i].dist))
  }

  /** What every neighbour adds to `lat_sum`, `lon_sum` or `floor_sum`, in order. */
  function Terms(ns: seq<Candidate>, a: Axis): seq<real>
    requires NonNegative(ns)
  {
    seq(|ns|, i requires 0 <= i < |ns| => assert ns[i] in ns; Coord(ns[i], a) * Weight(ns[i].dist))
  }

  /** Every neighbour carries a positive weight, so `weight_sum` is positive once there is one. */
  lemma {:induction false} WeightSumPositive(ns: seq<Candidate>)
    requires NonNegative(ns)
    ensures 0.0 <= Total(Weights(ns))
    ensures ns != [] ==> 0.0 < Total(Weights(ns))
  {
    var ws := Weights(ns);
    forall i | 0 <= i < |ws|
      ensures 0.0 < ws[i]
    {
      assert ns[i] in ns;
    }
    TotalPositive(ws);
  }

  /** One value in [lo, hi] times a non-negative weight lies between lo and hi times the weight. */
  lemma {:induction false} ProductWithin(lo: real, hi: real, v: real, w: real, t: real, below: real, above: real)
    requires lo <= v <= hi && 0.0 <= w
    requires t == v * w && below == lo * w && above == hi * w
    ensures below <= t <= above
  {
  }

  /** Every term lies between lo and hi times the weight of its neighbour. */
  lemma {:induction false} TermsWithin(ns: seq<Candidate>, a: Axis, lo: real, hi: real)
    requires NonNegative(ns)
    requires forall c :: c in ns ==> lo <= Coord(c, a) <= hi
    ensures forall i :: 0 <= i < |ns| ==>
              Scaled(Weights(ns), lo)[i] <= Terms(ns, a)[i] <= Scaled(Weights(ns), hi)[i]
  {
    var ws, ts := Weights(ns), Terms(ns, a);
    forall i | 0 <= i < |ns|
      ensures Scaled(ws, lo)[i] <= ts[i] <= Scaled(ws, hi)[i]
    {
      assert ns[i] in ns;
      ProductWithin(lo, hi, Coord(ns[i], a), ws[i], ts[i], Scaled(ws, lo)[i], Scaled(ws, hi)[i]);
    }
  }

  /** The weighted average of coordinates in [lo, hi] lies in [lo, hi]. */
  lemma {:induction false} AverageWithin(ns: seq<Candidate>, a: Axis, lo: real, hi: real)
    requires NonNegative(ns) && ns != []
    requires forall c :: c in ns ==> lo <= Coord(c, a) <= hi
    ensures 0.0 < Total(Weights(ns))
    ensures lo <= Total(Terms(ns, a)) / Total(Weights(ns)) <= hi
  {
    TermsWithin(ns, a, lo, hi);
    WeightSumPositive(ns);
    AverageBetween(Terms(ns, a), Weights(ns), lo, hi);
  }

  function MinCoord(ns: seq<Candidate>, a: Axis): (m: real)
    requires ns != []
    ensures forall c :: c in ns ==> m <= Coord(c, a)
    ensures exists c :: c in ns && m == Coord(c, a)
  {
    if |ns| == 1 then Coord(ns[0], a)
    else
      var m := MinCoord(ns[1..], a);
      assert ns == [ns[0]] + ns[1..];
      if Coord(ns[0], a) <= m then Coord(ns[0], a) else m
  }

  function MaxCoord(ns: seq<Candidate>, a: Axis): (m: real)
    requires ns != []
    ensures forall c :: c in ns ==> Coord(c, a) <= m
    ensures exists c :: c in ns && m == Coord(c, a)
  {
    if |ns| == 1 then Coord(ns[0], a)
    else
      var m := MaxCoord(ns[1..], a);
      assert ns == [ns[0]] + ns[1..];
      if m <= Coord(ns[0], a) then Coord(ns[0], a) else m
  }

  function MinFloor(ns: seq<Candidate>): (m: int)
    requires ns != []
    ensures forall c :: c in ns ==> m <= c.floor
    ensures exists c :: c in ns && m == c.floor
  {
    if |ns| == 1 then ns[0].floor
    else
      var m := MinFloor(ns[1..]);
      assert ns == [ns[0]] + ns[1..];
      if ns[0].floor <= m then ns[0].floor else m
  }

  function MaxFloor(ns: seq<Candidate>): (m: int)
    requires ns != []
    ensures forall c :: c in ns ==> c.floor <= m
    ensures exists c :: c in ns && m == c.floor
  {
    if |ns| == 1 then ns[0].floor
    else
      var m := MaxFloor(ns[1..]);
      assert ns == [ns[0]] + ns[1..];
      if m <= ns[0].floor then ns[0].floor else m
  }

  /** Python's `round` on a float: to the nearest integer, halves to the even one. */
  function RoundHalfEven(x: real): (n: int)
    ensures (n as real) - 0.5 <= x <= (n as real) + 0.5
    ensures x - (x.Floor as real) == 0.5 ==> n % 2 == 0
    ensures x - (x.Floor as real) != 0.5 ==> (n as real) - 0.5 < x < (n as real) + 0.5
  {
    var f := x.Floor;
    var frac := x - f as real;
    if frac < 0.5 then f
    else if frac > 0.5 then f + 1
    else if f % 2 == 0 then f
    else f + 1
  }

  /** Rounding a number between two integers stays between them. */
  lemma {:induction false} RoundWithin(x: real, lo: int, hi: int)
    requires lo as real <= x <= hi as real
    ensures lo <= RoundHalfEven(x) <= hi
  {
    var f := x.Floor;
    assert lo <= f;
    if RoundHalfEven(x) == f + 1 {
      assert x - f as real >= 0.5;
    }
  }

  /** `(lat - est_lat)**2 + (lon - est_lon)**2` for one neighbour. */
  function SquaredOffset(c: Candidate, lat: real, lon: real): (r: real)
    ensures 0.0 <= r
    ensures c.lat == lat && c.lon == lon ==> r == 0.0
  {
    Square(c.lat - lat) + Square(c.lon - lon)
  }

  /** `uncertainty_score`: the summed distance of the neighbours from (lat, lon). */
  function UncertaintySum(sqrt: real -> real, ns: seq<Candidate>, lat: real, lon: real): real
    requires IsSqrt(sqrt)
  {
    if ns == [] then 0.0
    else UncertaintySum(sqrt, ns[..|ns| - 1], lat, lon) + sqrt(SquaredOffset(ns[|ns| - 1], lat, lon))
  }

  lemma {:induction false} UncertaintyNonNegative(sqrt: real -> real, ns: seq<Candidate>, lat: real, lon: real)
    requires IsSqrt(sqrt)
    ensures 0.0 <= UncertaintySum(sqrt, ns, lat, lon)
  {
    if ns != [] {
      UncertaintyNonNegative(sqrt, ns[..|ns| - 1], lat, lon);
    }
  }

  /** Neighbours that all sit on the estimate contribute no uncertainty. */
  lemma {:induction false} UncertaintyAtCommonPoint(sqrt: real -> real, ns: seq<Candidate>, lat: real, lon: real)
    requires IsSqrt(sqrt)
    requires forall c :: c in ns ==> c.lat == lat && c.lon == lon
    ensures UncertaintySum(sqrt, ns, lat, lon) == 0.0
  {
    if ns != [] {
      var init := ns[..|ns| - 1];
      assert forall c :: c in init ==> c in ns;
      UncertaintyAtCommonPoint(sqrt, init, lat, lon);
      assert SquaredOffset(ns[|ns| - 1], lat, lon) == 0.0;
    }
  }

  /** The accumulation loop over `k_nearest`. */
  method AccumulateWeights(ns: seq<Candidate>) returns (weightSum: real, latSum: real, lonSum: real, floorSum: real)
    requires NonNegative(ns)
    ensures weightSum == Total(Weights(ns))
    ensures latSum == Total(Terms(ns, Lat)) && lonSum == Total(Terms(ns, Lon))
    ensures floorSum == Total(Terms(ns, Floor))
  {
    ghost var ws := Weights(ns);
    ghost var lats, lons, floors := Terms(ns, Lat), Terms(ns, Lon), Terms(ns, Floor);
    weightSum, latSum, lonSum, floorSum := 0.0, 0.0, 0.0, 0.0;
    for i := 0 to |ns|
      invariant weightSum == Total(ws[..i])
      invariant latSum == Total(lats[..i]) && lonSum == Total(lons[..i])
      invariant floorSum == Total(floors[..i])
    {
      var item := ns[i];
      assert item in ns;
      var w := 1.0 / (item.dist + Epsilon);
      assert ws[..i + 1][..i] == ws[..i] && ws[i] == w;
      assert lats[..i + 1][..i] == lats[..i] && lats[i] == item.lat * w;
      assert lons[..i + 1][..i] == lons[..i] && lons[i] == item.lon * w;
      assert floors[..i + 1][..i] == floors[..i] && floors[i] == item.floor as real * w;
      latSum := latSum + item.lat * w;
      lonSum := lonSum + item.lon * w;
      floorSum := floorSum + item.floor as real * w;
      weightSum := weightSum + w;
    }
    assert ws[..|ns|] == ws && lats[..|ns|] == lats && lons[..|ns|] == lons && floors[..|ns|] == floors;
  }

  /** The loop over `coords_for_variance`. */
  method Uncertainty(sqrt: real -> real, ns: seq<Candidate>, estLat: real, estLon: real) returns (score: real)
    requires IsSqrt(sqrt)
    ensures score == UncertaintySum(sqrt, ns, estLat, estLon)
    ensures 0.0 <= score
  {
    score := 0.0;
    for i := 0 to |ns|
      invariant score == UncertaintySum(sqrt, ns[..i], estLat, estLon)
    {
      var item := ns[i];
      assert ns[..i + 1][..i] == ns[..i];
      var d := sqrt(Square(item.lat - estLat) + Square(item.lon - estLon));
      score := score + d;
    }
    assert ns[..|ns|] == ns;
    UncertaintyNonNegative(sqrt, ns, estLat, estLon);
  }
}
