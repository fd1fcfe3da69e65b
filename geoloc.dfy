/**
 * The geolocation server (server_geoloc.py): it loads the tagged database
 * into fingerprints, buffers the readings the ESP32 streams in, and answers
 * position requests with a weighted k-nearest-neighbours estimate.
 *
 * `Estimate` is the specification of `calculate_position`, built from the
 * pieces of the other modules; the lemmas below state what the estimate
 * promises (when there is one, how its neighbours are chosen, that it lies
 * inside their bounding box, that it is exact when they agree). The class
 * `GeolocServer` holds the module-level state of the server and its methods
 * are proved against these functions. The clock and `math.sqrt` are
 * parameters.
 */
module Geoloc {
  import opened Wrappers
  import opened ScanRecords
  import opened FingerprintDb
  import opened SignalDistance
  import opened Neighbours
  import opened Centroid
  import opened RealSums

  /** Readings further apart than this many seconds start a new scan. */
  const ResetAfter: real := 2.0

  /** With no reading for this many seconds the tracker is reported offline. */
  const OfflineAfter: real := 10.0

  /** The dictionary returned by `calculate_position`. */
  datatype Position = Position(lat: real, lon: real, floor: int, accuracy: real, neighborsDist: seq<real>)

  /** The three answers of /api/get_position. */
  datatype Status = Offline | Tracking(data: Position) | Calibrating

  /** How `load_and_structure_db` ended. */
  datatype LoadOutcome = NoDatabase | LoadFailed | Loaded

  // ---------------------------------------------------------------------
  // Specification of calculate_position

  /** The entry of `distances` made for one fingerprint. */
  ghost function CandidateOf(sqrt: real -> real, live: map<string, int>, fp: Fingerprint): Candidate
    requires IsSqrt(sqrt)
  {
    Candidate(Distance(sqrt, live, fp.aps), fp.lat, fp.lon, fp.floor)
  }

  /** The `distances` list, one entry per fingerprint, in database order. */
  ghost function Candidates(sqrt: real -> real, live: map<string, int>, db: seq<Fingerprint>): seq<Candidate>
    requires IsSqrt(sqrt)
  {
    seq(|db|, i requires 0 <= i < |db| => CandidateOf(sqrt, live, db[i]))
  }

  /** `k_nearest`. */
  ghost function Nearest(sqrt: real -> real, live: map<string, int>, db: seq<Fingerprint>): seq<Candidate>
    requires IsSqrt(sqrt)
  {
    KNearest(Candidates(sqrt, live, db))
  }

  /** `[x['dist'] for x in k_nearest]`. */
  function Dists(ns: seq<Candidate>): seq<real>
  {
    seq(|ns|, i requires 0 <= i < |ns| => ns[i].dist)
  }

  /** The body of step 1 of `calculate_position`: the `distances` entry for the fingerprint `fp`. */
  method FingerprintDistance(live: map<string, int>, fp: Fingerprint, sqrt: real -> real) returns (c: Candidate)
    requires IsSqrt(sqrt)
    ensures c == CandidateOf(sqrt, live, fp)
  {
    var distSqSum, commonCount := SquaredDistance(live, fp.aps);
    var finalDist;
    if commonCount == 0 {
      finalDist := NoMatchDistance;
    } else {
      finalDist := sqrt(distSqSum as real);
    }
    c := Candidate(finalDist, fp.lat, fp.lon, fp.floor);
  }

  /** Every neighbour is the entry of some fingerprint. */
  lemma {:induction false} NearestFromDb(sqrt: real -> real, live: map<string, int>, db: seq<Fingerprint>)
    requires IsSqrt(sqrt)
    ensures forall c :: c in Nearest(sqrt, live, db) ==>
              exists i :: 0 <= i < |db| && c == CandidateOf(sqrt, live, db[i])
  {
    var cs := Candidates(sqrt, live, db);
    KNearestSorted(cs);
    forall c | c in Nearest(sqrt, live, db)
      ensures exists i :: 0 <= i < |db| && c == CandidateOf(sqrt, live, db[i])
    {
      assert c in multiset(Nearest(sqrt, live, db));
      assert c in multiset(cs);
      var i :| 0 <= i < |cs| && cs[i] == c;
    }
  }

  lemma {:induction false} NearestNonNegative(sqrt: real -> real, live: map<string, int>, db: seq<Fingerprint>)
    requires IsSqrt(sqrt)
    ensures NonNegative(Nearest(sqrt, live, db))
  {
    NearestFromDb(sqrt, live, db);
    forall c | c in Nearest(sqrt, live, db)
      ensures 0.0 <= c.dist
    {
      var i :| 0 <= i < |db| && c == CandidateOf(sqrt, live, db[i]);
      DistanceCases(sqrt, live, db[i].aps);
    }
  }

  /** What `calculate_position(live)` returns over the fingerprint list `db`. */
  ghost function Estimate(sqrt: real -> real, live: map<string, int>, db: seq<Fingerprint>): Option<Position>
    requires IsSqrt(sqrt)
  {
    if db == [] || live == map[] then None
    else
      NearestNonNegative(sqrt, live, db);
      EstimateFrom(sqrt, Nearest(sqrt, live, db))
  }

  /** Steps 4 and 5 of `calculate_position` once the neighbours `ns` are chosen. */
  ghost function EstimateFrom(sqrt: real -> real, ns: seq<Candidate>): Option<Position>
    requires IsSqrt(sqrt) && NonNegative(ns)
  {
    Centre(sqrt, ns, Total(Weights(ns)), Total(Terms(ns, Lat)), Total(Terms(ns, Lon)), Total(Terms(ns, Floor)))
  }

  /** The estimate from the neighbours `ns` and the four sums accumulated over them. */
  function Centre(sqrt: real -> real, ns: seq<Candidate>, weightSum: real, latSum: real, lonSum: real, floorSum: real): Option<Position>
    requires IsSqrt(sqrt)
  {
    if weightSum == 0.0 then None
    else
      var lat := latSum / weightSum;
      var lon := lonSum / weightSum;
      var accuracy := UncertaintySum(sqrt, ns, lat, lon) / (KNeighbors as real) * MetersPerDegree;
      Some(Position(lat, lon, RoundHalfEven(floorSum / weightSum), accuracy, Dists(ns)))
  }

  /** The weight sum of the neighbours is positive whenever there is a fingerprint. */
  lemma {:induction false} NearestWeightPositive(sqrt: real -> real, live: map<string, int>, db: seq<Fingerprint>)
    requires IsSqrt(sqrt) && db != []
    ensures Nearest(sqrt, live, db) != []
    ensures NonNegative(Nearest(sqrt, live, db))
    ensures 0.0 < Total(Weights(Nearest(sqrt, live, db)))
  {
    var ns := Nearest(sqrt, live, db);
    assert |ns| == Min(KNeighbors, |db|);
    NearestNonNegative(sqrt, live, db);
    WeightSumPositive(ns);
  }

  /**
   * There is a position exactly when the database and the live scan are both
   * non-empty: the `weight_sum == 0` branch is never taken.
   */
  lemma {:induction false} EstimateNoneIff(sqrt: real -> real, live: map<string, int>, db: seq<Fingerprint>)
    requires IsSqrt(sqrt)
    ensures Estimate(sqrt, live, db).None? <==> db == [] || live == map[]
  {
    if db != [] && live != map[] {
      NearestWeightPositive(sqrt, live, db);
    }
  }

  /**
   * The reported neighbour distances are the `K_NEIGHBORS` smallest (all of
   * them when the database is smaller), in increasing order, and no
   * fingerprint left out is closer than a selected one.
   */
  lemma {:induction false} EstimateNeighbours(sqrt: real -> real, live: map<string, int>, db: seq<Fingerprint>)
    requires IsSqrt(sqrt)
    ensures Estimate(sqrt, live, db).Some? ==>
              var ds := Estimate(sqrt, live, db).value.neighborsDist;
              && |ds| == Min(KNeighbors, |db|)
              && (forall i, j :: 0 <= i < j < |ds| ==> ds[i] <= ds[j])
              && (forall i, c :: 0 <= i < |ds| && c in multiset(Candidates(sqrt, live, db)) - multiset(Nearest(sqrt, live, db))
                    ==> ds[i] <= c.dist)
  {
    if Estimate(sqrt, live, db).Some? {
      var cs, ns := Candidates(sqrt, live, db), Nearest(sqrt, live, db);
      var ds := Estimate(sqrt, live, db).value.neighborsDist;
      assert ds == Dists(ns);
      KNearestSorted(cs);
      KNearestAreNearest(cs);
      forall i, c: Candidate | 0 <= i < |ds| && c in multiset(cs) - multiset(ns)
        ensures ds[i] <= c.dist
      {
        assert ns[i] in ns;
      }
    }
  }

  /** The floor average is the weighted mean of the neighbours' floors, rounded, so it is between their lowest and highest. */
  lemma {:induction false} FloorWithin(ns: seq<Candidate>, w: real)
    requires NonNegative(ns) && ns != [] && w == Total(Weights(ns))
    ensures 0.0 < w
    ensures MinFloor(ns) <= RoundHalfEven(Total(Terms(ns, Floor)) / w) <= MaxFloor(ns)
  {
    var lo, hi := MinFloor(ns), MaxFloor(ns);
    AverageWithin(ns, Floor, lo as real, hi as real);
    RoundWithin(Total(Terms(ns, Floor)) / w, lo, hi);
  }

  /**
   * A weighted average of neighbours lies in their bounding box, on a floor
   * between theirs, with a non-negative accuracy.
   */
  lemma {:induction false} EstimateFromWithin(sqrt: real -> real, ns: seq<Candidate>)
    requires IsSqrt(sqrt) && NonNegative(ns) && ns != []
    ensures EstimateFrom(sqrt, ns).Some?
    ensures var p := EstimateFrom(sqrt, ns).value;
            && MinCoord(ns, Lat) <= p.lat <= MaxCoord(ns, Lat)
            && MinCoord(ns, Lon) <= p.lon <= MaxCoord(ns, Lon)
            && MinFloor(ns) <= p.floor <= MaxFloor(ns)
            && 0.0 <= p.accuracy
            && p.neighborsDist == Dists(ns)
  {
    WeightSumPositive(ns);
    var p := EstimateFrom(sqrt, ns).value;
    AverageWithin(ns, Lat, MinCoord(ns, Lat), MaxCoord(ns, Lat));
    AverageWithin(ns, Lon, MinCoord(ns, Lon), MaxCoord(ns, Lon));
    FloorWithin(ns, Total(Weights(ns)));
    UncertaintyNonNegative(sqrt, ns, p.lat, p.lon);
  }

  /**
   * The estimate lies in the bounding box of its neighbours, on a floor
   * between theirs, with a non-negative accuracy.
   */
  lemma {:induction false} EstimateWithinNeighbours(sqrt: real -> real, live: map<string, int>, db: seq<Fingerprint>)
    requires IsSqrt(sqrt)
    ensures Estimate(sqrt, live, db).Some? ==>
              var p := Estimate(sqrt, live, db).value;
              var ns := Nearest(sqrt, live, db);
              && ns != []
              && MinCoord(ns, Lat) <= p.lat <= MaxCoord(ns, Lat)
              && MinCoord(ns, Lon) <= p.lon <= MaxCoord(ns, Lon)
              && MinFloor(ns) <= p.floor <= MaxFloor(ns)
              && 0.0 <= p.accuracy
  {
    if Estimate(sqrt, live, db).Some? {
      NearestWeightPositive(sqrt, live, db);
      EstimateFromWithin(sqrt, Nearest(sqrt, live, db));
    }
  }

  /** Neighbours all at one place average to that place, with no uncertainty. */
  lemma {:induction false} EstimateFromCommonPoint(sqrt: real -> real, ns: seq<Candidate>, lat: real, lon: real, floor: int)
    requires IsSqrt(sqrt) && NonNegative(ns) && ns != []
    requires forall c :: c in ns ==> c.lat == lat && c.lon == lon && c.floor == floor
    ensures EstimateFrom(sqrt, ns) == Some(Position(lat, lon, floor, 0.0, Dists(ns)))
  {
    var w := Total(Weights(ns));
    AverageWithin(ns, Lat, lat, lat);
    AverageWithin(ns, Lon, lon, lon);
    AverageWithin(ns, Floor, floor as real, floor as real);
    RoundWithin(Total(Terms(ns, Floor)) / w, floor, floor);
    UncertaintyAtCommonPoint(sqrt, ns, lat, lon);
  }

  /**
   * When every fingerprint was taken at the same place, the estimate is that
   * place, with accuracy zero.
   */
  lemma {:induction false} EstimateAtCommonPosition(
    sqrt: real -> real, live: map<string, int>, db: seq<Fingerprint>, lat: real, lon: real, floor: int)
    requires IsSqrt(sqrt) && db != [] && live != map[]
    requires forall i :: 0 <= i < |db| ==> db[i].lat == lat && db[i].lon == lon && db[i].floor == floor
    ensures Estimate(sqrt, live, db) == Some(Position(lat, lon, floor, 0.0, Dists(Nearest(sqrt, live, db))))
  {
    var ns := Nearest(sqrt, live, db);
    NearestFromDb(sqrt, live, db);
    forall c | c in ns
      ensures c.lat == lat && c.lon == lon && c.floor == floor
    {
      var i :| 0 <= i < |db| && c == CandidateOf(sqrt, live, db[i]);
    }
    NearestWeightPositive(sqrt, live, db);
    EstimateFromCommonPoint(sqrt, ns, lat, lon, floor);
  }

  /**
   * A fingerprint that holds every live MAC with the same RSSI is at signal
   * distance zero, so the closest reported neighbour is at distance zero.
   */
  lemma {:induction false} ExactMatchIsNearest(sqrt: real -> real, live: map<string, int>, db: seq<Fingerprint>, k: int)
    requires IsSqrt(sqrt) && live != map[] && 0 <= k < |db|
    requires forall mac :: mac in live ==> mac in db[k].aps && db[k].aps[mac] == live[mac]
    ensures Estimate(sqrt, live, db).Some?
    ensures Estimate(sqrt, live, db).value.neighborsDist[0] == 0.0
  {
    var cs, ns := Candidates(sqrt, live, db), Nearest(sqrt, live, db);
    EstimateNoneIff(sqrt, live, db);
    NearestWeightPositive(sqrt, live, db);
    ExactMatchDistance(sqrt, live, db[k].aps);
    var c := cs[k];
    assert c.dist == 0.0;
    assert ns[0] in ns;
    KNearestSorted(cs);
    if c in multiset(cs) - multiset(ns) {
      KNearestAreNearest(cs);
    } else {
      assert c in multiset(cs);
      assert c in multiset(ns);
      var j :| 0 <= j < |ns| && ns[j] == c;
      assert ns[0].dist <= ns[j].dist;
    }
    assert Estimate(sqrt, live, db).value.neighborsDist == Dists(ns);
  }

  // ---------------------------------------------------------------------
  // The live-scan buffer

  /** `current_live_scan` after one reading arrives at time `now`. */
  function Buffered(scan: map<string, int>, last: real, now: real, data: WifiData): (m: map<string, int>)
    ensures data.mac in m && m[data.mac] == data.rssi
    ensures now - last > ResetAfter ==> m.Keys == {data.mac}
    ensures now - last <= ResetAfter ==> m.Keys == scan.Keys + {data.mac}
    ensures now - last <= ResetAfter ==>
              forall mac :: mac in scan && mac != data.mac ==> m[mac] == scan[mac]
  {
    (if now - last > ResetAfter then map[] else scan)[data.mac := data.rssi]
  }

  /** A reading and the time it arrived. */
  datatype Packet = Packet(data: WifiData, at: real)

  /** The time of the latest reading, starting from `last`. */
  function LastTime(last: real, ps: seq<Packet>): real
  {
    if ps == [] then last else ps[|ps| - 1].at
  }

  /** The buffer after the readings `ps` arrive one by one. */
  function Replay(scan: map<string, int>, last: real, ps: seq<Packet>): map<string, int>
  {
    if ps == [] then scan
    else
      var init := ps[..|ps| - 1];
      Buffered(Replay(scan, last, init), LastTime(last, init), ps[|ps| - 1].at, ps[|ps| - 1].data)
  }

  /** The MACs of the readings `ps`. */
  function Macs(ps: seq<Packet>): set<string>
  {
    if ps == [] then {} else Macs(ps[..|ps| - 1]) + {ps[|ps| - 1].data.mac}
  }

  /** The time between reading `i` and the one before it (or `last`). */
  function Gap(last: real, ps: seq<Packet>, i: int): real
    requires 0 <= i < |ps|
  {
    ps[i].at - (if i == 0 then last else ps[i - 1].at)
  }

  /** A burst of readings, each at most two seconds after the previous one, adds every MAC to the buffer. */
  lemma {:induction false} BurstCollects(scan: map<string, int>, last: real, ps: seq<Packet>)
    requires forall i :: 0 <= i < |ps| ==> Gap(last, ps, i) <= ResetAfter
    ensures Replay(scan, last, ps).Keys == scan.Keys + Macs(ps)
  {
    if ps != [] {
      var init := ps[..|ps| - 1];
      forall i | 0 <= i < |init|
        ensures Gap(last, init, i) <= ResetAfter
      {
        assert Gap(last, init, i) == Gap(last, ps, i);
      }
      BurstCollects(scan, last, init);
      assert Gap(last, ps, |ps| - 1) == ps[|ps| - 1].at - LastTime(last, init);
    }
  }

  /** After a pause of more than two seconds, the buffer holds only MACs read since the pause. */
  lemma {:induction false} PauseResets(scan: map<string, int>, last: real, ps: seq<Packet>, k: int)
    requires 0 <= k < |ps| && Gap(last, ps, k) > ResetAfter
    ensures Replay(scan, last, ps).Keys <= Macs(ps[k..])
  {
    var init := ps[..|ps| - 1];
    var e := ps[|ps| - 1];
    assert ps[k..][..|ps[k..]| - 1] == init[k..] by {
      if k < |ps| - 1 {
        assert ps[k..][..|ps[k..]| - 1] == ps[k..|ps| - 1];
      }
    }
    assert Macs(ps[k..]) == Macs(init[k..]) + {e.data.mac};
    if k == |ps| - 1 {
      assert Gap(last, ps, k) == e.at - LastTime(last, init);
    } else {
      assert Gap(last, init, k) == Gap(last, ps, k);
      PauseResets(scan, last, init, k);
    }
  }

  /** Steps 4 and 5 of `calculate_position`: the weighted average of `k_nearest` and its uncertainty. */
  method WeightedAverage(kNearest: seq<Candidate>, sqrt: real -> real) returns (r: Option<Position>)
    requires IsSqrt(sqrt) && NonNegative(kNearest)
    ensures r == EstimateFrom(sqrt, kNearest)
  {
    var weightSum, latSum, lonSum, floorSum := AccumulateWeights(kNearest);
    r := Centred(kNearest, sqrt, weightSum, latSum, lonSum, floorSum);
  }

  /** From `if weight_sum == 0` to the returned dictionary. */
  method Centred(kNearest: seq<Candidate>, sqrt: real -> real, weightSum: real, latSum: real, lonSum: real, floorSum: real)
    returns (r: Option<Position>)
    requires IsSqrt(sqrt)
    ensures r == Centre(sqrt, kNearest, weightSum, latSum, lonSum, floorSum)
  {
    if weightSum == 0.0 {
      return None;
    }
    var estLat := latSum / weightSum;
    var estLon := lonSum / weightSum;
    var estFloor := RoundHalfEven(floorSum / weightSum);
    var score := Uncertainty(sqrt, kNearest, estLat, estLon);
    var accuracy := score / (KNeighbors as real) * MetersPerDegree;
    r := Some(Position(estLat, estLon, estFloor, accuracy, Dists(kNearest)));
  }

  // ---------------------------------------------------------------------
  // The server

  /** The module-level state of server_geoloc.py and its handlers. */
  class GeolocServer {
    /** `fingerprint_db`. */
    var fingerprintDb: seq<Fingerprint>
    /** `current_live_scan`: MAC -> RSSI of the scan being received. */
    var currentLiveScan: map<string, int>
    /** `last_scan_update`: the arrival time of the latest reading. */
    var lastScanUpdate: real

    constructor ()
      ensures fingerprintDb == [] && currentLiveScan == map[] && lastScanUpdate == 0.0
    {
      fingerprintDb := [];
      currentLiveScan := map[];
      lastScanUpdate := 0.0;
    }

    /**
     * `load_and_structure_db`: with no file nothing changes. A file that
     * cannot be read, or whose JSON value cannot be iterated as records,
     * makes the load raise, also without change. An empty object or string
     * iterates over nothing, so it loads no fingerprint. A list of records is
     * grouped by timestamp.
     */
    method LoadAndStructureDb(file: DbFile) returns (outcome: LoadOutcome)
      modifies this
      ensures file.Missing? ==> outcome == NoDatabase && fingerprintDb == old(fingerprintDb)
      ensures file.Unreadable? ==> outcome == LoadFailed && fingerprintDb == old(fingerprintDb)
      ensures file.NotAList? && !file.empty ==> outcome == LoadFailed && fingerprintDb == old(fingerprintDb)
      ensures file.NotAList? && file.empty ==> outcome == Loaded && fingerprintDb == []
      ensures file.Present? ==> outcome == Loaded && fingerprintDb == Structure(Group(file.records))
      ensures currentLiveScan == old(currentLiveScan) && lastScanUpdate == old(lastScanUpdate)
    {
      if file.Missing? {
        return NoDatabase;
      }
      if file.Unreadable? || (file.NotAList? && !file.empty) {
        return LoadFailed;
      }
      if file.NotAList? {
        fingerprintDb := Structure(Grouping([], map[]));
        return Loaded;
      }
      var rs := file.records;
      var order: seq<int>, scenes: map<int, Fingerprint> := [], map[];
      for i := 0 to |rs|
        invariant Grouping(order, scenes) == Group(rs[..i])
      {
        var entry := rs[i];
        var ts := entry.timestamp;
        var scene := if ts in scenes then scenes[ts] else EmptyScene;
        if ts !in scenes {
          order := order + [ts];
        }
        scenes := scenes[ts := Fingerprint(entry.latitude, entry.longitude, entry.floor, scene.aps[entry.mac := entry.rssi])];
        assert rs[..i + 1][..i] == rs[..i];
      }
      assert rs[..|rs|] == rs;
      fingerprintDb := Structure(Grouping(order, scenes));
      outcome := Loaded;
    }

    /** `calculate_position(live_aps)` over the loaded fingerprints. */
    method CalculatePosition(live: map<string, int>, sqrt: real -> real) returns (r: Option<Position>)
      requires IsSqrt(sqrt)
      ensures r == Estimate(sqrt, live, fingerprintDb)
    {
      if |fingerprintDb| == 0 || |live| == 0 {
        return None;
      }
      var distances := SignalDistances(live, sqrt);
      var kNearest := KNearest(distances);
      NearestNonNegative(sqrt, live, fingerprintDb);
      r := WeightedAverage(kNearest, sqrt);
    }

    /** Step 1 of `calculate_position`: one entry of `distances` per fingerprint. */
    method SignalDistances(live: map<string, int>, sqrt: real -> real) returns (distances: seq<Candidate>)
      requires IsSqrt(sqrt)
      ensures distances == Candidates(sqrt, live, fingerprintDb)
    {
      distances := [];
      for i := 0 to |fingerprintDb|
        invariant |distances| == i
        invariant forall j :: 0 <= j < i ==> distances[j] == CandidateOf(sqrt, live, fingerprintDb[j])
      {
        var c := FingerprintDistance(live, fingerprintDb[i], sqrt);
        distances := distances + [c];
      }
    }

    /** POST /api/raw_scan: buffer one reading that arrived at time `now`. */
    method ReceiveLiveData(data: WifiData, now: real)
      modifies this
      ensures currentLiveScan == Buffered(old(currentLiveScan), old(lastScanUpdate), now, data)
      ensures lastScanUpdate == now && fingerprintDb == old(fingerprintDb)
    {
      if now - lastScanUpdate > ResetAfter {
        currentLiveScan := map[];
      }
      currentLiveScan := currentLiveScan[data.mac := data.rssi];
      lastScanUpdate := now;
    }

    /** GET /api/get_position at time `now`. */
    method GetPositionJson(now: real, sqrt: real -> real) returns (s: Status)
      requires IsSqrt(sqrt)
      ensures s.Offline? <==> now - lastScanUpdate > OfflineAfter
      ensures s.Calibrating? <==>
                now - lastScanUpdate <= OfflineAfter && Estimate(sqrt, currentLiveScan, fingerprintDb).None?
      ensures s.Tracking? ==> Estimate(sqrt, currentLiveScan, fingerprintDb) == Some(s.data)
    {
      if now - lastScanUpdate > OfflineAfter {
        return Offline;
      }
      var position := CalculatePosition(currentLiveScan, sqrt);
      if position.Some? {
        s := Tracking(position.value);
      } else {
        s := Calibrating;
      }
    }
  }
}
