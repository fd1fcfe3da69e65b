/**
 * Grouping of the flat database records into fingerprints, as
 * `load_and_structure_db` does: one fingerprint per capture timestamp,
 * holding the position of the scene and the signal strength of every access
 * point seen there. The grouping is built record by record, like the
 * `defaultdict` of the source, and its properties are stated against the
 * first and last occurrences of a timestamp in the input.
 */
module FingerprintDb {
  import opened ScanRecords

  /** One reference scene: a position and a map MAC -> RSSI. */
  datatype Fingerprint = Fingerprint(lat: real, lon: real, floor: int, aps: map<string, int>)

  /**
   * The `grouped_scans` dictionary: its keys in insertion order and the
   * scene stored under each key.
   */
  datatype Grouping = Grouping(order: seq<int>, scenes: map<int, Fingerprint>)

  /** What the `defaultdict` factory creates for a timestamp seen for the first time. */
  const EmptyScene := Fingerprint(0.0, 0.0, 0, map[])

  /** The keys are listed once each, and exactly the keys of `scenes` are listed. */
  ghost predicate WellFormed(g: Grouping)
  {
    && (forall i, j :: 0 <= i < j < |g.order| ==> g.order[i] != g.order[j])
    && (forall i :: 0 <= i < |g.order| ==> g.order[i] in g.scenes)
    && (forall ts :: ts in g.scenes ==> ts in g.order)
  }

  /** The body of the loop over `raw_data`: position overwritten, MAC inserted or overwritten. */
  function GroupStep(g: Grouping, e: DbRecord): (r: Grouping)
    ensures e.timestamp in r.scenes && e.mac in r.scenes[e.timestamp].aps
    ensures r.scenes[e.timestamp].aps[e.mac] == e.rssi
  {
    var ts := e.timestamp;
    var scene := if ts in g.scenes then g.scenes[ts] else EmptyScene;
    Grouping(
      if ts in g.scenes then g.order else g.order + [ts],
      g.scenes[ts := Fingerprint(e.latitude, e.longitude, e.floor, scene.aps[e.mac := e.rssi])])
  }

  /** The grouping after processing `rs` from first to last. */
  function Group(rs: seq<DbRecord>): (g: Grouping)
    ensures WellFormed(g)
    ensures forall ts :: ts in g.scenes ==> g.scenes[ts].aps != map[]
  {
    if rs == [] then Grouping([], map[])
    else GroupStep(Group(rs[..|rs| - 1]), rs[|rs| - 1])
  }

  /** `list(grouped_scans.values())`: the scenes in insertion order of their keys. */
  function Structure(g: Grouping): (db: seq<Fingerprint>)
    requires WellFormed(g)
    ensures |db| == |g.order|
    ensures forall i :: 0 <= i < |db| ==> db[i] == g.scenes[g.order[i]]
  {
    seq(|g.order|, i requires 0 <= i < |g.order| => g.scenes[g.order[i]])
  }

  ghost predicate Appears(rs: seq<DbRecord>, ts: int)
  {
    exists i :: 0 <= i < |rs| && rs[i].timestamp == ts
  }

  ghost predicate AppearsWith(rs: seq<DbRecord>, ts: int, mac: string)
  {
    exists i :: 0 <= i < |rs| && rs[i].timestamp == ts && rs[i].mac == mac
  }

  /** Index of the first record carrying timestamp `ts`. */
  ghost function FirstIndex(rs: seq<DbRecord>, ts: int): (k: nat)
    requires Appears(rs, ts)
    ensures k < |rs| && rs[k].timestamp == ts
    ensures forall j :: 0 <= j < k ==> rs[j].timestamp != ts
  {
    if Appears(rs[..|rs| - 1], ts) then FirstIndex(rs[..|rs| - 1], ts) else |rs| - 1
  }

  /** Index of the last record carrying timestamp `ts`. */
  ghost function LastIndex(rs: seq<DbRecord>, ts: int): (k: nat)
    requires Appears(rs, ts)
    ensures k < |rs| && rs[k].timestamp == ts
    ensures forall j :: k < j < |rs| ==> rs[j].timestamp != ts
  {
    if rs[|rs| - 1].timestamp == ts then |rs| - 1
    else
      assert Appears(rs[..|rs| - 1], ts) by {
        var i :| 0 <= i < |rs| && rs[i].timestamp == ts;
        assert rs[..|rs| - 1][i] == rs[i];
      }
      LastIndex(rs[..|rs| - 1], ts)
  }

  /** Index of the last record carrying timestamp `ts` and MAC `mac`. */
  ghost function LastIndexWith(rs: seq<DbRecord>, ts: int, mac: string): (k: nat)
    requires AppearsWith(rs, ts, mac)
    ensures k < |rs| && rs[k].timestamp == ts && rs[k].mac == mac
    ensures forall j :: k < j < |rs| ==> !(rs[j].timestamp == ts && rs[j].mac == mac)
  {
    var e := rs[|rs| - 1];
    if e.timestamp == ts && e.mac == mac then |rs| - 1
    else
      assert AppearsWith(rs[..|rs| - 1], ts, mac) by {
        var i :| 0 <= i < |rs| && rs[i].timestamp == ts && rs[i].mac == mac;
        assert rs[..|rs| - 1][i] == rs[i];
      }
      LastIndexWith(rs[..|rs| - 1], ts, mac)
  }

  lemma {:induction false} AppearsInPrefix(rs: seq<DbRecord>, ts: int)
    requires rs != []
    ensures Appears(rs, ts) <==> Appears(rs[..|rs| - 1], ts) || rs[|rs| - 1].timestamp == ts
  {
    if Appears(rs[..|rs| - 1], ts) {
      var i :| 0 <= i < |rs| - 1 && rs[..|rs| - 1][i].timestamp == ts;
      assert rs[i].timestamp == ts;
    }
    if Appears(rs, ts) && rs[|rs| - 1].timestamp != ts {
      var i :| 0 <= i < |rs| && rs[i].timestamp == ts;
      assert rs[..|rs| - 1][i] == rs[i];
    }
  }

  lemma {:induction false} AppearsWithInPrefix(rs: seq<DbRecord>, ts: int, mac: string)
    requires rs != []
    ensures AppearsWith(rs, ts, mac) <==>
              AppearsWith(rs[..|rs| - 1], ts, mac) || (rs[|rs| - 1].timestamp == ts && rs[|rs| - 1].mac == mac)
  {
    if AppearsWith(rs[..|rs| - 1], ts, mac) {
      var i :| 0 <= i < |rs| - 1 && rs[..|rs| - 1][i].timestamp == ts && rs[..|rs| - 1][i].mac == mac;
      assert rs[i] == rs[..|rs| - 1][i];
    }
    if AppearsWith(rs, ts, mac) && !(rs[|rs| - 1].timestamp == ts && rs[|rs| - 1].mac == mac) {
      var i :| 0 <= i < |rs| && rs[i].timestamp == ts && rs[i].mac == mac;
      assert rs[..|rs| - 1][i] == rs[i];
    }
  }

  /** Exactly the timestamps of the input become fingerprints. */
  lemma {:induction false} GroupKeys(rs: seq<DbRecord>, ts: int)
    ensures ts in Group(rs).scenes <==> Appears(rs, ts)
  {
    if rs != [] {
      GroupKeys(rs[..|rs| - 1], ts);
      AppearsInPrefix(rs, ts);
    }
  }

  /** Fingerprints are listed in the order in which their timestamps first appear. */
  lemma {:induction false} GroupOrderIsFirstAppearance(rs: seq<DbRecord>, p: nat, q: nat)
    requires p < q < |Group(rs).order|
    ensures Appears(rs, Group(rs).order[p]) && Appears(rs, Group(rs).order[q])
    ensures FirstIndex(rs, Group(rs).order[p]) < FirstIndex(rs, Group(rs).order[q])
  {
    var init := rs[..|rs| - 1];
    var e := rs[|rs| - 1];
    var g0 := Group(init);
    var order := Group(rs).order;
    GroupKeys(rs, order[p]);
    GroupKeys(rs, order[q]);
    if e.timestamp in g0.scenes || q < |g0.order| {
      assert order[p] == g0.order[p] && order[q] == g0.order[q];
      GroupOrderIsFirstAppearance(init, p, q);
      AppearsInPrefix(rs, order[p]);
      AppearsInPrefix(rs, order[q]);
      FirstIndexOfPrefix(rs, order[p]);
      FirstIndexOfPrefix(rs, order[q]);
    } else {
      // order[q] is the timestamp of the last record, seen for the first time there
      assert order[q] == e.timestamp;
      GroupKeys(init, e.timestamp);
      GroupKeys(init, order[p]);
      assert order[p] == g0.order[p];
      AppearsInPrefix(rs, order[q]);
      FirstIndexOfPrefix(rs, order[p]);
    }
  }

  lemma {:induction false} FirstIndexOfPrefix(rs: seq<DbRecord>, ts: int)
    requires rs != [] && Appears(rs[..|rs| - 1], ts)
    ensures Appears(rs, ts)
    ensures FirstIndex(rs, ts) == FirstIndex(rs[..|rs| - 1], ts)
  {
    AppearsInPrefix(rs, ts);
  }

  /** The position of a fingerprint comes from the last record with its timestamp. */
  lemma {:induction false} GroupPositionFromLastRecord(rs: seq<DbRecord>, ts: int)
    requires ts in Group(rs).scenes
    ensures Appears(rs, ts)
    ensures var e := rs[LastIndex(rs, ts)];
            var fp := Group(rs).scenes[ts];
            fp.lat == e.latitude && fp.lon == e.longitude && fp.floor == e.floor
  {
    GroupKeys(rs, ts);
    var init := rs[..|rs| - 1];
    if rs[|rs| - 1].timestamp != ts {
      GroupKeys(init, ts);
      AppearsInPrefix(rs, ts);
      GroupPositionFromLastRecord(init, ts);
      assert LastIndex(rs, ts) == LastIndex(init, ts);
    }
  }

  /**
   * A fingerprint holds exactly the MACs recorded under its timestamp, each
   * with the RSSI of the last such record.
   */
  lemma {:induction false} GroupSignalsFromLastRecord(rs: seq<DbRecord>, ts: int, mac: string)
    requires ts in Group(rs).scenes
    ensures mac in Group(rs).scenes[ts].aps <==> AppearsWith(rs, ts, mac)
    ensures mac in Group(rs).scenes[ts].aps ==>
              Group(rs).scenes[ts].aps[mac] == rs[LastIndexWith(rs, ts, mac)].rssi
  {
    var init := rs[..|rs| - 1];
    var e := rs[|rs| - 1];
    var g0 := Group(init);
    AppearsWithInPrefix(rs, ts, mac);
    if e.timestamp == ts {
      if ts in g0.scenes {
        GroupSignalsFromLastRecord(init, ts, mac);
      } else {
        GroupKeys(init, ts);
      }
    } else {
      GroupSignalsFromLastRecord(init, ts, mac);
      if AppearsWith(rs, ts, mac) {
        assert LastIndexWith(rs, ts, mac) == LastIndexWith(init, ts, mac);
      }
    }
  }
}
