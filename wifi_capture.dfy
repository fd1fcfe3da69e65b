/**
 * The capture server (server_wifi_capture.py): readings posted by the ESP32
 * wait in `pending_scans`, grouped by their scan timestamp, until an
 * operator tags a scan with the position where it was taken; the tagged
 * readings are then appended to the JSON database that the geolocation
 * server loads.
 */
module WifiCapture {
  import opened ScanRecords
  import opened FingerprintDb

  /**
   * How POST /tag_scan ends: the scan was saved, the timestamp was not
   * pending (a plain redirect), or the save raised.
   */
  datatype TagOutcome = Saved | NotPending | SaveFailed

  /** One line of the list shown by the home page (the formatted time is left out). */
  datatype ScanSummary = ScanSummary(ts: int, count: nat)

  /**
   * The records `save_to_json_db` extends: those of a readable list, none
   * when the file is absent or unreadable (a value that is not a list makes
   * the save fail before they are used).
   */
  function StoredRecords(file: DbFile): (rs: seq<DbRecord>)
    ensures file.Present? ==> rs == file.records
    ensures !file.Present? ==> rs == []
  {
    match file
    case Present(records) => records
    case _ => []
  }

  /** `geolocated_data`: every reading of `ws`, in order, tagged with the same position. */
  function Tagged(ws: seq<WifiData>, lat: real, lon: real, floor: int): (ds: seq<DbRecord>)
    ensures |ds| == |ws|
    ensures forall i :: 0 <= i < |ds| ==>
              Reading(ds[i]) == ws[i] && ds[i].latitude == lat && ds[i].longitude == lon && ds[i].floor == floor
  {
    seq(|ws|, i requires 0 <= i < |ws| => Enrich(ws[i], lat, lon, floor))
  }

  /** The readings a list of stored records was made from. */
  function Readings(ds: seq<DbRecord>): seq<WifiData>
  {
    seq(|ds|, i requires 0 <= i < |ds| => Reading(ds[i]))
  }

  /** Tagging loses nothing: the tagged records give back the readings. */
  lemma {:induction false} ReadingsOfTagged(ws: seq<WifiData>, lat: real, lon: real, floor: int)
    ensures Readings(Tagged(ws, lat, lon, floor)) == ws
  {
    var ds := Tagged(ws, lat, lon, floor);
    assert |Readings(ds)| == |ws|;
    forall i | 0 <= i < |ws|
      ensures Readings(ds)[i] == ws[i]
    {
      assert Reading(ds[i]) == ws[i];
    }
  }

  /** Every element of `xs` is strictly greater than the next. */
  ghost predicate StrictlyDescending(xs: seq<ScanSummary>)
  {
    forall i, j :: 0 <= i < j < |xs| ==> xs[i].ts > xs[j].ts
  }

  /** A non-empty set of timestamps has a member. */
  lemma {:induction false} HasElement(s: set<int>)
    requires s != {}
    ensures exists x :: x in s
  {
    if forall x :: x !in s {
      assert false;
    }
  }

  /** The timestamps listed in `xs`. */
  ghost function Timestamps(xs: seq<ScanSummary>): set<int>
  {
    set i | 0 <= i < |xs| :: xs[i].ts
  }

  lemma {:induction false} TimestampsAppend(xs: seq<ScanSummary>, x: ScanSummary)
    ensures Timestamps(xs + [x]) == Timestamps(xs) + {x.ts}
  {
    var ys := xs + [x];
    assert ys[|xs|] == x;
    assert forall i :: 0 <= i < |xs| ==> ys[i] == xs[i];
  }

  /** The pending scans `xs` lists are listed with the length of their reading lists. */
  ghost predicate Counted(pending: map<int, seq<WifiData>>, xs: seq<ScanSummary>)
  {
    forall i :: 0 <= i < |xs| ==> xs[i].ts in pending && xs[i].count == |pending[xs[i].ts]|
  }

  /** One step of the loop of `home`: listing the largest remaining timestamp keeps the list in order. */
  lemma {:induction false} HomeStep(pending: map<int, seq<WifiData>>, xs: seq<ScanSummary>, remaining: set<int>, ts: int)
    requires remaining + Timestamps(xs) == pending.Keys && Counted(pending, xs)
    requires StrictlyDescending(xs)
    requires forall i, t :: 0 <= i < |xs| && t in remaining ==> t < xs[i].ts
    requires ts in remaining && forall t :: t in remaining ==> t <= ts
    ensures var ys := xs + [ScanSummary(ts, |pending[ts]|)];
            && (remaining - {ts}) + Timestamps(ys) == pending.Keys && Counted(pending, ys)
            && StrictlyDescending(ys)
            && forall i, t :: 0 <= i < |ys| && t in remaining - {ts} ==> t < ys[i].ts
  {
    var ys := xs + [ScanSummary(ts, |pending[ts]|)];
    TimestampsAppend(xs, ScanSummary(ts, |pending[ts]|));
    assert forall i :: 0 <= i < |xs| ==> ys[i] == xs[i];
    assert ys[|xs|].ts == ts;
  }

  /** The largest element of a non-empty finite set of timestamps. */
  ghost function Largest(s: set<int>): (m: int)
    requires s != {}
    ensures m in s && forall t :: t in s ==> t <= m
    decreases s
  {
    HasElement(s);
    var x :| x in s;
    var rest := s - {x};
    if rest == {} then
      assert forall t :: t in s ==> t <= x by {
        forall t | t in s ensures t <= x {
          assert t in rest || t == x;
        }
      }
      x
    else
      var m := Largest(rest);
      assert forall t :: t in s ==> t <= m || t == x by {
        forall t | t in s ensures t <= m || t == x {
          assert t in rest || t == x;
        }
      }
      if x <= m then m else x
  }

  /**
   * A scan recorded under its timestamp and then tagged is loaded, by the
   * geolocation server, as a fingerprint at the tagged position: the tagged
   * records are the last ones with that timestamp, and they all carry the
   * same position.
   */
  lemma {:induction false} TaggedScanLoadsAtTag(
    db: seq<DbRecord>, ts: int, ws: seq<WifiData>, lat: real, lon: real, floor: int)
    requires ws != [] && forall i :: 0 <= i < |ws| ==> ws[i].timestamp == ts
    ensures ts in Group(db + Tagged(ws, lat, lon, floor)).scenes
    ensures var fp := Group(db + Tagged(ws, lat, lon, floor)).scenes[ts];
            fp.lat == lat && fp.lon == lon && fp.floor == floor
    ensures forall i :: 0 <= i < |ws| ==> ws[i].mac in Group(db + Tagged(ws, lat, lon, floor)).scenes[ts].aps
  {
    var rs := db + Tagged(ws, lat, lon, floor);
    var last := |rs| - 1;
    assert rs[last] == Tagged(ws, lat, lon, floor)[|ws| - 1];
    assert rs[last].timestamp == ts;
    GroupKeys(rs, ts);
    GroupPositionFromLastRecord(rs, ts);
    assert LastIndex(rs, ts) == last;
    forall i | 0 <= i < |ws|
      ensures ws[i].mac in Group(rs).scenes[ts].aps
    {
      var k := |db| + i;
      assert rs[k] == Tagged(ws, lat, lon, floor)[i];
      assert AppearsWith(rs, ts, ws[i].mac);
      GroupSignalsFromLastRecord(rs, ts, ws[i].mac);
    }
  }

  /** The module-level state of server_wifi_capture.py and its handlers. */
  class CaptureServer {
    /** `pending_scans`: the readings of every untagged scan, by timestamp, in arrival order. */
    var pendingScans: map<int, seq<WifiData>>
    /** database_wifi.json. */
    var dbFile: DbFile

    /** Every pending scan holds at least one reading, all posted with its timestamp. */
    ghost predicate Valid()
      reads this
    {
      forall ts :: ts in pendingScans ==>
        pendingScans[ts] != [] && forall i :: 0 <= i < |pendingScans[ts]| ==> pendingScans[ts][i].timestamp == ts
    }

    constructor (file: DbFile)
      ensures Valid()
      ensures pendingScans == map[] && dbFile == file
    {
      pendingScans := map[];
      dbFile := file;
    }

    /** POST /api/raw_scan: queue the reading under its timestamp. */
    method ReceiveRaw(data: WifiData)
      requires Valid()
      modifies this
      ensures Valid()
      ensures pendingScans ==
                old(pendingScans)[data.timestamp := (if data.timestamp in old(pendingScans) then old(pendingScans)[data.timestamp] else []) + [data]]
      ensures dbFile == old(dbFile)
    {
      var ts := data.timestamp;
      if ts !in pendingScans {
        pendingScans := pendingScans[ts := []];
      }
      pendingScans := pendingScans[ts := pendingScans[ts] + [data]];
    }

    /**
     * `save_to_json_db`: the stored records, or none, followed by `dataList`.
     * When the file holds a JSON value that is not a list, `extend` raises
     * and nothing is written.
     */
    method SaveToJsonDb(dataList: seq<DbRecord>) returns (saved: bool)
      modifies this
      ensures saved <==> !old(dbFile).NotAList?
      ensures saved ==> dbFile == Present(StoredRecords(old(dbFile)) + dataList)
      ensures !saved ==> dbFile == old(dbFile)
      ensures pendingScans == old(pendingScans)
    {
      if dbFile.NotAList? {
        return false;
      }
      var currentDb: seq<DbRecord> := [];
      if dbFile.Present? {
        currentDb := dbFile.records;
      }
      currentDb := currentDb + dataList;
      dbFile := Present(currentDb);
      saved := true;
    }

    /**
     * POST /tag_scan: a pending scan is tagged with the position, appended to
     * the database and forgotten; any other timestamp changes nothing. When
     * the save raises, the scan stays pending and the file is untouched.
     * A saved scan is loaded by the geolocation server as a fingerprint at
     * the tagged position holding every MAC of the scan.
     */
    method TagScan(timestamp: int, lat: real, lon: real, floor: int) returns (outcome: TagOutcome)
      requires Valid()
      modifies this
      ensures Valid()
      ensures timestamp !in old(pendingScans) ==>
                outcome == NotPending && dbFile == old(dbFile) && pendingScans == old(pendingScans)
      ensures timestamp in old(pendingScans) && old(dbFile).NotAList? ==>
                outcome == SaveFailed && dbFile == old(dbFile) && pendingScans == old(pendingScans)
      ensures timestamp in old(pendingScans) && !old(dbFile).NotAList? ==>
                && outcome == Saved
                && dbFile == Present(StoredRecords(old(dbFile)) + Tagged(old(pendingScans)[timestamp], lat, lon, floor))
                && pendingScans == old(pendingScans) - {timestamp}
      ensures outcome == Saved ==>
                && dbFile.Present? && timestamp in Group(dbFile.records).scenes
                && var fp := Group(dbFile.records).scenes[timestamp];
                   && fp.lat == lat && fp.lon == lon && fp.floor == floor
                   && forall i :: 0 <= i < |old(pendingScans)[timestamp]| ==> old(pendingScans)[timestamp][i].mac in fp.aps
    {
      if timestamp !in pendingScans {
        return NotPending;
      }
      var wifiList := pendingScans[timestamp];
      var geolocatedData: seq<DbRecord> := [];
      for i := 0 to |wifiList|
        invariant geolocatedData == Tagged(wifiList[..i], lat, lon, floor)
      {
        var enrichedWifi := Enrich(wifiList[i], lat, lon, floor);
        assert Tagged(wifiList[..i + 1], lat, lon, floor) == geolocatedData + [enrichedWifi];
        geolocatedData := geolocatedData + [enrichedWifi];
      }
      assert wifiList[..|wifiList|] == wifiList;
      ghost var stored := StoredRecords(dbFile);
      var saved := SaveToJsonDb(geolocatedData);
      if !saved {
        return SaveFailed;
      }
      TaggedScanLoadsAtTag(stored, timestamp, wifiList, lat, lon, floor);
      pendingScans := pendingScans - {timestamp};
      outcome := Saved;
    }

    /** GET /: the pending scans, newest first, each with its number of readings. */
    method Home() returns (scansDisplay: seq<ScanSummary>)
      ensures StrictlyDescending(scansDisplay)
      ensures Timestamps(scansDisplay) == pendingScans.Keys
      ensures Counted(pendingScans, scansDisplay)
    {
      scansDisplay := [];
      var remaining := pendingScans.Keys;
      while remaining != {}
        invariant remaining + Timestamps(scansDisplay) == pendingScans.Keys
        invariant StrictlyDescending(scansDisplay)
        invariant forall i, t :: 0 <= i < |scansDisplay| && t in remaining ==> t < scansDisplay[i].ts
        invariant Counted(pendingScans, scansDisplay)
        decreases remaining
      {
        ghost var largest := Largest(remaining);
        var ts :| ts in remaining && forall t :: t in remaining ==> t <= ts;
        HomeStep(pendingScans, scansDisplay, remaining, ts);
        scansDisplay := scansDisplay + [ScanSummary(ts, |pendingScans[ts]|)];
        remaining := remaining - {ts};
      }
    }
  }
}
