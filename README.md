# WiFi fingerprint geolocation: a Dafny model

An ESP32 scans nearby WiFi access points and posts each reading (scan
timestamp, SSID, MAC, RSSI) to one of three small servers:

- **The capture server** (`server_wifi_capture.py`) holds the readings of every
  scan in `pending_scans`, keyed by the scan timestamp. When an operator tags a
  scan with the latitude, longitude and floor where it was taken, its readings
  are appended to the JSON database `database_wifi.json` and the scan stops
  being pending.
- **The geolocation server** (`server_geoloc.py`):
  - It loads that database and groups the records by timestamp into
    *fingerprints*. A fingerprint is one position plus a MAC → RSSI map.
  - It buffers the live readings into `current_live_scan`. A reading that
    arrives more than 2 seconds after the previous one starts a new scan.
  - It estimates a position by weighted k-nearest neighbours (WKNN):
    - The signal distance to each fingerprint is the square root of the sum
      of the squared RSSI differences over the live MACs. A live MAC that the
      fingerprint lacks costs 10000. With no MAC in common, the distance is
      the sentinel 9999999.
    - The three closest fingerprints are chosen by a stable sort.
    - Their positions are averaged with weights `1/(d + 0.1)`. The floor is
      rounded half to even.
    - The accuracy is the summed distance of the neighbours from the
      estimate. It is divided by 3 and converted to metres.
  - `/api/get_position` reports one of three states. It is offline after
    10 seconds without readings. Otherwise it is tracking or calibrating,
    depending on whether an estimate exists.
- **The dashboard server** (`server.py`) appends every reading to a CSV file,
  then pushes it on the front of a history of at most 50 entries.

The model is split into modules:

- **`ScanRecords`** (`scan_records.dfy`): the records both servers exchange.
- **`FingerprintDb`** (`fingerprint_db.dfy`): the grouping performed by
  `load_and_structure_db`.
- **`SignalDistance`**, **`Neighbours`**, **`Centroid`** and **`RealSums`**:
  the steps of `calculate_position`.
- **`Geoloc`**: the specification `Estimate` of `calculate_position`, the
  live buffer, and the class `GeolocServer` holding the three globals.
- **`WifiCapture`**: the class `CaptureServer`.
- **`ScanHistory`**: the class `Dashboard`.

Every handler is a method on its server's class. It is proved against a
specification function. The properties that the servers promise are lemmas
about those functions.

Besides each reading, the handlers take as parameters:

- the clock;
- the square root, as any function that returns a non-negative number whose
  square is its argument;
- the outcome of reading or writing a file.

The contract of `TagScan` links the two halves of the system: a scan tagged
by the capture server is loaded by the geolocation server as a fingerprint at
the tagged position, holding every MAC of the scan.

Two behaviours of the code are kept as written:

- A database file that exists but cannot be parsed is treated as empty by the
  capture server, so the next tag overwrites it with the new records only.
- The accuracy is divided by 3 even when fewer than three fingerprints exist.

## Model

| member | source | states |
|---|---|---|
| ScanRecords.Enrich | server_wifi_capture.py:85-88 | an enriched reading is the original reading, unchanged, plus the given latitude, longitude and floor |
| FingerprintDb.GroupStep | server_geoloc.py:49-55 | after one record, its timestamp has a scene whose `aps` maps the record's MAC to its RSSI |
| FingerprintDb.Group | server_geoloc.py:46-55 | the grouping lists each timestamp once, lists exactly the keys of the scene map, and every scene has a non-empty `aps` |
| FingerprintDb.Structure | server_geoloc.py:58 | the fingerprint list has one entry per grouped timestamp, in insertion order |
| FingerprintDb.GroupKeys | server_geoloc.py:48-55 | a timestamp gets a fingerprint if and only if some record carries it |
| FingerprintDb.GroupOrderIsFirstAppearance | server_geoloc.py:46-58 | fingerprints are ordered by the first appearance of their timestamps in the file |
| FingerprintDb.GroupPositionFromLastRecord | server_geoloc.py:51-53 | a fingerprint's lat, lon and floor are those of the last record with its timestamp |
| FingerprintDb.GroupSignalsFromLastRecord | server_geoloc.py:55 | a MAC is in a fingerprint iff a record of that timestamp has it, and its RSSI is the one of the last such record |
| SignalDistance.SqSum | server_geoloc.py:74-86 | specification of `dist_sq_sum`; characterised by SqSumOverPick, SqSumBounds, FingerprintOnlyApsIgnored and SquaredDistance |
| SignalDistance.CommonCount | server_geoloc.py:75-82 | specification of `common_count`; characterised by SquaredDistance and FingerprintOnlyApsIgnored |
| SignalDistance.Distance | server_geoloc.py:87-91 | specification of `final_dist`; characterised by DistanceCases, MatchBelowSentinel and ExactMatchDistance |
| SignalDistance.Term | server_geoloc.py:78-85 | one live MAC adds the penalty 10000 when the fingerprint lacks it, otherwise a non-negative square that is zero iff the RSSIs agree |
| SignalDistance.SqSumOverPick | server_geoloc.py:78 | the squared sum does not depend on the order in which the live MACs are visited |
| SignalDistance.SqSumBounds | server_geoloc.py:78-85 | every unmatched live MAC costs the full penalty; with no match the sum is 10000 times the number of live MACs |
| SignalDistance.FingerprintOnlyApsIgnored | server_geoloc.py:78-79 | access points seen only in the fingerprint change neither the sum, the match count nor the distance |
| SignalDistance.DistanceCases | server_geoloc.py:88-91 | the distance is the sentinel 9999999 when nothing matches, otherwise a non-negative number whose square is the squared sum |
| SignalDistance.MatchBelowSentinel | server_geoloc.py:87-91 | a fingerprint sharing a MAC whose squared sum is below 9999999² is closer than the sentinel |
| SignalDistance.ExactMatchDistance | server_geoloc.py:78-91 | a fingerprint holding every live MAC with the same RSSI is at distance zero |
| SignalDistance.SquaredDistance | server_geoloc.py:74-86 | the loop over the live MACs computes the squared sum and the number of common MACs |
| Neighbours.StableSort | server_geoloc.py:101 | specification of the sort; characterised by StableSortSorted and StableSortIsStable |
| Neighbours.InsertByDistSorted | server_geoloc.py:101 | inserting into a list sorted by distance keeps it sorted |
| Neighbours.StableSortSorted | server_geoloc.py:101 | the sort returns a permutation of the candidates, in non-decreasing distance |
| Neighbours.StableSortIsStable | server_geoloc.py:101 | the sort is stable: candidates at equal distance keep their input order |
| Neighbours.KNearest | server_geoloc.py:104 | `k_nearest` has min(3, number of candidates) entries |
| Neighbours.KNearestSorted | server_geoloc.py:101-104 | the neighbours are sorted by distance and drawn from the candidates (sub-multiset) |
| Neighbours.KNearestAreNearest | server_geoloc.py:101-104 | no candidate left out is closer than a selected neighbour |
| Neighbours.KNearestKeepsInputOrder | server_geoloc.py:101-104 | among equal distances the neighbours are a prefix of the candidates in input order |
| Centroid.Weight | server_geoloc.py:118 | the weight `1/(d + 0.1)` of a non-negative distance is positive |
| Centroid.WeightSumPositive | server_geoloc.py:115-127 | the weight sum is non-negative, and positive as soon as there is a neighbour |
| Centroid.AverageWithin | server_geoloc.py:115-130 | the weighted average of coordinates lying in [lo, hi] lies in [lo, hi] |
| RealSums.AverageBetween | server_geoloc.py:129-130 | terms between lo and hi times their weights average to a value in [lo, hi] |
| Centroid.RoundHalfEven | server_geoloc.py:131 | Python's `round`: within one half of the argument, ties go to the even integer |
| Centroid.RoundWithin | server_geoloc.py:131 | rounding a value between two integers stays between them |
| Centroid.UncertaintySum | server_geoloc.py:135-139 | specification of `uncertainty_score`; characterised by UncertaintyNonNegative, UncertaintyAtCommonPoint and Uncertainty |
| Centroid.UncertaintyNonNegative | server_geoloc.py:135-139 | the uncertainty score is non-negative |
| Centroid.UncertaintyAtCommonPoint | server_geoloc.py:135-139 | neighbours all at the estimate contribute no uncertainty |
| Centroid.AccumulateWeights | server_geoloc.py:107-123 | the loop over `k_nearest` yields the sums of the weights and of the weighted lat, lon and floor |
| Centroid.Uncertainty | server_geoloc.py:135-139 | the loop over `coords_for_variance` yields the summed distance to the estimate, which is non-negative |
| Geoloc.CandidateOf | server_geoloc.py:73-98 | specification of one `distances` entry; characterised by FingerprintDistance and the SignalDistance lemmas |
| Geoloc.Candidates | server_geoloc.py:70-98 | specification of `distances`; characterised by GeolocServer.SignalDistances and NearestFromDb |
| Geoloc.Nearest | server_geoloc.py:101-104 | specification of `k_nearest`; characterised by Neighbours.KNearestSorted, Neighbours.KNearestAreNearest and EstimateNeighbours |
| Geoloc.Estimate | server_geoloc.py:62-150 | specification of `calculate_position`; characterised by EstimateNoneIff, EstimateNeighbours, EstimateWithinNeighbours, EstimateAtCommonPosition and ExactMatchIsNearest |
| Geoloc.EstimateFrom | server_geoloc.py:107-150 | specification of steps 4 and 5; characterised by EstimateFromWithin, EstimateFromCommonPoint and WeightedAverage |
| Geoloc.Centre | server_geoloc.py:127-150 | specification of the estimate from the four sums; characterised by Centred and EstimateFromWithin |
| Geoloc.FingerprintDistance | server_geoloc.py:73-98 | the `distances` entry of a fingerprint is its signal distance and its position |
| Geoloc.NearestFromDb | server_geoloc.py:93-104 | every neighbour is the entry of some fingerprint of the database |
| Geoloc.NearestWeightPositive | server_geoloc.py:118-127 | with a non-empty database the weight sum is positive, so the `weight_sum == 0` branch is never taken |
| Geoloc.EstimateNoneIff | server_geoloc.py:67-68 | there is no position exactly when the database or the live scan is empty |
| Geoloc.EstimateNeighbours | server_geoloc.py:101-104 | `neighbors_dist` has min(3, database size) entries, is non-decreasing, and no fingerprint left out is closer |
| Geoloc.EstimateWithinNeighbours | server_geoloc.py:115-142 | the estimate lies between the neighbours' least and greatest lat, lon and floor, with accuracy at least zero |
| Geoloc.EstimateAtCommonPosition | server_geoloc.py:115-142 | when every fingerprint is at one place, the estimate is that place with accuracy zero |
| Geoloc.ExactMatchIsNearest | server_geoloc.py:78-104 | a fingerprint matching the live scan exactly puts the first neighbour at distance zero |
| Geoloc.Buffered | server_geoloc.py:167-170 | more than 2 s after the last reading the buffer restarts with the new MAC alone; otherwise the MAC is set and every other entry kept |
| Geoloc.Replay | server_geoloc.py:163-171 | specification of the buffer after a sequence of readings; characterised by BurstCollects and PauseResets |
| Geoloc.BurstCollects | server_geoloc.py:166-171 | readings at most 2 s apart accumulate all their MACs in the buffer |
| Geoloc.PauseResets | server_geoloc.py:166-171 | after a pause of more than 2 s the buffer holds only MACs read since the pause |
| Geoloc.WeightedAverage | server_geoloc.py:107-150 | steps 4 and 5 compute the specified estimate from the neighbours |
| Geoloc.Centred | server_geoloc.py:127-150 | from the four sums to the returned dictionary, as specified |
| Geoloc.GeolocServer.constructor | server_geoloc.py:23-26 | empty database, empty buffer, last update at 0 |
| Geoloc.GeolocServer.LoadAndStructureDb | server_geoloc.py:35-58 | a missing file, an unreadable one, or a JSON value that cannot be iterated as records leaves `fingerprint_db` unchanged; an empty object or string loads no fingerprint; a list of records becomes the grouped records; the buffer is untouched |
| Geoloc.GeolocServer.CalculatePosition | server_geoloc.py:62-150 | the result is the specified estimate over the current database |
| Geoloc.GeolocServer.SignalDistances | server_geoloc.py:70-98 | `distances` holds one entry per fingerprint, in database order |
| Geoloc.GeolocServer.ReceiveLiveData | server_geoloc.py:163-174 | the buffer is updated as `Buffered` states and the last update time becomes `now` |
| Geoloc.GeolocServer.GetPositionJson | server_geoloc.py:177-188 | offline iff more than 10 s since the last reading; otherwise tracking with the estimate when there is one, calibrating when not; no state changes |
| WifiCapture.StoredRecords | server_wifi_capture.py:30-37 | the database extended is the file's records, or empty when the file is missing or unreadable |
| WifiCapture.Tagged | server_wifi_capture.py:83-89 | one enriched record per pending reading, in order, each carrying the tag |
| WifiCapture.ReadingsOfTagged | server_wifi_capture.py:84-89 | tagging loses nothing: stripping the tag gives back the readings |
| WifiCapture.Largest | server_wifi_capture.py:49 | the greatest pending timestamp exists and bounds all others |
| WifiCapture.TaggedScanLoadsAtTag | server_wifi_capture.py:84-91 | a tagged scan appended to any database loads as a fingerprint at the tagged position holding every MAC of the scan |
| WifiCapture.CaptureServer.constructor | server_wifi_capture.py:20 | nothing is pending |
| WifiCapture.CaptureServer.ReceiveRaw | server_wifi_capture.py:64-71 | the reading is appended to its timestamp's list, created empty if absent; other timestamps and the file are unchanged |
| WifiCapture.CaptureServer.SaveToJsonDb | server_wifi_capture.py:30-42 | the file becomes the stored records (or none) followed by the new ones, except that a JSON value that is not a list makes `extend` raise and nothing is written |
| WifiCapture.CaptureServer.TagScan | server_wifi_capture.py:74-97 | a pending scan is enriched, appended after the old records and removed, and then loads as a fingerprint at the tag holding every MAC of the scan; a failed save keeps it pending with the file untouched; an unknown timestamp changes nothing |
| WifiCapture.CaptureServer.Home | server_wifi_capture.py:47-61 | exactly the pending timestamps, strictly descending, each with the length of its list |
| ScanHistory.Entry | server.py:78-83 | the history entry copies SSID, MAC and RSSI from the request |
| ScanHistory.Row | server.py:66-74 | the CSV row copies timestamp, SSID, MAC and RSSI from the request |
| ScanHistory.AppendLeft | server.py:78 | the new entry comes first, the previous entries follow in order, and only the oldest is dropped when 50 are held |
| ScanHistory.PushAll | server.py:78 | specification of the history after a sequence of arrivals; characterised by PushAllWindow and PushAllBounded |
| ScanHistory.PushAllWindow | server.py:19 | after any arrivals the history is the newest arrivals, newest first, then the old history, cut to 50 |
| ScanHistory.PushAllBounded | server.py:19 | the history never holds more than 50 entries, and after 50 arrivals it holds exactly the last 50 |
| ScanHistory.Dashboard.constructor | server.py:19 | the history starts empty |
| ScanHistory.Dashboard.ReceiveWifiData | server.py:58-89 | the CSV row is written first; if that fails the answer is 500 and nothing changes, else the entry is pushed on the history |
| ScanHistory.Dashboard.ReadDashboard | server.py:47-55 | the page shows the history, newest first, at most 50 entries, and changes nothing |

## Left out

- `import_wigle.py` is not part of this model. It is an HTTP client for an external API that writes a CSV file, with no state logic.
- FastAPI routing, Jinja2 templates, redirects, the JSON shape of the answers and `print` logging are not modelled. A handler's answer is a Dafny value.
- File I/O is not modelled. The JSON database is a `DbFile` value: missing, not readable as JSON, a JSON value that is not a list, or a list of records. The CSV file is a list of rows. A failed write of the JSON database is not modelled. The CSV header written by `init_csv` is not modelled.
- WifiCapture.CaptureServer.TagScan: a JSON list holding items that are not records is not modelled. The source keeps such items and appends after them; the model's database holds records only.
- Clocks are parameters. `server_geoloc.py` reads the clock twice in `receive_live_data` (lines 167 and 171); the model uses one `now`. `server.py` reads it twice as well (lines 61 and 69); these are the two parameters `clock` and `isoTime`.
- `math.sqrt` is a parameter satisfying `IsSqrt`. Floating point is modelled as exact real arithmetic.
- Geoloc.GeolocServer.CalculatePosition: `neighbors_dist` holds the exact distances, not rounded to one decimal (server_geoloc.py:149).
- SignalDistance.DistanceCases: the converse of "the sentinel means no common MAC" is not stated, since it is false for a matching fingerprint whose squared sum is exactly 9999999². `SignalDistance.MatchBelowSentinel` states it for squared sums below that bound.
- `list.sort` is modelled as a stable insertion sort (`Neighbours.StableSort`), which is all that the code relies on.
- The `sorted(..., reverse=True)` of `home` is modelled as a loop that picks the largest remaining timestamp each time. The formatted `time_str` is not modelled.
- In `load_and_structure_db` an unreadable file, or a JSON value that cannot be iterated as records, raises. The model reports `LoadFailed` and leaves the database unchanged.
- The handlers are async and share module globals. The model runs them one after the other.
