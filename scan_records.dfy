/**
 * The records exchanged between the capture server and the geolocation
 * server: a reading posted by the ESP32, the same reading once an operator
 * has tagged it with a position, and the JSON database file that holds the
 * tagged readings.
 */
module ScanRecords {

  /** The body of a POST to /api/raw_scan (`WifiData` in both servers). */
  datatype WifiData = WifiData(timestamp: int, ssid: string, mac: string, rssi: int)

  /** One entry of database_wifi.json: a reading plus the tagged position. */
  datatype DbRecord = DbRecord(
    timestamp: int, ssid: string, mac: string, rssi: int,
    latitude: real, longitude: real, floor: int)

  /**
   * The state of database_wifi.json on disk:
   * - `Missing`: there is no such file;
   * - `Unreadable`: the file cannot be opened or is not valid JSON;
   * - `NotAList`: valid JSON whose value is not a list; `empty` is set when
   *   it is an empty object or an empty string, the two such values Python
   *   iterates over without an error;
   * - `Present`: a JSON list of records.
   */
  datatype DbFile = Missing | Unreadable | NotAList(empty: bool) | Present(records: seq<DbRecord>)

  /** The reading a stored record was made from (the record minus its position). */
  function Reading(d: DbRecord): WifiData
  {
    WifiData(d.timestamp, d.ssid, d.mac, d.rssi)
  }

  /** `wifi.copy()` with "latitude", "longitude" and "floor" added. */
  function Enrich(w: WifiData, lat: real, lon: real, floor: int): (d: DbRecord)
    ensures Reading(d) == w
    ensures d.latitude == lat && d.longitude == lon && d.floor == floor
  {
    DbRecord(w.timestamp, w.ssid, w.mac, w.rssi, lat, lon, floor)
  }
}
