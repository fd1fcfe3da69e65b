/**
 * The dashboard server (server.py): every reading posted by the ESP32 is
 * appended to a CSV file and then pushed on the front of `data_history`, a
 * double-ended queue of at most 50 entries whose oldest entry falls off the
 * back when a new one arrives on a full queue. The dashboard shows the
 * queue newest first.
 */
module ScanHistory {

  /** `maxlen` of `data_history`. */
  const MaxLen: nat := 50

  /** The body of POST /api/geoloc (`WifiScanData`). */
  datatype ScanData = ScanData(timestamp: int, macAp: string, rssi: int, ssidAp: string)

  /** One entry of `data_history`: the server's wall-clock time and the reading. */
  datatype HistoryEntry = HistoryEntry(serverTime: string, ssid: string, mac: string, rssi: int)

  /** One row appended to wifi_data.csv. */
  datatype CsvRow = CsvRow(serverTime: string, espTimestamp: int, ssid: string, mac: string, rssi: int)

  /** What the handler answers: `{"status": "success"}`, or the HTTP 500 error. */
  datatype Response = Success | InternalServerError

  /** The history entry made from a reading received at `serverTime`. */
  function Entry(data: ScanData, serverTime: string): (e: HistoryEntry)
    ensures e.ssid == data.ssidAp && e.mac == data.macAp && e.rssi == data.rssi && e.serverTime == serverTime
  {
    HistoryEntry(serverTime, data.ssidAp, data.macAp, data.rssi)
  }

  /** The CSV row written for a reading received at `serverTime`. */
  function Row(data: ScanData, serverTime: string): (r: CsvRow)
    ensures r.espTimestamp == data.timestamp && r.ssid == data.ssidAp && r.mac == data.macAp && r.rssi == data.rssi
    ensures r.serverTime == serverTime
  {
    CsvRow(serverTime, data.timestamp, data.ssidAp, data.macAp, data.rssi)
  }

  /**
   * `appendleft` on a deque bounded by `MaxLen`: `x` becomes the first
   * entry, the previous entries follow in order, and on a full queue the
   * last (oldest) one is dropped.
   */
  function AppendLeft(x: HistoryEntry, h: seq<HistoryEntry>): (r: seq<HistoryEntry>)
    ensures |r| == if |h| < MaxLen then |h| + 1 else MaxLen
    ensures r[0] == x
    ensures r[1..] == h[..|r| - 1]
  {
    if |h| < MaxLen then [x] + h else [x] + h[..MaxLen - 1]
  }

  /** The entries of `s` in the opposite order. */
  function Reverse<T>(s: seq<T>): (r: seq<T>)
    ensures |r| == |s|
    ensures forall i :: 0 <= i < |s| ==> r[i] == s[|s| - 1 - i]
  {
    if s == [] then [] else Reverse(s[1..]) + [s[0]]
  }

  /** The history after the entries `xs` arrive one after the other, the first of `xs` first. */
  function PushAll(h: seq<HistoryEntry>, xs: seq<HistoryEntry>): seq<HistoryEntry>
    decreases |xs|
  {
    if xs == [] then h else PushAll(AppendLeft(xs[0], h), xs[1..])
  }

  /** The length of the history after `n` entries arrive on one of length `m`. */
  function Window(m: nat, n: nat): nat
  {
    if m + n < MaxLen then m + n else MaxLen
  }

  /** Cutting `b` short before the final cut, when the final cut reaches no further, changes nothing. */
  lemma {:induction false} TakeOfConcat<T>(a: seq<T>, b: seq<T>, k: nat, n: nat)
    requires k <= |b| && n <= |a| + k
    ensures (a + b[..k])[..n] == (a + b)[..n]
  {
    assert |(a + b[..k])[..n]| == n;
    forall i | 0 <= i < n
      ensures (a + b[..k])[..n][i] == (a + b)[..n][i]
    {
      if i >= |a| {
        assert (a + b[..k])[i] == b[..k][i - |a|];
      }
    }
  }

  /** On a history within bounds, `AppendLeft` is a cut of the longer list. */
  lemma {:induction false} AppendLeftTake(x: HistoryEntry, h: seq<HistoryEntry>)
    requires |h| <= MaxLen
    ensures AppendLeft(x, h) == ([x] + h)[..Window(|h|, 1)]
  {
  }

  lemma {:induction false} ReverseCons<T>(xs: seq<T>)
    requires xs != []
    ensures Reverse(xs) == Reverse(xs[1..]) + [xs[0]]
  {
  }

  /** The list step of `PushAllWindow`: cutting the pushed history early changes nothing. */
  lemma {:induction false} WindowStep<T>(r: seq<T>, x: T, h: seq<T>, k: nat, n: nat)
    requires k <= |h| + 1 && n <= |r| + k
    ensures (r + ([x] + h)[..k])[..n] == ((r + [x]) + h)[..n]
  {
    TakeOfConcat(r, [x] + h, k, n);
    assert r + ([x] + h) == (r + [x]) + h;
  }

  /**
   * The history is a window on the readings: after `xs` arrive on a
   * history `h` of at most `MaxLen` entries, it holds the newest arrivals
   * first, then `h`, cut to at most `MaxLen` entries.
   */
  lemma {:induction false} PushAllWindow(h: seq<HistoryEntry>, xs: seq<HistoryEntry>)
    requires |h| <= MaxLen
    ensures PushAll(h, xs) == (Reverse(xs) + h)[..Window(|h|, |xs|)]
    decreases |xs|
  {
    if xs == [] {
      assert Reverse(xs) + h == h;
    } else {
      var x, rest := xs[0], xs[1..];
      var h1 := AppendLeft(x, h);
      PushAllWindow(h1, rest);
      AppendLeftTake(x, h);
      ReverseCons(xs);
      WindowStep(Reverse(rest), x, h, Window(|h|, 1), Window(|h|, |xs|));
    }
  }

  /** However many readings arrive, the history never exceeds `MaxLen` entries. */
  lemma {:induction false} PushAllBounded(h: seq<HistoryEntry>, xs: seq<HistoryEntry>)
    requires |h| <= MaxLen
    ensures |PushAll(h, xs)| <= MaxLen
    ensures |xs| >= MaxLen ==> PushAll(h, xs) == Reverse(xs)[..MaxLen]
  {
    PushAllWindow(h, xs);
    if |xs| >= MaxLen {
      var all := Reverse(xs) + h;
      assert all[..MaxLen] == Reverse(xs)[..MaxLen];
    }
  }

  /** The module-level state of server.py. */
  class Dashboard {
    /** `data_history`, newest first. */
    var dataHistory: seq<HistoryEntry>
    /** The rows of wifi_data.csv. */
    var csvRows: seq<CsvRow>

    ghost predicate Valid()
      reads this
    {
      |dataHistory| <= MaxLen
    }

    constructor (rows: seq<CsvRow>)
      ensures Valid()
      ensures dataHistory == [] && csvRows == rows
    {
      dataHistory := [];
      csvRows := rows;
    }

    /**
     * POST /api/geoloc. The row goes to the CSV file first; when the file
     * cannot be written (`csvWritable` false) the handler answers 500 and
     * the history is untouched. `clock` and `isoTime` are the two readings
     * of the wall clock.
     */
    method ReceiveWifiData(data: ScanData, clock: string, isoTime: string, csvWritable: bool) returns (response: Response)
      requires Valid()
      modifies this
      ensures Valid()
      ensures csvWritable ==>
                && response == Success
                && csvRows == old(csvRows) + [Row(data, isoTime)]
                && dataHistory == AppendLeft(Entry(data, clock), old(dataHistory))
      ensures !csvWritable ==>
                response == InternalServerError && csvRows == old(csvRows) && dataHistory == old(dataHistory)
    {
      if !csvWritable {
        return InternalServerError;
      }
      csvRows := csvRows + [CsvRow(isoTime, data.timestamp, data.ssidAp, data.macAp, data.rssi)];
      dataHistory := AppendLeft(HistoryEntry(clock, data.ssidAp, data.macAp, data.rssi), dataHistory);
      response := Success;
    }

    /** GET /: the history as a list, newest first, left as it is. */
    method ReadDashboard() returns (scans: seq<HistoryEntry>)
      requires Valid()
      ensures scans == dataHistory && |scans| <= MaxLen
    {
      scans := dataHistory;
    }
  }
}
