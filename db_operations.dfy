/** The persistent store and its in-memory fallback (lib/db-operations.ts).

    The three tables of lib/db.ts are held as a value of type `Tables`; every
    `db.execute` call becomes a function from tables to tables. A failing database is
    an input: `fail == Some(k)` makes the k-th `db.execute` call of an operation
    (counted from 0 in the order the calls are made) throw, so partial writes are
    modelled too. Time is the millisecond input `now`. */
module DbOps {
  import opened SensorTypes
  import opened Collections

  /** `CONNECTION_STALE_MS`: one minute without contact means disconnected. */
  const ConnectionStaleMs: int := 60 * 1000

  /** A row of `sensors`; `sensor_id` is UNIQUE. Timestamps are milliseconds. */
  datatype SensorRow = SensorRow(
    sensorId: string,
    name: string,
    latitude: real,
    longitude: real,
    createdAt: int,
    lastSeen: int)

  /** A row of `readings`; `rowId` is the AUTOINCREMENT primary key. */
  datatype ReadingRow = ReadingRow(
    rowId: nat,
    sensorId: string,
    temperature: real,
    humidity: real,
    pm25: real,
    timestamp: int)

  /** A row of `connection_events`; `eventType` is free text in the schema. */
  datatype EventRow = EventRow(rowId: nat, sensorId: string, eventType: string, timestamp: int)

  /** The `sensors` rows in insertion order, and the two append-only fact tables. */
  datatype Tables = Tables(sensors: seq<SensorRow>, readings: seq<ReadingRow>, events: seq<EventRow>)

  /** The UNIQUE constraint on `sensors.sensor_id`. */
  ghost predicate UniqueSensorIds(rows: seq<SensorRow>) {
    forall i, j :: 0 <= i < j < |rows| ==> rows[i].sensorId != rows[j].sensorId
  }

  /** Which `db.execute` call of an operation throws, if any. */
  type Fault = Option<nat>

  /** The fault as seen by a nested operation that starts after `k` calls succeeded. */
  function Shifted(fail: Fault, k: nat): (f: Fault)
    ensures f.Some? <==> fail.Some? && fail.value >= k
    ensures f.Some? ==> f.value + k == fail.value
  {
    match fail
    case Some(i) => if i >= k then Some(i - k) else None
    case None => None
  }

  // ---------------------------------------------------------------------------
  // Statements on the tables

  /** Position of the row with sensor id `id` (`WHERE sensor_id = ?`). */
  function FindSensor(rows: seq<SensorRow>, id: string): (r: Option<nat>)
    ensures r.Some? ==> r.value < |rows| && rows[r.value].sensorId == id
    ensures r.None? <==> forall i :: 0 <= i < |rows| ==> rows[i].sensorId != id
  {
    if rows == [] then None
    else if rows[0].sensorId == id then Some(0)
    else
      match FindSensor(rows[1..], id)
      case None => None
      case Some(i) => Some(i + 1)
  }

  /** `SELECT * FROM sensors WHERE sensor_id = ?` */
  function SelectSensor(rows: seq<SensorRow>, id: string): Option<SensorRow>
  {
    match FindSensor(rows, id)
    case Some(i) => Some(rows[i])
    case None => None
  }

  /** Under the UNIQUE constraint the selected row is the one row carrying the id. */
  lemma SelectSensorUnique(rows: seq<SensorRow>, id: string, row: SensorRow)
    requires UniqueSensorIds(rows)
    ensures SelectSensor(rows, id) == Some(row) <==> row in rows && row.sensorId == id
  {
    if row in rows && row.sensorId == id {
      var k :| 0 <= k < |rows| && rows[k] == row;
      var i := FindSensor(rows, id).value;
      assert i == k;
    }
  }

  /** `SELECT last_seen FROM sensors WHERE sensor_id = ?` (the column is NOT NULL, so
      it is absent only when the row is). */
  function LastSeen(rows: seq<SensorRow>, id: string): (r: Option<int>)
    ensures r.Some? <==> SelectSensor(rows, id).Some?
    ensures r.Some? ==> r.value == SelectSensor(rows, id).value.lastSeen
  {
    match SelectSensor(rows, id)
    case Some(row) => Some(row.lastSeen)
    case None => None
  }

  /** Two tables whose rows carry the same ids in the same places find every id at
      the same place. */
  lemma {:induction false} FindSensorSameIds(a: seq<SensorRow>, b: seq<SensorRow>, id: string)
    requires |a| == |b|
    requires forall i :: 0 <= i < |a| ==> a[i].sensorId == b[i].sensorId
    ensures FindSensor(a, id) == FindSensor(b, id)
  {
    if a != [] && a[0].sensorId != id {
      FindSensorSameIds(a[1..], b[1..], id);
    }
  }

  lemma {:induction false} FindSensorAppend(rows: seq<SensorRow>, row: SensorRow, id: string)
    ensures FindSensor(rows + [row], id) ==
      if FindSensor(rows, id).Some? then FindSensor(rows, id)
      else if row.sensorId == id then Some(|rows|)
      else None
  {
    if rows != [] && rows[0].sensorId != id {
      assert (rows + [row])[1..] == rows[1..] + [row];
      FindSensorAppend(rows[1..], row, id);
    }
  }

  /** The sensor-table upsert of `registerSensor`: `INSERT ... ON CONFLICT(sensor_id)
      DO UPDATE SET name, latitude, longitude, last_seen`. `created_at` is only written
      by the insert. */
  function UpsertSensor(rows: seq<SensorRow>, id: string, name: string, latitude: real,
                        longitude: real, now: int): (r: seq<SensorRow>)
    ensures |rows| <= |r| <= |rows| + 1
    ensures forall i :: 0 <= i < |rows| ==>
              r[i].sensorId == rows[i].sensorId && r[i].createdAt == rows[i].createdAt
    ensures |r| == |rows| + 1 ==> r[|rows|] == SensorRow(id, name, latitude, longitude, now, now)
  {
    match FindSensor(rows, id)
    case Some(i) => rows[i := rows[i].(name := name, latitude := latitude, longitude := longitude, lastSeen := now)]
    case None => rows + [SensorRow(id, name, latitude, longitude, now, now)]
  }

  /** An upsert leaves exactly one row for the id, carrying the new name, position and
      `last_seen` (and the original `created_at` when the id existed); every other id
      selects the same row as before, and the UNIQUE constraint still holds. */
  lemma UpsertSensorSpec(rows: seq<SensorRow>, id: string, name: string, latitude: real,
                         longitude: real, now: int)
    requires UniqueSensorIds(rows)
    ensures var r := UpsertSensor(rows, id, name, latitude, longitude, now);
      && UniqueSensorIds(r)
      && SelectSensor(r, id) == Some(SensorRow(id, name, latitude, longitude,
           if SelectSensor(rows, id).Some? then SelectSensor(rows, id).value.createdAt else now, now))
      && (forall other :: other != id ==> SelectSensor(r, other) == SelectSensor(rows, other))
      && |r| == if SelectSensor(rows, id).Some? then |rows| else |rows| + 1
  {
    var r := UpsertSensor(rows, id, name, latitude, longitude, now);
    match FindSensor(rows, id)
    case Some(i) =>
      forall other { FindSensorSameIds(r, rows, other); }
    case None =>
      forall other { FindSensorAppend(rows, SensorRow(id, name, latitude, longitude, now, now), other); }
  }

  /** `UPDATE sensors SET last_seen = ? WHERE sensor_id = ?`: every matching row; none
      when the sensor has no row. */
  function TouchLastSeen(rows: seq<SensorRow>, id: string, now: int): (r: seq<SensorRow>)
    ensures |r| == |rows|
    ensures forall i :: 0 <= i < |rows| ==> r[i].(lastSeen := rows[i].lastSeen) == rows[i]
    ensures forall i :: 0 <= i < |rows| ==>
              r[i].lastSeen == if rows[i].sensorId == id then now else rows[i].lastSeen
  {
    MapSeq(rows, (row: SensorRow) => if row.sensorId == id then row.(lastSeen := now) else row)
  }

  /** The update refreshes `last_seen` of the sensor's row, if it has one, and touches
      nothing else: ids, and every other sensor's row, are as before. */
  lemma TouchLastSeenSpec(rows: seq<SensorRow>, id: string, now: int)
    ensures var r := TouchLastSeen(rows, id, now);
      && |r| == |rows|
      && (forall i :: 0 <= i < |rows| ==> r[i].sensorId == rows[i].sensorId)
      && (UniqueSensorIds(rows) ==> UniqueSensorIds(r))
      && LastSeen(r, id) == (if LastSeen(rows, id).Some? then Some(now) else None)
      && (forall other :: other != id ==> SelectSensor(r, other) == SelectSensor(rows, other))
  {
    var r := TouchLastSeen(rows, id, now);
    forall other { FindSensorSameIds(r, rows, other); }
  }

  /** `INSERT INTO connection_events (sensor_id, event_type, timestamp)`; without
      deletions the AUTOINCREMENT key is the row count plus one. */
  function InsertEvent(events: seq<EventRow>, id: string, eventType: string, now: int): seq<EventRow>
  {
    events + [EventRow(|events| + 1, id, eventType, now)]
  }

  /** `INSERT INTO readings (sensor_id, temperature, humidity, pm25, timestamp)`; the
      reading's own `id` is not stored. */
  function InsertReading(readings: seq<ReadingRow>, r: Reading): seq<ReadingRow>
  {
    readings + [ReadingRow(|readings| + 1, r.sensorId, r.temperature, r.humidity, r.pm25, r.timestamp)]
  }

  /** AUTOINCREMENT keys of a table no row was ever deleted from: the row at position
      `k` has key `k + 1`. Nothing in the program deletes readings or events. */
  ghost predicate KeyedByPosition(t: Tables)
  {
    && (forall k :: 0 <= k < |t.readings| ==> ReadingKeyAt(t.readings, k) == k + 1)
    && (forall k :: 0 <= k < |t.events| ==> EventKeyAt(t.events, k) == k + 1)
  }

  /** The key of the reading row at position `k`. */
  function ReadingKeyAt(rows: seq<ReadingRow>, k: nat): nat
    requires k < |rows|
  {
    rows[k].rowId
  }

  /** The key of the event row at position `k`. */
  function EventKeyAt(rows: seq<EventRow>, k: nat): nat
    requires k < |rows|
  {
    rows[k].rowId
  }

  /** A reading insert hands out the next key, so the keys stay positional. */
  lemma InsertReadingKeepsKeys(t: Tables, r: Reading)
    requires KeyedByPosition(t)
    ensures KeyedByPosition(t.(readings := InsertReading(t.readings, r)))
  {
    var rs := InsertReading(t.readings, r);
    forall k | 0 <= k < |rs|
      ensures ReadingKeyAt(rs, k) == k + 1
    {
      if k < |t.readings| {
        assert ReadingKeyAt(t.readings, k) == k + 1;
      }
    }
  }

  /** An event insert hands out the next key, so the keys stay positional. */
  lemma InsertEventKeepsKeys(t: Tables, id: string, eventType: string, now: int)
    requires KeyedByPosition(t)
    ensures KeyedByPosition(t.(events := InsertEvent(t.events, id, eventType, now)))
  {
    var es := InsertEvent(t.events, id, eventType, now);
    forall k | 0 <= k < |es|
      ensures EventKeyAt(es, k) == k + 1
    {
      if k < |t.events| {
        assert EventKeyAt(t.events, k) == k + 1;
      }
    }
  }

  /** Keys of stored rows are distinct, and so are the `id` strings they read back as. */
  lemma StoredIdsDistinct(t: Tables)
    requires KeyedByPosition(t)
    ensures forall i, j :: 0 <= i < j < |t.readings| ==> RowToReading(t.readings[i]).id != RowToReading(t.readings[j]).id
    ensures forall i, j :: 0 <= i < j < |t.events| ==> RowToEvent(t.events[i]).id != RowToEvent(t.events[j]).id
  {
    forall i, j | 0 <= i < j < |t.readings|
      ensures RowToReading(t.readings[i]).id != RowToReading(t.readings[j]).id
    {
      assert ReadingKeyAt(t.readings, i) == i + 1 && ReadingKeyAt(t.readings, j) == j + 1;
      if RowToReading(t.readings[i]).id == RowToReading(t.readings[j]).id {
        NatToStringInjective(t.readings[i].rowId, t.readings[j].rowId);
      }
    }
    forall i, j | 0 <= i < j < |t.events|
      ensures RowToEvent(t.events[i]).id != RowToEvent(t.events[j]).id
    {
      assert EventKeyAt(t.events, i) == i + 1 && EventKeyAt(t.events, j) == j + 1;
      if RowToEvent(t.events[i]).id == RowToEvent(t.events[j]).id {
        NatToStringInjective(t.events[i].rowId, t.events[j].rowId);
      }
    }
  }

  // ---------------------------------------------------------------------------
  // Liveness

  /** The connect path's test: no `last_seen`, or one at least a minute old. */
  predicate WasStale(lastSeen: Option<int>, now: int)
  {
    lastSeen.None? || now - lastSeen.value >= ConnectionStaleMs
  }

  /** The read path's derived status: contact less than a minute ago. */
  predicate IsConnectedAt(lastSeen: int, now: int)
  {
    now - lastSeen < ConnectionStaleMs
  }

  /** A stored sensor is stale exactly when it does not read as connected: the two
      tests are complements at the same 60 000 ms threshold. */
  lemma StaleIffNotConnected(lastSeen: int, now: int)
    ensures WasStale(Some(lastSeen), now) <==> !IsConnectedAt(lastSeen, now)
    ensures IsConnectedAt(lastSeen, now) <==> now - lastSeen < 60000
  {
  }

  /** What an operation did to the tables, and whether one of its statements threw. */
  datatype Outcome = Outcome(tables: Tables, threw: bool)

  /** `updateSensorConnection` on the database path: read `last_seen` (call 0); on
      connect, write `last_seen := now` (call 1) and, only when the sensor was stale,
      log `connect` (call 2); on disconnect, log `disconnect` (call 1). */
  function UpdateConnectionAt(t: Tables, id: string, connected: bool, now: int, fail: Fault): (o: Outcome)
    ensures o.threw ==> fail.Some?
    ensures o.tables.readings == t.readings
    ensures |o.tables.sensors| == |t.sensors|
    ensures !connected ==> o.tables.sensors == t.sensors
    ensures t.events <= o.tables.events && |o.tables.events| <= |t.events| + 1
  {
    if fail == Some(0) then Outcome(t, true)
    else if connected then
      var stale := WasStale(LastSeen(t.sensors, id), now);
      if fail == Some(1) then Outcome(t, true)
      else
        var touched := t.(sensors := TouchLastSeen(t.sensors, id, now));
        if !stale then Outcome(touched, false)
        else if fail == Some(2) then Outcome(touched, true)
        else Outcome(touched.(events := InsertEvent(touched.events, id, "connect", now)), false)
    else if fail == Some(1) then Outcome(t, true)
    else Outcome(t.(events := InsertEvent(t.events, id, "disconnect", now)), false)
  }

  /** Connect path: `last_seen` becomes `now` whenever the sensor has a row, and one
      `connect` event is appended exactly when the sensor was stale; with no row at
      all, every call logs `connect`. Readings are untouched. */
  lemma ConnectLogsOnlyWhenStale(t: Tables, id: string, now: int)
    ensures var o := UpdateConnectionAt(t, id, true, now, None);
      && !o.threw
      && o.tables.readings == t.readings
      && o.tables.events == t.events +
           (if WasStale(LastSeen(t.sensors, id), now) then [EventRow(|t.events| + 1, id, "connect", now)] else [])
      && LastSeen(o.tables.sensors, id) == (if LastSeen(t.sensors, id).Some? then Some(now) else None)
      && (forall other :: other != id ==> SelectSensor(o.tables.sensors, other) == SelectSensor(t.sensors, other))
  {
    TouchLastSeenSpec(t.sensors, id, now);
  }

  /** Disconnect path: exactly one `disconnect` event is appended, with no staleness
      test, and `last_seen` is left as it was. */
  lemma DisconnectAlwaysLogs(t: Tables, id: string, now: int)
    ensures var o := UpdateConnectionAt(t, id, false, now, None);
      && !o.threw
      && o.tables == t.(events := t.events + [EventRow(|t.events| + 1, id, "disconnect", now)])
  {
  }

  /** `addReading` on the database path: insert the reading (call 0), then run
      `updateSensorConnection(sensorId, true)`, whose own failures it catches. */
  function AddReadingAt(t: Tables, r: Reading, now: int, fail: Fault): (o: Outcome)
    ensures o.threw ==> fail.Some?
    ensures fail == Some(0) ==> o.tables == t
    ensures fail != Some(0) ==>
              o.tables.readings == t.readings + [ReadingRow(|t.readings| + 1, r.sensorId, r.temperature,
                                                             r.humidity, r.pm25, r.timestamp)]
    ensures t.events <= o.tables.events && |o.tables.events| <= |t.events| + 1
  {
    if fail == Some(0) then Outcome(t, true)
    else UpdateConnectionAt(t.(readings := InsertReading(t.readings, r)), r.sensorId, true, now, Shifted(fail, 1))
  }

  /** `registerSensor` on the database path: the upsert (call 0), then an
      unconditional `connect` event (call 1). */
  function RegisterAt(t: Tables, id: string, name: string, latitude: real, longitude: real,
                      now: int, fail: Fault): (o: Outcome)
    ensures o.threw <==> fail == Some(0) || fail == Some(1)
    ensures o.tables.readings == t.readings
    ensures t.events <= o.tables.events
    ensures |o.tables.events| == if o.threw then |t.events| else |t.events| + 1
  {
    if fail == Some(0) then Outcome(t, true)
    else
      var upserted := t.(sensors := UpsertSensor(t.sensors, id, name, latitude, longitude, now));
      if fail == Some(1) then Outcome(upserted, true)
      else Outcome(upserted.(events := InsertEvent(upserted.events, id, "connect", now)), false)
  }

  /** A registration always logs `connect`, whatever the sensor's previous state, and
      leaves it reading as connected at the registration time. */
  lemma RegisterAlwaysLogsConnect(t: Tables, id: string, name: string, latitude: real,
                                  longitude: real, now: int)
    requires UniqueSensorIds(t.sensors)
    ensures var o := RegisterAt(t, id, name, latitude, longitude, now, None);
      && !o.threw
      && UniqueSensorIds(o.tables.sensors)
      && o.tables.events == t.events + [EventRow(|t.events| + 1, id, "connect", now)]
      && o.tables.readings == t.readings
      && LastSeen(o.tables.sensors, id) == Some(now)
      && IsConnectedAt(LastSeen(o.tables.sensors, id).value, now)
  {
    UpsertSensorSpec(t.sensors, id, name, latitude, longitude, now);
  }

  // ---------------------------------------------------------------------------
  // Bursts of readings

  /** Readings ingested one after another on the database path, each arriving at its
      own timestamp (as the data route stamps them), with no failure. */
  function IngestAll(t: Tables, rs: seq<Reading>): Tables
    decreases |rs|
  {
    if rs == [] then t
    else IngestAll(AddReadingAt(t, rs[0], rs[0].timestamp, None).tables, rs[1..])
  }

  /** One reading stored without a failure, from a sensor that has a row. */
  lemma StoreReading(t: Tables, r: Reading)
    requires LastSeen(t.sensors, r.sensorId).Some?
    ensures var next := AddReadingAt(t, r, r.timestamp, None).tables;
      && next.events == t.events + (if WasStale(LastSeen(t.sensors, r.sensorId), r.timestamp)
                                    then [EventRow(|t.events| + 1, r.sensorId, "connect", r.timestamp)] else [])
      && |next.readings| == |t.readings| + 1
      && LastSeen(next.sensors, r.sensorId) == Some(r.timestamp)
  {
    var t1 := t.(readings := InsertReading(t.readings, r));
    ConnectLogsOnlyWhenStale(t1, r.sensorId, r.timestamp);
    assert AddReadingAt(t, r, r.timestamp, None).tables == UpdateConnectionAt(t1, r.sensorId, true, r.timestamp, None).tables;
  }

  /** Readings of one sensor, each less than a minute after the previous one. */
  ghost predicate CloseTogether(rs: seq<Reading>, id: string)
  {
    && (forall k :: 0 <= k < |rs| ==> rs[k].sensorId == id)
    && (forall k :: 0 < k < |rs| ==> rs[k].timestamp - rs[k - 1].timestamp < ConnectionStaleMs)
  }

  /** While a registered sensor keeps reporting within the threshold, no event is
      logged, and `last_seen` follows the latest reading. */
  lemma {:induction false} QuietWhileLive(t: Tables, id: string, rs: seq<Reading>)
    requires LastSeen(t.sensors, id).Some?
    requires CloseTogether(rs, id)
    requires rs != [] ==> rs[0].timestamp - LastSeen(t.sensors, id).value < ConnectionStaleMs
    ensures IngestAll(t, rs).events == t.events
    ensures |IngestAll(t, rs).readings| == |t.readings| + |rs|
    ensures LastSeen(IngestAll(t, rs).sensors, id) ==
      if rs == [] then LastSeen(t.sensors, id) else Some(rs[|rs| - 1].timestamp)
    decreases |rs|
  {
    if rs != [] {
      var next := AddReadingAt(t, rs[0], rs[0].timestamp, None).tables;
      StoreReading(t, rs[0]);
      QuietWhileLive(next, id, rs[1..]);
    }
  }

  /** Burst coalescing: a registered, stale sensor that sends a burst of readings less
      than a minute apart gets exactly one `connect` event, stamped with the first
      reading, and every reading is stored. */
  lemma BurstLogsOneConnect(t: Tables, id: string, rs: seq<Reading>)
    requires LastSeen(t.sensors, id).Some?
    requires rs != [] && CloseTogether(rs, id)
    requires WasStale(LastSeen(t.sensors, id), rs[0].timestamp)
    ensures IngestAll(t, rs).events == t.events + [EventRow(|t.events| + 1, id, "connect", rs[0].timestamp)]
    ensures |IngestAll(t, rs).readings| == |t.readings| + |rs|
    ensures LastSeen(IngestAll(t, rs).sensors, id) == Some(rs[|rs| - 1].timestamp)
  {
    var next := AddReadingAt(t, rs[0], rs[0].timestamp, None).tables;
    StoreReading(t, rs[0]);
    QuietWhileLive(next, id, rs[1..]);
    assert IngestAll(t, rs) == IngestAll(next, rs[1..]);
  }

  /** One reading ingested from a sensor that has a row: it is stored, `last_seen`
      follows it, and `connect` is logged exactly when the sensor was stale. */
  lemma IngestOne(t: Tables, r: Reading)
    requires LastSeen(t.sensors, r.sensorId).Some?
    ensures var next := IngestAll(t, [r]);
      && next.events == t.events + (if WasStale(LastSeen(t.sensors, r.sensorId), r.timestamp)
                                    then [EventRow(|t.events| + 1, r.sensorId, "connect", r.timestamp)] else [])
      && LastSeen(next.sensors, r.sensorId) == Some(r.timestamp)
  {
    StoreReading(t, r);
    assert IngestAll(t, [r]) == IngestAll(AddReadingAt(t, r, r.timestamp, None).tables, []);
  }

  /** A gap of a minute or more between two readings logs a second `connect`. */
  lemma GapLogsAnotherConnect(t: Tables, id: string, first: Reading, second: Reading)
    requires LastSeen(t.sensors, id).Some?
    requires first.sensorId == id && second.sensorId == id
    requires second.timestamp - first.timestamp >= ConnectionStaleMs
    ensures var mid := IngestAll(t, [first]);
      IngestAll(mid, [second]).events == mid.events + [EventRow(|mid.events| + 1, id, "connect", second.timestamp)]
  {
    var mid := IngestAll(t, [first]);
    assert LastSeen(mid.sensors, id) == Some(first.timestamp) by {
      IngestOne(t, first);
    }
    StaleReadingLogsConnect(mid, second, first.timestamp);
  }

  /** A reading a minute or more after the sensor was last seen logs `connect`. */
  lemma StaleReadingLogsConnect(t: Tables, r: Reading, lastSeen: int)
    requires LastSeen(t.sensors, r.sensorId) == Some(lastSeen)
    requires r.timestamp - lastSeen >= ConnectionStaleMs
    ensures IngestAll(t, [r]).events == t.events + [EventRow(|t.events| + 1, r.sensorId, "connect", r.timestamp)]
  {
    IngestOne(t, r);
  }

  // ---------------------------------------------------------------------------
  // Reads on the database path

  /** A `sensors` row as the read path returns it. */
  function SensorRecord(row: SensorRow, now: int): Sensor
  {
    Sensor(row.sensorId, row.name, row.latitude, row.longitude,
           IsConnectedAt(row.lastSeen, now), row.lastSeen, None)
  }

  /** `getSensor` on the database path. */
  function SensorById(t: Tables, id: string, now: int): (r: Option<Sensor>)
    ensures r.Some? <==> exists i :: 0 <= i < |t.sensors| && t.sensors[i].sensorId == id
    ensures r.Some? ==> && r.value.id == id
                        && r.value.name == SelectSensor(t.sensors, id).value.name
                        && r.value.latitude == SelectSensor(t.sensors, id).value.latitude
                        && r.value.longitude == SelectSensor(t.sensors, id).value.longitude
                        && LastSeen(t.sensors, id) == Some(r.value.lastConnection)
                        && (r.value.isConnected <==> now - r.value.lastConnection < ConnectionStaleMs)
                        && r.value.lastDisconnection == None
  {
    match SelectSensor(t.sensors, id)
    case Some(row) => Some(SensorRecord(row, now))
    case None => None
  }

  /** The rows ordered by name, ties in insertion order. */
  function ByName(rows: seq<SensorRow>): (r: seq<SensorRow>)
    ensures multiset(r) == multiset(rows) && |r| == |rows|
    ensures forall i, j :: 0 <= i < j < |r| ==> TextLe(r[i].name, r[j].name)
  {
    var le := (a: SensorRow, b: SensorRow) => TextLe(a.name, b.name);
    TextKeyTotalPreorder((row: SensorRow) => row.name, le);
    SortBySorted(rows, le);
    SortBy(rows, le)
  }

  /** `getAllSensors` on the database path (`SELECT * FROM sensors ORDER BY name`):
      every row once, ordered by name, with the derived connection status. */
  function AllSensorsByName(t: Tables, now: int): (r: seq<Sensor>)
    ensures |r| == |t.sensors|
    ensures forall i, j :: 0 <= i < j < |r| ==> TextLe(r[i].name, r[j].name)
    ensures multiset(r) == multiset(MapSeq(t.sensors, RecordAt(now)))
    ensures forall row :: row in t.sensors ==> SensorRecord(row, now) in r
  {
    var sorted := ByName(t.sensors);
    SensorsReadBack(sorted, t.sensors, now);
    MapSeq(sorted, RecordAt(now))
  }

  function RecordAt(now: int): SensorRow -> Sensor
  {
    (row: SensorRow) => SensorRecord(row, now)
  }

  /** Reading back a permutation of the rows sorted by name keeps the order and
      yields the records of the rows, each as often as its row occurs. */
  lemma SensorsReadBack(sorted: seq<SensorRow>, rows: seq<SensorRow>, now: int)
    requires multiset(sorted) == multiset(rows)
    requires forall i, j :: 0 <= i < j < |sorted| ==> TextLe(sorted[i].name, sorted[j].name)
    ensures var r := MapSeq(sorted, RecordAt(now));
      && |r| == |rows|
      && (forall i, j :: 0 <= i < j < |r| ==> TextLe(r[i].name, r[j].name))
      && multiset(r) == multiset(MapSeq(rows, RecordAt(now)))
      && (forall row :: row in rows ==> SensorRecord(row, now) in r)
  {
    var r := MapSeq(sorted, RecordAt(now));
    assert |sorted| == |multiset(sorted)| == |rows|;
    MapSeqPermutation(sorted, rows, RecordAt(now));
    forall row | row in rows ensures SensorRecord(row, now) in r {
      assert row in multiset(sorted);
      var k :| 0 <= k < |sorted| && sorted[k] == row;
      assert r[k] == SensorRecord(row, now);
    }
  }

  /** A `readings` row as returned: `id` is `String(row.id)`. */
  function RowToReading(row: ReadingRow): (r: Reading)
    ensures r.id.Some? && r.sensorId == row.sensorId && r.timestamp == row.timestamp
    ensures r.temperature == row.temperature && r.humidity == row.humidity && r.pm25 == row.pm25
  {
    Reading(Some(NatToString(row.rowId)), row.sensorId, row.timestamp, row.temperature, row.humidity, row.pm25)
  }

  /** A `connection_events` row as returned: any type other than "disconnect" reads
      as "connect". */
  function RowToEvent(row: EventRow): (e: ConnectionEvent)
    ensures e.sensorId == row.sensorId && e.timestamp == row.timestamp
    ensures e.eventType == Disconnect <==> row.eventType == "disconnect"
  {
    ConnectionEvent(NatToString(row.rowId), row.sensorId, row.timestamp,
                    if row.eventType == "disconnect" then Disconnect else Connect)
  }

  /** `WHERE sensor_id = ? ORDER BY timestamp DESC` over `readings`. */
  function SensorRowsNewestFirst(rows: seq<ReadingRow>, id: string): (r: seq<ReadingRow>)
    ensures multiset(r) == multiset(ReadingRowsOf(rows, id)) && |r| == |ReadingRowsOf(rows, id)|
    ensures forall k :: 0 <= k < |r| ==> r[k].sensorId == id
    ensures forall i, j :: 0 <= i < j < |r| ==> r[i].timestamp >= r[j].timestamp
  {
    var matching := ReadingRowsOf(rows, id);
    var r := NewestFirst(matching, RowTime);
    forall k | 0 <= k < |r| ensures r[k].sensorId == id {
      assert multiset(matching)[r[k]] > 0;
    }
    r
  }

  function RowTime(row: ReadingRow): int
  {
    row.timestamp
  }

  /** `WHERE sensor_id = ?` over `readings`. */
  function ReadingRowsOf(rows: seq<ReadingRow>, id: string): (r: seq<ReadingRow>)
    ensures forall x :: multiset(r)[x] == if x.sensorId == id then multiset(rows)[x] else 0
    ensures forall k :: 0 <= k < |r| ==> r[k].sensorId == id
  {
    Filter(rows, OfSensor(id))
  }

  function OfSensor(id: string): ReadingRow -> bool
  {
    (row: ReadingRow) => row.sensorId == id
  }

  /** `LIMIT n`; SQLite reads a negative limit as no limit. */
  function SqlLimit<T>(s: seq<T>, n: int): (r: seq<T>)
    ensures r <= s
    ensures |r| == if 0 <= n < |s| then n else |s|
  {
    if 0 <= n < |s| then s[..n] else s
  }

  /** The rows kept by the optional `LIMIT` of `getReadingsBySensor`: the clause is
      added only when `limit` is truthy. */
  function LimitedRows(rows: seq<ReadingRow>, limit: Option<int>): (r: seq<ReadingRow>)
    ensures r <= rows
    ensures |r| == if limit.Some? && 0 < limit.value < |rows| then limit.value else |rows|
  {
    if limit.Some? && limit.value != 0 then SqlLimit(rows, limit.value) else rows
  }

  /** `getReadingsBySensor` on the database path. An absent or zero limit returns every
      reading of the sensor; a negative one too, as SQLite ignores it. */
  function ReadingsBySensorQuery(t: Tables, id: string, limit: Option<int>): (r: seq<Reading>)
    ensures forall k :: 0 <= k < |r| ==> r[k].sensorId == id
    ensures forall i, j :: 0 <= i < j < |r| ==> r[i].timestamp >= r[j].timestamp
    ensures |r| == (var n := |ReadingRowsOf(t.readings, id)|;
                    if limit.Some? && 0 < limit.value < n then limit.value else n)
    ensures r <= MapSeq(SensorRowsNewestFirst(t.readings, id), RowToReading)
    ensures limit.None? || limit.value <= 0 ==>
              multiset(r) == multiset(MapSeq(ReadingRowsOf(t.readings, id), RowToReading))
  {
    var newest := SensorRowsNewestFirst(t.readings, id);
    var limited := LimitedRows(newest, limit);
    PrefixReadBack(limited, newest, ReadingRowsOf(t.readings, id), id);
    MapSeq(limited, RowToReading)
  }

  /** Reading back a prefix of a sensor's newest-first rows gives readings of that
      sensor, newest first, a prefix of reading back them all; the whole list reads
      back as the matching rows do, each as often as stored. */
  lemma PrefixReadBack(limited: seq<ReadingRow>, newest: seq<ReadingRow>, matching: seq<ReadingRow>,
                       id: string)
    requires limited <= newest
    requires multiset(newest) == multiset(matching)
    requires forall k :: 0 <= k < |newest| ==> newest[k].sensorId == id
    requires forall i, j :: 0 <= i < j < |newest| ==> newest[i].timestamp >= newest[j].timestamp
    ensures var r := MapSeq(limited, RowToReading);
      && (forall k :: 0 <= k < |r| ==> r[k].sensorId == id)
      && (forall i, j :: 0 <= i < j < |r| ==> r[i].timestamp >= r[j].timestamp)
      && r <= MapSeq(newest, RowToReading)
      && (|limited| == |newest| ==> multiset(r) == multiset(MapSeq(matching, RowToReading)))
  {
    assert forall k :: 0 <= k < |limited| ==> limited[k] == newest[k];
    MapSeqPrefix(limited, newest, RowToReading);
    if |limited| == |newest| {
      assert limited == newest;
      MapSeqPermutation(newest, matching, RowToReading);
    }
  }

  /** Without a limit the query returns every stored reading of the sensor; any limit
      keeps a prefix of that newest-first list. */
  lemma ReadingsBySensorComplete(t: Tables, id: string, row: ReadingRow, limit: int)
    requires row in t.readings && row.sensorId == id
    ensures RowToReading(row) in ReadingsBySensorQuery(t, id, None)
    ensures ReadingsBySensorQuery(t, id, Some(limit)) <= ReadingsBySensorQuery(t, id, None)
  {
    var newest := SensorRowsNewestFirst(t.readings, id);
    var all := MapSeq(newest, RowToReading);
    assert ReadingsBySensorQuery(t, id, None) == all;
    assert row in multiset(t.readings);
    assert row in multiset(newest);
    var k :| 0 <= k < |newest| && newest[k] == row;
    assert all[k] == RowToReading(row);
    var limited := LimitedRows(newest, Some(limit));
    assert ReadingsBySensorQuery(t, id, Some(limit)) == MapSeq(limited, RowToReading);
    MapSeqPrefix(limited, newest, RowToReading);
  }

  /** The row `getReadingsBySensor(id, 1)` reads: the newest row of the sensor, and
      of several equally new rows the one stored first. */
  function LatestRow(rows: seq<ReadingRow>, id: string): Option<ReadingRow>
  {
    LatestWhere(rows, OfSensor(id), RowTime)
  }

  /** `LatestRow` read back as a reading. */
  function LatestReadingOf(t: Tables, id: string): Option<Reading>
  {
    match LatestRow(t.readings, id)
    case None => None
    case Some(row) => Some(RowToReading(row))
  }

  /** None exactly when the sensor has no stored reading; otherwise a stored row of
      the sensor that no row of the sensor is newer than, and that every row of the
      sensor stored before it is older than. */
  lemma LatestRowSpec(rows: seq<ReadingRow>, id: string)
    ensures LatestRow(rows, id).None? <==> forall row :: row in rows ==> row.sensorId != id
    ensures LatestRow(rows, id).Some? ==>
              var latest := LatestRow(rows, id).value;
              && latest.sensorId == id
              && (forall row :: row in rows && row.sensorId == id ==> row.timestamp <= latest.timestamp)
              && exists i :: 0 <= i < |rows| && rows[i] == latest
                             && forall j :: 0 <= j < i && rows[j].sensorId == id ==> rows[j].timestamp < latest.timestamp
  {
    LatestWhereSpec(rows, OfSensor(id), RowTime);
  }

  /** On the database path `getReadingsBySensor(id, 1)` returns exactly the latest
      reading: nothing for a sensor without readings. */
  lemma LatestQuery(t: Tables, id: string)
    ensures ReadingsBySensorQuery(t, id, Some(1))
              == match LatestReadingOf(t, id) case None => [] case Some(r) => [r]
  {
    LatestWhereIsNewest(t.readings, OfSensor(id), RowTime);
    var mine := ReadingRowsOf(t.readings, id);
    var newest := SensorRowsNewestFirst(t.readings, id);
    assert newest == NewestFirst(mine, RowTime);
    if mine != [] {
      NewestFirstHead(mine, RowTime);
      assert LimitedRows(newest, Some(1)) == [newest[0]];
    } else {
      assert newest == [];
    }
  }

  /** `timestamp BETWEEN start AND end`, inclusive at both ends. */
  predicate Between(timestamp: int, start: int, end: int)
  {
    start <= timestamp <= end
  }

  /** `WHERE sensor_id = ? AND timestamp BETWEEN ? AND ?` over `readings`. */
  function ReadingRowsBetween(rows: seq<ReadingRow>, id: string, start: int, end: int): (r: seq<ReadingRow>)
    ensures forall x :: multiset(r)[x] ==
              if x.sensorId == id && Between(x.timestamp, start, end) then multiset(rows)[x] else 0
  {
    Filter(rows, (row: ReadingRow) => row.sensorId == id && Between(row.timestamp, start, end))
  }

  /** `WHERE sensor_id = ? AND timestamp BETWEEN ? AND ? ORDER BY timestamp DESC`. */
  function RowsBetweenNewestFirst(rows: seq<ReadingRow>, id: string, start: int, end: int): (r: seq<ReadingRow>)
    ensures multiset(r) == multiset(ReadingRowsBetween(rows, id, start, end))
    ensures forall k :: 0 <= k < |r| ==> r[k].sensorId == id && Between(r[k].timestamp, start, end)
    ensures forall i, j :: 0 <= i < j < |r| ==> r[i].timestamp >= r[j].timestamp
    ensures forall row :: row in rows && row.sensorId == id && Between(row.timestamp, start, end) ==> row in r
  {
    var matching := ReadingRowsBetween(rows, id, start, end);
    var newest := NewestFirst(matching, RowTime);
    forall k | 0 <= k < |newest|
      ensures newest[k].sensorId == id && Between(newest[k].timestamp, start, end)
    {
      assert multiset(matching)[newest[k]] > 0;
    }
    forall row | row in rows && row.sensorId == id && Between(row.timestamp, start, end)
      ensures row in newest
    {
      assert multiset(rows)[row] > 0;
      assert multiset(newest)[row] > 0;
    }
    newest
  }

  /** `getReadingsByDateRange` on the database path: exactly the sensor's readings
      inside the inclusive range, each as often as stored, newest first. */
  function ReadingsBetweenQuery(t: Tables, id: string, start: int, end: int): (r: seq<Reading>)
    ensures multiset(r) == multiset(MapSeq(ReadingRowsBetween(t.readings, id, start, end), RowToReading))
    ensures forall k :: 0 <= k < |r| ==> r[k].sensorId == id && Between(r[k].timestamp, start, end)
    ensures forall i, j :: 0 <= i < j < |r| ==> r[i].timestamp >= r[j].timestamp
    ensures forall row :: row in t.readings && row.sensorId == id && Between(row.timestamp, start, end)
              ==> RowToReading(row) in r
  {
    var newest := RowsBetweenNewestFirst(t.readings, id, start, end);
    RangeRowsReadBack(newest, t.readings, ReadingRowsBetween(t.readings, id, start, end), id, start, end);
    MapSeq(newest, RowToReading)
  }

  /** Reading back rows that answer a range query keeps what they answer. */
  lemma RangeRowsReadBack(rows: seq<ReadingRow>, all: seq<ReadingRow>, matching: seq<ReadingRow>,
                          id: string, start: int, end: int)
    requires multiset(rows) == multiset(matching)
    requires forall k :: 0 <= k < |rows| ==> rows[k].sensorId == id && Between(rows[k].timestamp, start, end)
    requires forall i, j :: 0 <= i < j < |rows| ==> rows[i].timestamp >= rows[j].timestamp
    requires forall row :: row in all && row.sensorId == id && Between(row.timestamp, start, end) ==> row in rows
    ensures var r := MapSeq(rows, RowToReading);
      && multiset(r) == multiset(MapSeq(matching, RowToReading))
      && (forall k :: 0 <= k < |r| ==> r[k].sensorId == id && Between(r[k].timestamp, start, end))
      && (forall i, j :: 0 <= i < j < |r| ==> r[i].timestamp >= r[j].timestamp)
      && (forall row :: row in all && row.sensorId == id && Between(row.timestamp, start, end)
            ==> RowToReading(row) in r)
  {
    var r := MapSeq(rows, RowToReading);
    MapSeqPermutation(rows, matching, RowToReading);
    forall row | row in all && row.sensorId == id && Between(row.timestamp, start, end)
      ensures RowToReading(row) in r
    {
      var k :| 0 <= k < |rows| && rows[k] == row;
      assert r[k] == RowToReading(row);
    }
  }

  function EventTime(row: EventRow): int
  {
    row.timestamp
  }

  /** The event filter of `getConnectionEvents`: the range applies only when both
      bounds are given. */
  predicate EventMatches(row: EventRow, id: string, start: Option<int>, end: Option<int>)
  {
    row.sensorId == id && (start.Some? && end.Some? ==> Between(row.timestamp, start.value, end.value))
  }

  function EventRowsMatching(rows: seq<EventRow>, id: string, start: Option<int>, end: Option<int>)
    : (r: seq<EventRow>)
    ensures forall x :: multiset(r)[x] == if EventMatches(x, id, start, end) then multiset(rows)[x] else 0
  {
    Filter(rows, (row: EventRow) => EventMatches(row, id, start, end))
  }

  /** The event query's rows, newest first. */
  function EventRowsNewestFirst(rows: seq<EventRow>, id: string, start: Option<int>, end: Option<int>)
    : (r: seq<EventRow>)
    ensures multiset(r) == multiset(EventRowsMatching(rows, id, start, end))
    ensures forall k :: 0 <= k < |r| ==> EventMatches(r[k], id, start, end)
    ensures forall i, j :: 0 <= i < j < |r| ==> r[i].timestamp >= r[j].timestamp
    ensures forall row :: row in rows && EventMatches(row, id, start, end) ==> row in r
  {
    var matching := EventRowsMatching(rows, id, start, end);
    var newest := NewestFirst(matching, EventTime);
    forall k | 0 <= k < |newest| ensures EventMatches(newest[k], id, start, end) {
      assert multiset(matching)[newest[k]] > 0;
    }
    forall row | row in rows && EventMatches(row, id, start, end) ensures row in newest {
      assert multiset(rows)[row] > 0;
      assert multiset(newest)[row] > 0;
    }
    newest
  }

  /** `getConnectionEvents` on the database path: exactly the sensor's events,
      restricted to `BETWEEN start AND end` only when both bounds are given, each as
      often as stored, newest first. */
  function EventsQuery(t: Tables, id: string, start: Option<int>, end: Option<int>): (r: seq<ConnectionEvent>)
    ensures multiset(r) == multiset(MapSeq(EventRowsMatching(t.events, id, start, end), RowToEvent))
    ensures forall k :: 0 <= k < |r| ==> r[k].sensorId == id
    ensures start.Some? && end.Some? ==>
              forall k :: 0 <= k < |r| ==> Between(r[k].timestamp, start.value, end.value)
    ensures forall i, j :: 0 <= i < j < |r| ==> r[i].timestamp >= r[j].timestamp
    ensures forall row :: row in t.events && EventMatches(row, id, start, end) ==> RowToEvent(row) in r
  {
    var newest := EventRowsNewestFirst(t.events, id, start, end);
    EventRowsReadBack(newest, t.events, EventRowsMatching(t.events, id, start, end), id, start, end);
    MapSeq(newest, RowToEvent)
  }

  /** Reading back rows that answer the event query keeps what they answer. */
  lemma EventRowsReadBack(rows: seq<EventRow>, all: seq<EventRow>, matching: seq<EventRow>,
                          id: string, start: Option<int>, end: Option<int>)
    requires multiset(rows) == multiset(matching)
    requires forall k :: 0 <= k < |rows| ==> EventMatches(rows[k], id, start, end)
    requires forall i, j :: 0 <= i < j < |rows| ==> rows[i].timestamp >= rows[j].timestamp
    requires forall row :: row in all && EventMatches(row, id, start, end) ==> row in rows
    ensures var r := MapSeq(rows, RowToEvent);
      && multiset(r) == multiset(MapSeq(matching, RowToEvent))
      && (forall k :: 0 <= k < |r| ==> r[k].sensorId == id)
      && (start.Some? && end.Some? ==> forall k :: 0 <= k < |r| ==> Between(r[k].timestamp, start.value, end.value))
      && (forall i, j :: 0 <= i < j < |r| ==> r[i].timestamp >= r[j].timestamp)
      && (forall row :: row in all && EventMatches(row, id, start, end) ==> RowToEvent(row) in r)
  {
    var r := MapSeq(rows, RowToEvent);
    MapSeqPermutation(rows, matching, RowToEvent);
    forall row | row in all && EventMatches(row, id, start, end) ensures RowToEvent(row) in r {
      var k :| 0 <= k < |rows| && rows[k] == row;
      assert r[k] == RowToEvent(row);
    }
  }

  /** Rows with distinct keys read back with distinct ids. */
  lemma ReadBackIdsDistinct(a: ReadingRow, b: ReadingRow, c: EventRow, d: EventRow)
    requires a.rowId != b.rowId && c.rowId != d.rowId
    ensures RowToReading(a).id != RowToReading(b).id
    ensures RowToEvent(c).id != RowToEvent(d).id
  {
    if RowToReading(a).id == RowToReading(b).id {
      NatToStringInjective(a.rowId, b.rowId);
    }
    if RowToEvent(c).id == RowToEvent(d).id {
      NatToStringInjective(c.rowId, d.rowId);
    }
  }

  // ---------------------------------------------------------------------------
  // The in-memory fallback (`mockSensors` and synthesized reads)

  /** The four demo sensors `mockSensors` starts with, stamped relative to the time the
      module was loaded. */
  function InitialMockSensors(loadTime: int): (r: seq<Sensor>)
    ensures |r| == 4 && UniqueMockIds(r)
    ensures forall k :: 0 <= k < |r| ==> r[k].lastConnection <= loadTime
    ensures forall k :: 0 <= k < |r| ==> (r[k].isConnected <==> r[k].lastDisconnection.None?)
  {
    [ Sensor("ESP32_CAMPUS", "Sensor Campus Principal", 7.3797, -72.6503, true, loadTime, None),
      Sensor("ESP32_CENTRO", "Sensor Centro Histórico", 7.3789, -72.6489, true,
             loadTime - 2 * 60 * 1000, None),
      Sensor("ESP32_PARQUE", "Sensor Parque Águeda Gallardo", 7.3812, -72.6521, false,
             loadTime - 15 * 60 * 1000, Some(loadTime - 15 * 60 * 1000)),
      Sensor("ESP32_TERMINAL", "Sensor Terminal de Transportes", 7.3765, -72.6478, true,
             loadTime - 1 * 60 * 1000, None) ]
  }

  ghost predicate UniqueMockIds(ms: seq<Sensor>)
  {
    forall i, j :: 0 <= i < j < |ms| ==> ms[i].id != ms[j].id
  }

  /** `mockSensors.findIndex((s) => s.id === id)` */
  function MockIndex(ms: seq<Sensor>, id: string): (i: int)
    ensures -1 <= i < |ms|
    ensures 0 <= i ==> ms[i].id == id && forall k :: 0 <= k < i ==> ms[k].id != id
    ensures i == -1 <==> forall k :: 0 <= k < |ms| ==> ms[k].id != id
  {
    if ms == [] then -1
    else if ms[0].id == id then 0
    else
      var i := MockIndex(ms[1..], id);
      if i == -1 then -1 else i + 1
  }

  /** `mockSensors.find((s) => s.id === id) || null` */
  function FindMockSensor(ms: seq<Sensor>, id: string): (r: Option<Sensor>)
    ensures r.Some? ==> r.value in ms && r.value.id == id
    ensures r.None? <==> forall k :: 0 <= k < |ms| ==> ms[k].id != id
  {
    var i := MockIndex(ms, id);
    if i >= 0 then Some(ms[i]) else None
  }

  /** The fallback registration: replace the entry with the same id in place, or
      append the new one. */
  function UpsertMock(ms: seq<Sensor>, s: Sensor): (r: seq<Sensor>)
    ensures |ms| <= |r| <= |ms| + 1
    ensures s in r
  {
    var i := MockIndex(ms, s.id);
    if i >= 0 then (assert ms[i := s][i] == s; ms[i := s]) else ms + [s]
  }

  /** The fallback registration keeps ids unique, makes the new record the one found
      for its id, keeps every other entry where it was, and grows the list only for a
      new id. */
  lemma UpsertMockSpec(ms: seq<Sensor>, s: Sensor)
    requires UniqueMockIds(ms)
    ensures var r := UpsertMock(ms, s);
      && UniqueMockIds(r)
      && FindMockSensor(r, s.id) == Some(s)
      && (forall k :: 0 <= k < |ms| && ms[k].id != s.id ==> r[k] == ms[k])
      && (forall other :: other != s.id ==> FindMockSensor(r, other) == FindMockSensor(ms, other))
      && |r| == if FindMockSensor(ms, s.id).Some? then |ms| else |ms| + 1
  {
    var r := UpsertMock(ms, s);
    var i := MockIndex(ms, s.id);
    if i >= 0 {
      assert r[i] == s;
      assert forall k :: 0 <= k < i ==> r[k] == ms[k];
      var j := MockIndex(r, s.id);
      assert j != -1;
      assert j == i;
    } else {
      assert r[|ms|] == s;
      assert MockIndex(r, s.id) == |ms|;
    }
    forall other | other != s.id ensures FindMockSensor(r, other) == FindMockSensor(ms, other) {
      FindMockSensorAgree(ms, r, other);
    }
  }

  /** Lookups of `id` agree on two lists whose entries for `id` coincide. */
  lemma FindMockSensorAgree(ms: seq<Sensor>, r: seq<Sensor>, id: string)
    requires |ms| <= |r|
    requires forall k :: 0 <= k < |ms| && ms[k].id == id ==> r[k] == ms[k]
    requires forall k :: 0 <= k < |ms| && r[k].id == id ==> ms[k].id == id
    requires forall k :: |ms| <= k < |r| ==> r[k].id != id
    ensures FindMockSensor(r, id) == FindMockSensor(ms, id)
  {
    var b := MockIndex(ms, id);
    if b >= 0 {
      assert r[b].id == id;
      assert MockIndex(r, id) == b;
    } else {
      assert forall k :: 0 <= k < |r| ==> r[k].id != id;
    }
  }

  /** `limit || 10`: an absent or zero limit means ten. */
  function MockCount(limit: Option<int>): int
  {
    if limit.Some? && limit.value != 0 then limit.value else 10
  }

  /** Reading `i` of the fallback `getReadingsBySensor`: id `${sensorId}-${i}`, taken
      `i` times five minutes before `now`. The three `Math.random()` draws of
      iteration `i` are `random(3i)`, `random(3i + 1)` and `random(3i + 2)`. */
  function MockReading(sensorId: string, i: nat, now: int, random: nat -> real): (r: Reading)
    ensures r.sensorId == sensorId && r.timestamp <= now
    ensures 0.0 <= random(3 * i) < 1.0 ==> 20.0 <= r.temperature < 30.0
    ensures 0.0 <= random(3 * i + 1) < 1.0 ==> 50.0 <= r.humidity < 80.0
    ensures 0.0 <= random(3 * i + 2) < 1.0 ==> 10.0 <= r.pm25 < 30.0
  {
    Reading(Some(sensorId + "-" + NatToString(i)), sensorId, now - i * 5 * 60 * 1000,
            20.0 + random(3 * i) * 10.0, 50.0 + random(3 * i + 1) * 30.0, 10.0 + random(3 * i + 2) * 20.0)
  }

  /** The `for` loop of the fallback `getReadingsBySensor`: `count` synthesized
      readings, none when the count is negative. */
  method SynthesizeReadings(sensorId: string, limit: Option<int>, now: int, random: nat -> real)
    returns (readings: seq<Reading>)
    ensures |readings| == if MockCount(limit) < 0 then 0 else MockCount(limit)
    ensures forall i :: 0 <= i < |readings| ==> readings[i] == MockReading(sensorId, i, now, random)
  {
    readings := [];
    var count := MockCount(limit);
    var i := 0;
    while i < count
      invariant 0 <= i && (count >= 0 ==> i <= count) && (count < 0 ==> i == 0)
      invariant |readings| == i
      invariant forall k :: 0 <= k < i ==> readings[k] == MockReading(sensorId, k, now, random)
    {
      readings := readings + [MockReading(sensorId, i, now, random)];
      i := i + 1;
    }
  }

  /** The synthesized readings all belong to the sensor, carry pairwise distinct ids,
      run strictly newest first five minutes apart, and, for draws in [0, 1), lie in
      20-30 degrees, 50-80 % humidity and 10-30 micrograms of PM2.5. */
  lemma MockReadingsShape(sensorId: string, now: int, random: nat -> real, i: nat, j: nat)
    requires i < j
    ensures MockReading(sensorId, i, now, random).id != MockReading(sensorId, j, now, random).id
    ensures MockReading(sensorId, i, now, random).timestamp
          == MockReading(sensorId, j, now, random).timestamp + (j - i) * 300000
    ensures MockReading(sensorId, i, now, random).sensorId == sensorId
    ensures (forall k :: 0.0 <= random(k) < 1.0) ==>
              var r := MockReading(sensorId, i, now, random);
              20.0 <= r.temperature < 30.0 && 50.0 <= r.humidity < 80.0 && 10.0 <= r.pm25 < 30.0
  {
    TaggedIdsDistinct(sensorId, i, j);
    if forall k :: 0.0 <= random(k) < 1.0 {
      assert 0.0 <= random(3 * i) < 1.0;
      assert 0.0 <= random(3 * i + 1) < 1.0;
      assert 0.0 <= random(3 * i + 2) < 1.0;
    }
  }

  /** The fallback `getConnectionEvents`: two fixed events, whatever the range. */
  function MockEvents(sensorId: string, now: int): (r: seq<ConnectionEvent>)
    ensures |r| == 2 && r[0].eventType == Connect && r[1].eventType == Disconnect
    ensures r[0].timestamp > r[1].timestamp
  {
    [ ConnectionEvent(sensorId + "-connect", sensorId, now - 10 * 60 * 1000, Connect),
      ConnectionEvent(sensorId + "-disconnect", sensorId, now - 30 * 60 * 1000, Disconnect) ]
  }

  // ---------------------------------------------------------------------------
  // Module load

  /** How the promise `initializeTables()` returns settles. */
  datatype Settled = Resolved(created: bool) | Rejected

  /** `initializeTables()` of lib/db.ts catches its own errors: it resolves with
      `true` when the tables exist and with `false` when creating them failed. It
      never rejects. */
  function InitializeTables(tablesCreated: bool): (s: Settled)
    ensures s != Rejected
    ensures s.created == tablesCreated
  {
    Resolved(tablesCreated)
  }

  /** The latch as the module-load chain leaves it: the `.then` handler sets it
      whatever the promise resolved with, and only the `.catch` handler clears it. */
  function LatchAfterLoad(s: Settled): bool
  {
    s.Resolved?
  }

  /** The latch as the `.catch` handler's message intends it: the database path is
      used only when the tables could be created. */
  function IntendedLatchAfterLoad(s: Settled): (latch: bool)
    ensures latch ==> s == Resolved(true)
  {
    s.Resolved? && s.created
  }

  /** As written, a failed table creation still leaves the database path in use: the
      `.catch` handler can never run. */
  lemma LoadIgnoresFailedInit()
    ensures !InitializeTables(false).created
    ensures LatchAfterLoad(InitializeTables(false))
  {
  }

  /** With the intended reading the latch is set exactly when the tables exist. */
  lemma IntendedLatchFollowsTables(tablesCreated: bool)
    ensures IntendedLatchAfterLoad(InitializeTables(tablesCreated)) <==> tablesCreated
  {
  }

  // ---------------------------------------------------------------------------
  // The `dbOperations` object

  /** The module state of lib/db-operations.ts: the `dbAvailable` latch, the mutable
      `mockSensors` array and the database it fronts. Each method takes the clock
      reading `now` and the fault `fail` of its own `db.execute` calls; a method that
      falls back calls itself again, now on the in-memory path. */
  class DbOperations {
    var dbAvailable: bool
    var mockSensors: seq<Sensor>
    var tables: Tables

    ghost predicate Valid()
      reads this
    {
      UniqueSensorIds(tables.sensors) && KeyedByPosition(tables) && UniqueMockIds(mockSensors)
    }

    /** Module load, once the `initializeTables()` chain has settled, over the
        tables the database already holds. As written the latch ends up set whether
        or not the tables could be created. */
    constructor (initial: Tables, tablesCreated: bool, loadTime: int)
      requires UniqueSensorIds(initial.sensors) && KeyedByPosition(initial)
      ensures Valid()
      ensures dbAvailable
      ensures mockSensors == InitialMockSensors(loadTime)
      ensures tables == initial
    {
      dbAvailable := LatchAfterLoad(InitializeTables(tablesCreated));
      mockSensors := InitialMockSensors(loadTime);
      tables := initial;
    }

    /** Module load with the latch as the `.catch` handler intends it: the fallback
        is used from the start when the tables could not be created. */
    constructor Intended(initial: Tables, tablesCreated: bool, loadTime: int)
      requires UniqueSensorIds(initial.sensors) && KeyedByPosition(initial)
      ensures Valid()
      ensures dbAvailable == tablesCreated
      ensures mockSensors == InitialMockSensors(loadTime)
      ensures tables == initial
    {
      IntendedLatchFollowsTables(tablesCreated);
      dbAvailable := IntendedLatchAfterLoad(InitializeTables(tablesCreated));
      mockSensors := InitialMockSensors(loadTime);
      tables := initial;
    }

    /** `registerSensor`: the same record is returned on either path. On the database
        path the tables change as `RegisterAt` says; a throw clears the latch and the
        registration is redone in `mockSensors`. */
    method RegisterSensor(id: string, name: string, latitude: real, longitude: real, now: int, fail: Fault)
      returns (sensor: Sensor)
      requires Valid()
      modifies this
      ensures Valid()
      ensures sensor == Sensor(id, name, latitude, longitude, true, now, None)
      ensures dbAvailable == (old(dbAvailable) && !RegisterAt(old(tables), id, name, latitude, longitude, now, fail).threw)
      ensures tables == if old(dbAvailable) then RegisterAt(old(tables), id, name, latitude, longitude, now, fail).tables
                        else old(tables)
      ensures mockSensors == if dbAvailable then old(mockSensors) else UpsertMock(old(mockSensors), sensor)
      decreases dbAvailable
    {
      if !dbAvailable {
        sensor := Sensor(id, name, latitude, longitude, true, now, None);
        UpsertMockSpec(mockSensors, sensor);
        mockSensors := UpsertMock(mockSensors, sensor);
        return;
      }
      if fail == Some(0) {
        dbAvailable := false;
        sensor := RegisterSensor(id, name, latitude, longitude, now, None);
        return;
      }
      UpsertSensorSpec(tables.sensors, id, name, latitude, longitude, now);
      tables := tables.(sensors := UpsertSensor(tables.sensors, id, name, latitude, longitude, now));
      if fail == Some(1) {
        dbAvailable := false;
        sensor := RegisterSensor(id, name, latitude, longitude, now, None);
        return;
      }
      InsertEventKeepsKeys(tables, id, "connect", now);
      tables := tables.(events := InsertEvent(tables.events, id, "connect", now));
      sensor := Sensor(id, name, latitude, longitude, true, now, None);
    }

    /** `getSensor`: the stored row with its derived status, or the mock entry once
        the latch is (or becomes) cleared. */
    method GetSensor(id: string, now: int, fail: Fault) returns (sensor: Option<Sensor>)
      requires Valid()
      modifies this
      ensures Valid() && tables == old(tables) && mockSensors == old(mockSensors)
      ensures dbAvailable == (old(dbAvailable) && fail != Some(0))
      ensures sensor == if dbAvailable then SensorById(tables, id, now) else FindMockSensor(mockSensors, id)
      decreases dbAvailable
    {
      if !dbAvailable {
        return FindMockSensor(mockSensors, id);
      }
      if fail == Some(0) {
        dbAvailable := false;
        sensor := GetSensor(id, now, None);
        return;
      }
      sensor := SensorById(tables, id, now);
    }

    /** `getAllSensors`: every stored sensor ordered by name, or the mock list. */
    method GetAllSensors(now: int, fail: Fault) returns (sensors: seq<Sensor>)
      requires Valid()
      modifies this
      ensures Valid() && tables == old(tables) && mockSensors == old(mockSensors)
      ensures dbAvailable == (old(dbAvailable) && fail != Some(0))
      ensures sensors == if dbAvailable then AllSensorsByName(tables, now) else mockSensors
      decreases dbAvailable
    {
      if !dbAvailable {
        return mockSensors;
      }
      if fail == Some(0) {
        dbAvailable := false;
        sensors := GetAllSensors(now, None);
        return;
      }
      sensors := AllSensorsByName(tables, now);
    }

    /** `updateSensorConnection`: on the database path the tables change as
        `UpdateConnectionAt` says and a throw only clears the latch; on the fallback
        path nothing happens. */
    method UpdateSensorConnection(sensorId: string, isConnected: bool, now: int, fail: Fault)
      requires Valid()
      modifies this
      ensures Valid() && mockSensors == old(mockSensors)
      ensures dbAvailable == (old(dbAvailable) && !UpdateConnectionAt(old(tables), sensorId, isConnected, now, fail).threw)
      ensures tables == if old(dbAvailable) then UpdateConnectionAt(old(tables), sensorId, isConnected, now, fail).tables
                        else old(tables)
    {
      if !dbAvailable {
        return;
      }
      if fail == Some(0) {
        dbAvailable := false;
        return;
      }
      var lastSeen := LastSeen(tables.sensors, sensorId);
      if isConnected {
        var wasStale := WasStale(lastSeen, now);
        if fail == Some(1) {
          dbAvailable := false;
          return;
        }
        TouchLastSeenSpec(tables.sensors, sensorId, now);
        tables := tables.(sensors := TouchLastSeen(tables.sensors, sensorId, now));
        if wasStale {
          if fail == Some(2) {
            dbAvailable := false;
            return;
          }
          InsertEventKeepsKeys(tables, sensorId, "connect", now);
          tables := tables.(events := InsertEvent(tables.events, sensorId, "connect", now));
        }
      } else {
        if fail == Some(1) {
          dbAvailable := false;
          return;
        }
        InsertEventKeepsKeys(tables, sensorId, "disconnect", now);
        tables := tables.(events := InsertEvent(tables.events, sensorId, "disconnect", now));
      }
    }

    /** `addReading`: the reading is stored and the sensor marked as seen, as
        `AddReadingAt` says; on the fallback path the reading is dropped. */
    method AddReading(reading: Reading, now: int, fail: Fault)
      requires Valid()
      modifies this
      ensures Valid() && mockSensors == old(mockSensors)
      ensures dbAvailable == (old(dbAvailable) && !AddReadingAt(old(tables), reading, now, fail).threw)
      ensures tables == if old(dbAvailable) then AddReadingAt(old(tables), reading, now, fail).tables
                        else old(tables)
    {
      if !dbAvailable {
        return;
      }
      if fail == Some(0) {
        dbAvailable := false;
        return;
      }
      InsertReadingKeepsKeys(tables, reading);
      tables := tables.(readings := InsertReading(tables.readings, reading));
      UpdateSensorConnection(reading.sensorId, true, now, Shifted(fail, 1));
    }

    /** `getReadingsBySensor`: the stored readings newest first, or `limit || 10`
        synthesized ones. */
    method GetReadingsBySensor(sensorId: string, limit: Option<int>, now: int, random: nat -> real, fail: Fault)
      returns (readings: seq<Reading>)
      requires Valid()
      modifies this
      ensures Valid() && tables == old(tables) && mockSensors == old(mockSensors)
      ensures dbAvailable == (old(dbAvailable) && fail != Some(0))
      ensures dbAvailable ==> readings == ReadingsBySensorQuery(tables, sensorId, limit)
      ensures !dbAvailable ==> && |readings| == (if MockCount(limit) < 0 then 0 else MockCount(limit))
                               && forall i :: 0 <= i < |readings| ==> readings[i] == MockReading(sensorId, i, now, random)
      decreases dbAvailable
    {
      if !dbAvailable {
        readings := SynthesizeReadings(sensorId, limit, now, random);
        return;
      }
      if fail == Some(0) {
        dbAvailable := false;
        readings := GetReadingsBySensor(sensorId, limit, now, random, None);
        return;
      }
      readings := ReadingsBySensorQuery(tables, sensorId, limit);
    }

    /** `getReadingsByDateRange`: no fallback data; empty once the latch is cleared. */
    method GetReadingsByDateRange(sensorId: string, startDate: int, endDate: int, fail: Fault)
      returns (readings: seq<Reading>)
      requires Valid()
      modifies this
      ensures Valid() && tables == old(tables) && mockSensors == old(mockSensors)
      ensures dbAvailable == (old(dbAvailable) && fail != Some(0))
      ensures readings == if dbAvailable then ReadingsBetweenQuery(tables, sensorId, startDate, endDate) else []
    {
      if !dbAvailable {
        return [];
      }
      if fail == Some(0) {
        dbAvailable := false;
        return [];
      }
      readings := ReadingsBetweenQuery(tables, sensorId, startDate, endDate);
    }

    /** `getConnectionEvents`: the stored events newest first, or the two fixed mock
        events. */
    method GetConnectionEvents(sensorId: string, startDate: Option<int>, endDate: Option<int>,
                               now: int, fail: Fault)
      returns (events: seq<ConnectionEvent>)
      requires Valid()
      modifies this
      ensures Valid() && tables == old(tables) && mockSensors == old(mockSensors)
      ensures dbAvailable == (old(dbAvailable) && fail != Some(0))
      ensures events == if dbAvailable then EventsQuery(tables, sensorId, startDate, endDate)
                        else MockEvents(sensorId, now)
      decreases dbAvailable
    {
      if !dbAvailable {
        return MockEvents(sensorId, now);
      }
      if fail == Some(0) {
        dbAvailable := false;
        events := GetConnectionEvents(sensorId, startDate, endDate, now, None);
        return;
      }
      events := EventsQuery(tables, sensorId, startDate, endDate);
    }
  }
}
