/** The sensor API routes under app/api/sensors/ as decision procedures over the
    `dbOperations` model. A request body is `None` when reading it throws: either
    `request.json()` fails (the body is not JSON) or the destructuring of its fields
    does (the body is JSON `null`); otherwise each field is `None` when the JSON has no such key
    (`undefined`). Sensor values arrive already parsed as numbers. Each route takes
    the clock reading `now` and the faults of the store calls it makes. */
module SensorRoutes {
  import opened SensorTypes
  import opened DbOps
  import opened Collections

  /** The sensor `getSensor` finds: the stored row while the database is in use, the
      mock entry once the latch is cleared. */
  function Lookup(available: bool, t: Tables, ms: seq<Sensor>, id: string, now: int): Option<Sensor>
  {
    if available then SensorById(t, id, now) else FindMockSensor(ms, id)
  }

  /** JavaScript truthiness of an optional string field. */
  predicate Truthy(s: Option<string>)
  {
    s.Some? && s.value != ""
  }

  // ---------------------------------------------------------------------------
  // POST /api/sensors/data

  datatype DataBody = DataBody(sensorId: Option<string>, temperature: Option<real>,
                               humidity: Option<real>, pm25: Option<real>)

  /** The responses of the data route; `Status` is the HTTP status code. */
  datatype DataResponse = DataStored(reading: Reading) | DataMissingFields | DataSensorUnknown | DataFailed
  {
    function Status(): int
    {
      match this
      case DataStored(_) => 200
      case DataMissingFields => 400
      case DataSensorUnknown => 404
      case DataFailed => 500
    }
  }

  /** The validation of the data route: a truthy `sensorId`, and each measurement
      present (a value of 0 is present). */
  predicate DataFieldsPresent(b: DataBody)
  {
    Truthy(b.sensorId) && b.temperature.Some? && b.humidity.Some? && b.pm25.Some?
  }

  /** The reading the route stores: the request's sensor, stamped by the server. */
  function ReadingFromBody(b: DataBody, now: int): (r: Reading)
    requires DataFieldsPresent(b)
    ensures r.id.None? && r.sensorId == b.sensorId.value && r.timestamp == now
    ensures r.temperature == b.temperature.value && r.humidity == b.humidity.value && r.pm25 == b.pm25.value
  {
    Reading(None, b.sensorId.value, now, b.temperature.value, b.humidity.value, b.pm25.value)
  }

  /** `POST /api/sensors/data`: 400 and no store call for missing fields; 404 and no
      write for a sensor `getSensor` does not find; otherwise exactly one
      `addReading` of the server-stamped reading, which the 200 response echoes. */
  method PostData(ops: DbOperations, body: Option<DataBody>, now: int, getFail: Fault, addFail: Fault)
    returns (resp: DataResponse)
    requires ops.Valid()
    modifies ops
    ensures ops.Valid() && ops.mockSensors == old(ops.mockSensors)
    ensures body.None? ==> resp == DataFailed && unchanged(ops)
    ensures body.Some? && !DataFieldsPresent(body.value) ==> resp == DataMissingFields && unchanged(ops)
    ensures body.Some? && DataFieldsPresent(body.value) ==>
              var id := body.value.sensorId.value;
              var live := old(ops.dbAvailable) && getFail != Some(0);
              if Lookup(live, old(ops.tables), old(ops.mockSensors), id, now).None? then
                resp == DataSensorUnknown && ops.tables == old(ops.tables) && ops.dbAvailable == live
              else
                var reading := ReadingFromBody(body.value, now);
                && resp == DataStored(reading)
                && ops.tables == (if live then AddReadingAt(old(ops.tables), reading, now, addFail).tables
                                  else old(ops.tables))
                && ops.dbAvailable == (live && !AddReadingAt(old(ops.tables), reading, now, addFail).threw)
    ensures resp.Status() != 500 <==> body.Some?
  {
    if body.None? {
      return DataFailed;
    }
    var b := body.value;
    if !DataFieldsPresent(b) {
      return DataMissingFields;
    }
    var sensor := ops.GetSensor(b.sensorId.value, now, getFail);
    if sensor.None? {
      return DataSensorUnknown;
    }
    var reading := ReadingFromBody(b, now);
    ops.AddReading(reading, now, addFail);
    resp := DataStored(reading);
  }

  // ---------------------------------------------------------------------------
  // POST /api/sensors/register

  datatype RegisterBody = RegisterBody(sensorId: Option<string>, name: Option<string>,
                                       latitude: Option<real>, longitude: Option<real>)

  datatype RegisterResponse = Registered(sensor: Sensor) | RegisterMissingFields | RegisterFailed
  {
    function Status(): int
    {
      match this
      case Registered(_) => 200
      case RegisterMissingFields => 400
      case RegisterFailed => 500
    }
  }

  /** Truthy `sensorId` and `name`; the coordinates only need to be present, so a
      latitude or longitude of 0 passes. */
  predicate RegisterFieldsPresent(b: RegisterBody)
  {
    Truthy(b.sensorId) && Truthy(b.name) && b.latitude.Some? && b.longitude.Some?
  }

  /** `POST /api/sensors/register`: 400 and no store call for missing fields;
      otherwise exactly one `registerSensor` with the body's fields, whose result the
      200 response returns. */
  method PostRegister(ops: DbOperations, body: Option<RegisterBody>, now: int, fail: Fault)
    returns (resp: RegisterResponse)
    requires ops.Valid()
    modifies ops
    ensures ops.Valid()
    ensures body.None? ==> resp == RegisterFailed && unchanged(ops)
    ensures body.Some? && !RegisterFieldsPresent(body.value) ==> resp == RegisterMissingFields && unchanged(ops)
    ensures body.Some? && RegisterFieldsPresent(body.value) ==>
              var b := body.value;
              var o := RegisterAt(old(ops.tables), b.sensorId.value, b.name.value, b.latitude.value,
                                  b.longitude.value, now, fail);
              var sensor := Sensor(b.sensorId.value, b.name.value, b.latitude.value, b.longitude.value, true, now, None);
              && resp == Registered(sensor)
              && ops.dbAvailable == (old(ops.dbAvailable) && !o.threw)
              && ops.tables == (if old(ops.dbAvailable) then o.tables else old(ops.tables))
              && ops.mockSensors == (if ops.dbAvailable then old(ops.mockSensors)
                                     else UpsertMock(old(ops.mockSensors), sensor))
  {
    if body.None? {
      return RegisterFailed;
    }
    var b := body.value;
    if !RegisterFieldsPresent(b) {
      return RegisterMissingFields;
    }
    var sensor := ops.RegisterSensor(b.sensorId.value, b.name.value, b.latitude.value, b.longitude.value, now, fail);
    resp := Registered(sensor);
  }

  // ---------------------------------------------------------------------------
  // POST /api/sensors/disconnect

  datatype DisconnectResponse = Disconnected | DisconnectMissingId | DisconnectUnknown | DisconnectFailed
  {
    function Status(): int
    {
      match this
      case Disconnected => 200
      case DisconnectMissingId => 400
      case DisconnectUnknown => 404
      case DisconnectFailed => 500
    }
  }

  /** `POST /api/sensors/disconnect`: 400 for a falsy `sensorId`; 404 and no event
      for a sensor `getSensor` does not find; otherwise exactly one
      `updateSensorConnection(sensorId, false)`. */
  method PostDisconnect(ops: DbOperations, body: Option<Option<string>>, now: int, getFail: Fault, updateFail: Fault)
    returns (resp: DisconnectResponse)
    requires ops.Valid()
    modifies ops
    ensures ops.Valid() && ops.mockSensors == old(ops.mockSensors)
    ensures body.None? ==> resp == DisconnectFailed && unchanged(ops)
    ensures body.Some? && !Truthy(body.value) ==> resp == DisconnectMissingId && unchanged(ops)
    ensures body.Some? && Truthy(body.value) ==>
              var id := body.value.value;
              var live := old(ops.dbAvailable) && getFail != Some(0);
              if Lookup(live, old(ops.tables), old(ops.mockSensors), id, now).None? then
                resp == DisconnectUnknown && ops.tables == old(ops.tables) && ops.dbAvailable == live
              else
                var o := UpdateConnectionAt(old(ops.tables), id, false, now, updateFail);
                && resp == Disconnected
                && ops.tables == (if live then o.tables else old(ops.tables))
                && ops.dbAvailable == (live && !o.threw)
  {
    if body.None? {
      return DisconnectFailed;
    }
    if !Truthy(body.value) {
      return DisconnectMissingId;
    }
    var id := body.value.value;
    var sensor := ops.GetSensor(id, now, getFail);
    if sensor.None? {
      return DisconnectUnknown;
    }
    ops.UpdateSensorConnection(id, false, now, updateFail);
    resp := Disconnected;
  }

  // ---------------------------------------------------------------------------
  // GET /api/sensors/list

  /** `{ ...sensor, lastReading: readings[0] || null }` */
  function WithLastReading(sensor: Sensor, readings: seq<Reading>): (e: SensorWithLastReading)
    ensures e.sensor == sensor
    ensures e.lastReading.None? <==> readings == []
    ensures e.lastReading.Some? ==> e.lastReading.value == readings[0]
  {
    SensorWithLastReading(sensor, if readings == [] then None else Some(readings[0]))
  }

  /** The list entries for the first `n` sensors while the database answers every
      read. */
  function DatabaseEntries(sensors: seq<Sensor>, n: nat, t: Tables): seq<SensorWithLastReading>
    requires n <= |sensors|
  {
    if n == 0 then []
    else DatabaseEntries(sensors, n - 1, t)
           + [SensorWithLastReading(sensors[n - 1], LatestReadingOf(t, sensors[n - 1].id))]
  }

  /** The list entries for sensors `lo` to `hi - 1` once the fallback answers; the
      k-th read draws from `randoms(k)`. */
  function MockEntries(sensors: seq<Sensor>, lo: nat, hi: nat, now: int, randoms: nat -> (nat -> real))
    : seq<SensorWithLastReading>
    requires lo <= hi <= |sensors|
    decreases hi
  {
    if hi == lo then []
    else MockEntries(sensors, lo, hi - 1, now, randoms)
           + [SensorWithLastReading(sensors[hi - 1], Some(MockReading(sensors[hi - 1].id, 0, now, randoms(hi - 1))))]
  }

  /** Each database entry is its sensor with that sensor's latest stored reading,
      or none when it has no readings. */
  lemma {:induction false} DatabaseEntriesSpec(sensors: seq<Sensor>, n: nat, t: Tables)
    requires n <= |sensors|
    ensures |DatabaseEntries(sensors, n, t)| == n
    ensures forall k :: 0 <= k < n ==>
              DatabaseEntries(sensors, n, t)[k] == SensorWithLastReading(sensors[k], LatestReadingOf(t, sensors[k].id))
  {
    if n > 0 {
      DatabaseEntriesSpec(sensors, n - 1, t);
    }
  }

  /** Each synthesized entry is its sensor with the first mock reading of its read. */
  lemma {:induction false} MockEntriesSpec(sensors: seq<Sensor>, lo: nat, hi: nat, now: int,
                                           randoms: nat -> (nat -> real))
    requires lo <= hi <= |sensors|
    ensures |MockEntries(sensors, lo, hi, now, randoms)| == hi - lo
    ensures forall k :: lo <= k < hi ==>
              MockEntries(sensors, lo, hi, now, randoms)[k - lo]
                == SensorWithLastReading(sensors[k], Some(MockReading(sensors[k].id, 0, now, randoms(k))))
    decreases hi
  {
    if hi > lo {
      MockEntriesSpec(sensors, lo, hi - 1, now, randoms);
    }
  }

  /** One element of the list route's `map`: the sensor spread into an entry with
      the first result of `getReadingsBySensor(sensor.id, 1)`. */
  method EntryFor(ops: DbOperations, sensor: Sensor, now: int, fail: Fault, random: nat -> real)
    returns (e: SensorWithLastReading)
    requires ops.Valid()
    modifies ops
    ensures ops.Valid() && ops.tables == old(ops.tables) && ops.mockSensors == old(ops.mockSensors)
    ensures ops.dbAvailable ==> old(ops.dbAvailable)
    ensures ops.dbAvailable ==> e == SensorWithLastReading(sensor, LatestReadingOf(ops.tables, sensor.id))
    ensures !ops.dbAvailable ==> e == SensorWithLastReading(sensor, Some(MockReading(sensor.id, 0, now, random)))
  {
    LatestQuery(ops.tables, sensor.id);
    var readings := ops.GetReadingsBySensor(sensor.id, Some(1), now, random, fail);
    e := WithLastReading(sensor, readings);
  }

  /** The `Promise.all(sensors.map(...))` of the list route, the reads run one after
      another: `readFails(k)` and `randoms(k)` are the fault and the random draws of
      the k-th read. The first `switchAt` entries come from the database, the rest
      from the fallback: all of them while the latch holds, none if it was already
      cleared. */
  method LastReadings(ops: DbOperations, sensors: seq<Sensor>, now: int,
                      readFails: nat -> Fault, randoms: nat -> (nat -> real))
    returns (entries: seq<SensorWithLastReading>, ghost switchAt: nat)
    requires ops.Valid()
    modifies ops
    ensures ops.Valid() && ops.tables == old(ops.tables) && ops.mockSensors == old(ops.mockSensors)
    ensures ops.dbAvailable ==> old(ops.dbAvailable)
    ensures switchAt <= |sensors|
    ensures entries == DatabaseEntries(sensors, switchAt, ops.tables)
                       + MockEntries(sensors, switchAt, |sensors|, now, randoms)
    ensures ops.dbAvailable ==> switchAt == |sensors|
    ensures !old(ops.dbAvailable) ==> switchAt == 0
  {
    ghost var t, live := ops.tables, ops.dbAvailable;
    entries, switchAt := [], 0;
    var k := 0;
    while k < |sensors|
      invariant switchAt <= k <= |sensors|
      invariant ops.Valid() && ops.tables == t && ops.mockSensors == old(ops.mockSensors)
      invariant ops.dbAvailable ==> live && switchAt == k
      invariant !live ==> switchAt == 0
      invariant entries == DatabaseEntries(sensors, switchAt, t) + MockEntries(sensors, switchAt, k, now, randoms)
    {
      entries, switchAt := NextEntry(ops, sensors, k, entries, switchAt, now, readFails(k), randoms);
      k := k + 1;
    }
  }

  /** One step of `LastReadings`: the k-th read, appended to the entries so far. */
  method NextEntry(ops: DbOperations, sensors: seq<Sensor>, k: nat, entries: seq<SensorWithLastReading>,
                   ghost switchAt: nat, now: int, fail: Fault, randoms: nat -> (nat -> real))
    returns (entries': seq<SensorWithLastReading>, ghost switchAt': nat)
    requires ops.Valid()
    requires switchAt <= k < |sensors|
    requires ops.dbAvailable ==> switchAt == k
    requires entries == DatabaseEntries(sensors, switchAt, ops.tables) + MockEntries(sensors, switchAt, k, now, randoms)
    modifies ops
    ensures ops.Valid() && ops.tables == old(ops.tables) && ops.mockSensors == old(ops.mockSensors)
    ensures ops.dbAvailable ==> old(ops.dbAvailable) && switchAt' == k + 1
    ensures !ops.dbAvailable ==> switchAt' == switchAt
    ensures entries' == DatabaseEntries(sensors, switchAt', ops.tables) + MockEntries(sensors, switchAt', k + 1, now, randoms)
  {
    var e := EntryFor(ops, sensors[k], now, fail, randoms(k));
    if ops.dbAvailable {
      entries', switchAt' := entries + [e], k + 1;
    } else {
      ConcatAssociative(DatabaseEntries(sensors, switchAt, ops.tables), MockEntries(sensors, switchAt, k, now, randoms), [e]);
      entries', switchAt' := entries + [e], switchAt;
    }
  }

  /** `GET /api/sensors/list`: one entry per sensor `getAllSensors` returned, in the
      same order, each with the first result of `getReadingsBySensor(id, 1)`: read from
      the database while the latch holds, synthesized after it is cleared. */
  method ListSensors(ops: DbOperations, now: int, listFail: Fault,
                     readFails: nat -> Fault, randoms: nat -> (nat -> real))
    returns (entries: seq<SensorWithLastReading>)
    requires ops.Valid()
    modifies ops
    ensures ops.Valid() && ops.tables == old(ops.tables) && ops.mockSensors == old(ops.mockSensors)
    ensures ops.dbAvailable ==> old(ops.dbAvailable)
    ensures var live := old(ops.dbAvailable) && listFail != Some(0);
      var sensors := if live then AllSensorsByName(old(ops.tables), now) else old(ops.mockSensors);
      && (ops.dbAvailable ==> entries == DatabaseEntries(sensors, |sensors|, old(ops.tables)))
      && (!live ==> entries == MockEntries(sensors, 0, |sensors|, now, randoms))
      && exists switchAt :: 0 <= switchAt <= |sensors| &&
           entries == DatabaseEntries(sensors, switchAt, old(ops.tables)) + MockEntries(sensors, switchAt, |sensors|, now, randoms)
  {
    var sensors := ops.GetAllSensors(now, listFail);
    ghost var switchAt;
    entries, switchAt := LastReadings(ops, sensors, now, readFails, randoms);
    assert MockEntries(sensors, |sensors|, |sensors|, now, randoms) == [];
    assert DatabaseEntries(sensors, 0, ops.tables) == [];
  }
}
