/** The in-memory store of lib/data-store.ts: a registry of sensors keyed by id, a
    bounded log of readings and an unbounded log of connection events. Time is the
    millisecond input `now`; the calendar arithmetic of `clearOldData` is replaced by
    its result, the cutoff. */
module MemoryStore {
  import opened SensorTypes
  import opened Collections

  /** `maxReadings`: the readings log never holds more than this many entries. */
  const MaxReadings: nat := 10000

  /** `readings.filter((r) => r.sensorId === sensorId)` */
  function ReadingsOf(rs: seq<Reading>, sensorId: string): (r: seq<Reading>)
    ensures forall x :: multiset(r)[x] == if x.sensorId == sensorId then multiset(rs)[x] else 0
    ensures forall k :: 0 <= k < |r| ==> r[k].sensorId == sensorId
  {
    Filter(rs, (r: Reading) => r.sensorId == sensorId)
  }

  /** `(r) => r.sensorId === sensorId && r.timestamp >= startDate && r.timestamp <= endDate` */
  function OfSensorBetween(sensorId: string, start: int, end: int): Reading -> bool
  {
    (r: Reading) => r.sensorId == sensorId && start <= r.timestamp <= end
  }

  /** `(r) => r.timestamp >= cutoffDate` */
  function ReadingSince(cutoff: int): Reading -> bool
  {
    (r: Reading) => r.timestamp >= cutoff
  }

  /** `(e) => e.timestamp >= cutoffDate` */
  function EventSince(cutoff: int): ConnectionEvent -> bool
  {
    (e: ConnectionEvent) => e.timestamp >= cutoff
  }

  /** The event filter of `getConnectionEvents`: by sensor only for a truthy
      `sensorId`, by range only when both bounds are given. */
  predicate EventSelected(e: ConnectionEvent, sensorId: Option<string>, start: Option<int>, end: Option<int>)
  {
    && (sensorId.Some? && sensorId.value != "" ==> e.sensorId == sensorId.value)
    && (start.Some? && end.Some? ==> start.value <= e.timestamp <= end.value)
  }


  /** The filters of `getConnectionEvents`: by sensor for a truthy `sensorId`, then
      by range when both bounds are given. */
  function SelectEvents(es: seq<ConnectionEvent>, sensorId: Option<string>, start: Option<int>, end: Option<int>)
    : (r: seq<ConnectionEvent>)
    ensures forall x :: multiset(r)[x] == if EventSelected(x, sensorId, start, end) then multiset(es)[x] else 0
  {
    var bySensor := if sensorId.Some? && sensorId.value != "" then Filter(es, OfSensorEvent(sensorId.value)) else es;
    if start.Some? && end.Some? then Filter(bySensor, EventBetween(start.value, end.value)) else bySensor
  }

  /** `(e) => e.sensorId === sensorId` */
  function OfSensorEvent(sensorId: string): ConnectionEvent -> bool
  {
    (e: ConnectionEvent) => e.sensorId == sensorId
  }

  /** `(e) => e.timestamp >= startDate && e.timestamp <= endDate` */
  function EventBetween(start: int, end: int): ConnectionEvent -> bool
  {
    (e: ConnectionEvent) => start <= e.timestamp <= end
  }

  /** `readings.slice(-maxReadings)` once the log is over the limit: the newest
      `MaxReadings` entries, in order. */
  function Retain(rs: seq<Reading>): (r: seq<Reading>)
    ensures |r| == if |rs| > MaxReadings then MaxReadings else |rs|
    ensures r == rs[|rs| - |r|..]
  {
    if |rs| > MaxReadings then rs[|rs| - MaxReadings..] else rs
  }

  function ReadingTime(r: Reading): int
  {
    r.timestamp
  }

  function EventTime(e: ConnectionEvent): int
  {
    e.timestamp
  }

  /** Readings sorted by `b.timestamp - a.timestamp`: newest first. */
  function ReadingsNewestFirst(rs: seq<Reading>): seq<Reading>
  {
    NewestFirst(rs, ReadingTime)
  }

  /** `readings.filter((r) => r.sensorId === sensorId).sort(...)` */
  function SensorReadingsNewestFirst(rs: seq<Reading>, sensorId: string): (r: seq<Reading>)
    ensures |r| == |ReadingsOf(rs, sensorId)|
    ensures forall x :: multiset(r)[x] == if x.sensorId == sensorId then multiset(rs)[x] else 0
    ensures forall k :: 0 <= k < |r| ==> r[k].sensorId == sensorId
    ensures forall i, j :: 0 <= i < j < |r| ==> r[i].timestamp >= r[j].timestamp
  {
    var matching := ReadingsOf(rs, sensorId);
    var r := ReadingsNewestFirst(matching);
    forall k | 0 <= k < |r| ensures r[k].sensorId == sensorId {
      assert multiset(matching)[r[k]] > 0;
    }
    r
  }

  /** `limit ? sorted.slice(0, limit) : sorted` */
  function TruncateIf(rs: seq<Reading>, limit: Option<int>): (r: seq<Reading>)
    ensures r <= rs
    ensures limit.None? || limit.value == 0 ==> r == rs
  {
    if limit.Some? && limit.value != 0 then SliceTo(rs, limit.value) else rs
  }

  /** `Array.from(map.values())`: the values in key insertion order. */
  function ValuesInOrder(m: map<string, Sensor>, order: seq<string>): (r: seq<Sensor>)
    requires forall k :: 0 <= k < |order| ==> order[k] in m
    ensures |r| == |order|
    ensures forall k :: 0 <= k < |order| ==> r[k] == m[order[k]]
  {
    if order == [] then [] else [m[order[0]]] + ValuesInOrder(m, order[1..])
  }

  /** A prefix of a sensor's newest-first readings is one too. */
  lemma NewestPrefix(r: seq<Reading>, sorted: seq<Reading>, sensorId: string)
    requires r <= sorted
    requires forall k :: 0 <= k < |sorted| ==> sorted[k].sensorId == sensorId
    requires forall i, j :: 0 <= i < j < |sorted| ==> sorted[i].timestamp >= sorted[j].timestamp
    ensures forall k :: 0 <= k < |r| ==> r[k].sensorId == sensorId
    ensures forall i, j :: 0 <= i < j < |r| ==> r[i].timestamp >= r[j].timestamp
  {
    assert forall k :: 0 <= k < |r| ==> r[k] == sorted[k];
  }

  /** Listing a registry in key order: each key once and each key's record, which
      carries that key. */
  lemma RegistryInOrder(m: map<string, Sensor>, order: seq<string>)
    requires forall id :: id in m ==> m[id].id == id
    requires forall id :: id in m <==> id in order
    requires forall i, j :: 0 <= i < j < |order| ==> order[i] != order[j]
    ensures var r := ValuesInOrder(m, order);
      && |r| == |order|
      && (forall id :: id in m ==> m[id] in r)
      && (forall k :: 0 <= k < |r| ==> r[k].id in m && r[k] == m[r[k].id])
      && (forall i, j :: 0 <= i < j < |r| ==> r[i].id != r[j].id)
  {
    var r := ValuesInOrder(m, order);
    forall id | id in m ensures m[id] in r {
      var k :| 0 <= k < |order| && order[k] == id;
      assert r[k] == m[id];
    }
  }

  /** The record `updateSensorConnection` leaves behind: the flag set, and the
      connection or disconnection time stamped. */
  function MarkConnection(s: Sensor, isConnected: bool, now: int): (r: Sensor)
    ensures r.id == s.id && r.name == s.name && r.latitude == s.latitude && r.longitude == s.longitude
    ensures r.isConnected == isConnected
    ensures isConnected ==> r.lastConnection == now && r.lastDisconnection == s.lastDisconnection
    ensures !isConnected ==> r.lastDisconnection == Some(now) && r.lastConnection == s.lastConnection
  {
    if isConnected then s.(isConnected := true, lastConnection := now)
    else s.(isConnected := false, lastDisconnection := Some(now))
  }

  /** The event `updateSensorConnection` logs: id `${sensorId}-${Date.now()}`. */
  function ConnectionEventAt(sensorId: string, isConnected: bool, now: int): (e: ConnectionEvent)
    ensures e.sensorId == sensorId && e.timestamp == now
    ensures e.eventType == Connect <==> isConnected
  {
    ConnectionEvent(sensorId + "-" + IntToString(now), sensorId, now, if isConnected then Connect else Disconnect)
  }

  /** The `dataStore` singleton. `sensorOrder` is the insertion order of the `Map`'s
      keys, which `Array.from(sensors.values())` follows. */
  class DataStore {
    var sensors: map<string, Sensor>
    var sensorOrder: seq<string>
    var readings: seq<Reading>
    var connectionEvents: seq<ConnectionEvent>

    /** Every sensor is stored under its own id, the key order lists each key once,
        and the readings log is within its bound. */
    ghost predicate Valid()
      reads this
    {
      && |readings| <= MaxReadings
      && (forall id :: id in sensors ==> sensors[id].id == id)
      && (forall id :: id in sensors <==> id in sensorOrder)
      && (forall i, j :: 0 <= i < j < |sensorOrder| ==> sensorOrder[i] != sensorOrder[j])
    }

    constructor ()
      ensures Valid()
      ensures sensors == map[] && sensorOrder == [] && readings == [] && connectionEvents == []
    {
      sensors := map[];
      sensorOrder := [];
      readings := [];
      connectionEvents := [];
    }

    /** `registerSensor` is insert-only: a known id returns the stored record and
        changes nothing; a new id is stored as disconnected, last connected `now`. */
    method RegisterSensor(id: string, name: string, latitude: real, longitude: real, now: int)
      returns (sensor: Sensor)
      requires Valid()
      modifies this
      ensures Valid()
      ensures readings == old(readings) && connectionEvents == old(connectionEvents)
      ensures old(id in sensors) ==>
                sensor == old(sensors[id]) && sensors == old(sensors) && sensorOrder == old(sensorOrder)
      ensures old(id !in sensors) ==>
                && sensor == Sensor(id, name, latitude, longitude, false, now, None)
                && sensors == old(sensors)[id := sensor]
                && sensorOrder == old(sensorOrder) + [id]
      ensures sensor.id == id && sensors[id] == sensor
    {
      if id in sensors {
        return sensors[id];
      }
      sensor := Sensor(id, name, latitude, longitude, false, now, None);
      sensors := sensors[id := sensor];
      sensorOrder := sensorOrder + [id];
    }

    /** `getSensor`: the record stored under `id`, which carries that id. */
    function GetSensor(id: string): (r: Option<Sensor>)
      reads this
      requires Valid()
      ensures r.Some? <==> id in sensors
      ensures r.Some? ==> r.value.id == id && r.value == sensors[id]
    {
      if id in sensors then Some(sensors[id]) else None
    }

    /** `getAllSensors`: every registered sensor exactly once, in registration order. */
    function GetAllSensors(): (r: seq<Sensor>)
      reads this
      requires Valid()
      ensures |r| == |sensorOrder|
      ensures forall id :: id in sensors ==> sensors[id] in r
      ensures forall k :: 0 <= k < |r| ==> r[k].id in sensors && r[k] == sensors[r[k].id]
      ensures forall i, j :: 0 <= i < j < |r| ==> r[i].id != r[j].id
      ensures forall k :: 0 <= k < |r| ==> r[k] == sensors[sensorOrder[k]]
    {
      RegistryInOrder(sensors, sensorOrder);
      ValuesInOrder(sensors, sensorOrder)
    }

    /** `updateSensorConnection`: for a registered sensor, the flag and the matching
        timestamp change and exactly one event of the matching type is logged, on
        every call; for an unknown id nothing changes. */
    method UpdateSensorConnection(sensorId: string, isConnected: bool, now: int)
      requires Valid()
      modifies this
      ensures Valid()
      ensures sensorOrder == old(sensorOrder) && readings == old(readings)
      ensures old(sensorId !in sensors) ==>
                sensors == old(sensors) && connectionEvents == old(connectionEvents)
      ensures old(sensorId in sensors) ==>
                && sensors == old(sensors)[sensorId := MarkConnection(old(sensors[sensorId]), isConnected, now)]
                && connectionEvents == old(connectionEvents) + [ConnectionEventAt(sensorId, isConnected, now)]
    {
      if sensorId in sensors {
        var sensor := MarkConnection(sensors[sensorId], isConnected, now);
        sensors := sensors[sensorId := sensor];
        AddConnectionEvent(ConnectionEventAt(sensorId, isConnected, now));
      }
    }

    /** `addReading`: the reading is appended and the log cut back to its newest
        `MaxReadings` entries; then the sensor is marked connected. */
    method AddReading(reading: Reading, now: int)
      requires Valid()
      modifies this
      ensures Valid()
      ensures readings == Retain(old(readings) + [reading])
      ensures readings[|readings| - 1] == reading
      ensures sensorOrder == old(sensorOrder)
      ensures old(reading.sensorId !in sensors) ==>
                sensors == old(sensors) && connectionEvents == old(connectionEvents)
      ensures old(reading.sensorId in sensors) ==>
                && sensors == old(sensors)[reading.sensorId := MarkConnection(old(sensors[reading.sensorId]), true, now)]
                && connectionEvents == old(connectionEvents) + [ConnectionEventAt(reading.sensorId, true, now)]
    {
      readings := readings + [reading];
      if |readings| > MaxReadings {
        readings := readings[|readings| - MaxReadings..];
      }
      UpdateSensorConnection(reading.sensorId, true, now);
    }

    /** `getReadingsBySensor`: the sensor's readings newest first; with a truthy
        `limit`, the first `limit` of them (JavaScript `slice(0, limit)`). */
    function GetReadingsBySensor(sensorId: string, limit: Option<int>): (r: seq<Reading>)
      reads this
      ensures r <= SensorReadingsNewestFirst(readings, sensorId)
      ensures forall k :: 0 <= k < |r| ==> r[k].sensorId == sensorId
      ensures forall i, j :: 0 <= i < j < |r| ==> r[i].timestamp >= r[j].timestamp
      ensures limit.None? || limit.value == 0 ==>
                forall x :: multiset(r)[x] == if x.sensorId == sensorId then multiset(readings)[x] else 0
      ensures limit.Some? && limit.value > 0 ==>
                |r| == (var n := |ReadingsOf(readings, sensorId)|;
                        if limit.value < n then limit.value else n)
      ensures limit.Some? && limit.value < 0 ==>
                |r| == (var n := |ReadingsOf(readings, sensorId)|;
                        if n + limit.value < 0 then 0 else n + limit.value)
    {
      var sorted := SensorReadingsNewestFirst(readings, sensorId);
      NewestPrefix(TruncateIf(sorted, limit), sorted, sensorId);
      TruncateIf(sorted, limit)
    }

    /** `getReadingsByDateRange`: exactly the sensor's readings with
        `start <= timestamp <= end`, newest first. */
    function GetReadingsByDateRange(sensorId: string, start: int, end: int): (r: seq<Reading>)
      reads this
      ensures forall i, j :: 0 <= i < j < |r| ==> r[i].timestamp >= r[j].timestamp
      ensures forall x :: multiset(r)[x] ==
                if x.sensorId == sensorId && start <= x.timestamp <= end then multiset(readings)[x] else 0
    {
      ReadingsNewestFirst(Filter(readings, OfSensorBetween(sensorId, start, end)))
    }

    /** `getAllReadings`: a sorted copy of the log (the log keeps its order); with a
        truthy `limit`, its first `limit` entries. */
    function GetAllReadings(limit: Option<int>): (r: seq<Reading>)
      reads this
      ensures r <= ReadingsNewestFirst(readings)
      ensures forall i, j :: 0 <= i < j < |r| ==> r[i].timestamp >= r[j].timestamp
      ensures limit.None? || limit.value == 0 ==> multiset(r) == multiset(readings)
      ensures limit.Some? && limit.value > 0 ==>
                |r| == if limit.value < |readings| then limit.value else |readings|
      ensures limit.Some? && limit.value < 0 ==>
                |r| == if |readings| + limit.value < 0 then 0 else |readings| + limit.value
    {
      TruncateIf(ReadingsNewestFirst(readings), limit)
    }

    /** `addConnectionEvent`: append to the event log. */
    method AddConnectionEvent(event: ConnectionEvent)
      modifies this
      ensures connectionEvents == old(connectionEvents) + [event]
      ensures sensors == old(sensors) && sensorOrder == old(sensorOrder) && readings == old(readings)
    {
      connectionEvents := connectionEvents + [event];
    }

    /** `getConnectionEvents`: exactly the selected events, newest first. With no
        filter at all the stored log itself is sorted in place, so it becomes the
        result; otherwise the log is left as it was. */
    method GetConnectionEvents(sensorId: Option<string>, start: Option<int>, end: Option<int>)
      returns (events: seq<ConnectionEvent>)
      modifies this
      ensures forall i, j :: 0 <= i < j < |events| ==> events[i].timestamp >= events[j].timestamp
      ensures forall x :: multiset(events)[x] ==
                if EventSelected(x, sensorId, start, end) then multiset(old(connectionEvents))[x] else 0
      ensures connectionEvents ==
                if (sensorId.None? || sensorId.value == "") && (start.None? || end.None?) then events
                else old(connectionEvents)
      ensures multiset(connectionEvents) == multiset(old(connectionEvents))
      ensures sensors == old(sensors) && sensorOrder == old(sensorOrder) && readings == old(readings)
    {
      events := NewestFirst(SelectEvents(connectionEvents, sensorId, start, end), EventTime);
      if (sensorId.None? || sensorId.value == "") && (start.None? || end.None?) {
        connectionEvents := events;
      }
    }

    /** `clearOldData`: keep exactly the readings and the events stamped at or after
        the cutoff, in their stored order. */
    method ClearOldData(cutoff: int)
      requires Valid()
      modifies this
      ensures Valid()
      ensures readings == Filter(old(readings), ReadingSince(cutoff))
      ensures connectionEvents == Filter(old(connectionEvents), EventSince(cutoff))
      ensures sensors == old(sensors) && sensorOrder == old(sensorOrder)
    {
      var kept := Filter(readings, ReadingSince(cutoff));
      assert |kept| <= |readings|;
      readings := kept;
      connectionEvents := Filter(connectionEvents, EventSince(cutoff));
    }
  }

  /** Below the limit nothing is dropped; at the limit the oldest entry goes. The
      newest entry is always kept, and the log never exceeds the bound. */
  lemma RetainOnAppend(rs: seq<Reading>, x: Reading)
    requires |rs| <= MaxReadings
    ensures |rs| < MaxReadings ==> Retain(rs + [x]) == rs + [x]
    ensures |rs| == MaxReadings ==> Retain(rs + [x]) == rs[1..] + [x]
    ensures |Retain(rs + [x])| <= MaxReadings && Retain(rs + [x])[|Retain(rs + [x])| - 1] == x
  {
    if |rs| == MaxReadings {
      assert (rs + [x])[1..] == rs[1..] + [x];
    }
  }

  /** `clearOldData` is idempotent for a fixed cutoff, and a later, larger cutoff
      subsumes an earlier one. */
  lemma ClearOldDataIdempotent(rs: seq<Reading>, es: seq<ConnectionEvent>, cutoff: int, later: int)
    requires cutoff <= later
    ensures Filter(Filter(rs, ReadingSince(cutoff)), ReadingSince(later)) == Filter(rs, ReadingSince(later))
    ensures Filter(Filter(es, EventSince(cutoff)), EventSince(later)) == Filter(es, EventSince(later))
  {
    FilterSubsumed(rs, ReadingSince(cutoff), ReadingSince(later));
    FilterSubsumed(es, EventSince(cutoff), EventSince(later));
  }

  /** `clearOldData` loses nothing that a range query starting at or after the
      cutoff can see: the query answers the same before and after. */
  lemma ClearKeepsRecentRanges(rs: seq<Reading>, cutoff: int, sensorId: string, start: int, end: int)
    requires cutoff <= start
    ensures ReadingsNewestFirst(Filter(Filter(rs, ReadingSince(cutoff)), OfSensorBetween(sensorId, start, end)))
         == ReadingsNewestFirst(Filter(rs, OfSensorBetween(sensorId, start, end)))
  {
    FilterSubsumed(rs, ReadingSince(cutoff), OfSensorBetween(sensorId, start, end));
  }
}
