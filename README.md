# Sensor network backend of unipamplona-sesnores, in Dafny

This project is a Dafny model of the sensor backend of *unipamplona-sesnores*, an air-quality monitoring dashboard. ESP32 sensors register themselves and post temperature, humidity and PM2.5 readings. The dashboard lists the sensors, their latest readings and their connect/disconnect history. The model covers five parts:

- **`DbOps`** (`db_operations.dfy`) models `lib/db-operations.ts`.
  - The three SQL tables are a `Tables` value held by the class `DbOperations`, together with the one-way `dbAvailable` latch and the in-memory `mockSensors` fallback.
  - Every `db.execute` call becomes a function on the tables.
  - A failing database is an input `fail`: the index of the call that throws. Partial writes are therefore modelled too.
  - The connection-liveness rule is modelled: a `connect` event is logged only after at least `CONNECTION_STALE_MS` = 60 000 ms of silence, and a sensor reads as connected while `now - last_seen < 60000`. Its consequences for bursts of readings are proved.
- **`MemoryStore`** (`memory_store.dfy`) models the `DataStore` class of `lib/data-store.ts`, keeping its own semantics:
  - insert-only registration;
  - an event on every connection change;
  - a readings log capped at 10 000 entries;
  - newest-first queries;
  - `getConnectionEvents` sorts the stored log in place when no filter is given;
  - date-based clearing.
- **`SensorRoutes`** (`routes.dfy`) models the `data`, `register`, `disconnect` and `list` API routes as methods over the `DbOperations` model.
  - Each method returns the response and its HTTP status.
  - The contracts state the validation (400), the existence check (404 with no write) and the single store call on success.
- **`AirQuality`** (`air_quality.dfy`) models the three copies of the PM2.5 classifier in the dashboard components.
  - One reference definition is built from the breakpoints 12 / 35.4 / 55.4 / 150.4 µg/m³. These are the pre-2024 US EPA AQI breakpoints of Appendix G to 40 CFR Part 58, with the two top categories merged.
  - It is proved that the copies agree band for band and are monotone.
- **`SensorTypes` and `Collections`** (`types.dfy`, `collections.dfy`) hold the record shapes of `lib/types.ts` and shared building blocks:
  - JavaScript `filter`;
  - a stable sort, which models both `Array.prototype.sort` and `ORDER BY`;
  - `slice`;
  - the text order of `ORDER BY name`;
  - a "latest element" scan;
  - decimal rendering of numeric ids.

Conventions:

- Time is an integer number of milliseconds, passed in as `now`.
- Measurements and coordinates are `real`.
- `Math.random()` is a stream `random: nat -> real`.

## Model

| member | source | states |
|---|---|---|
| SensorTypes.NatToString | lib/db-operations.ts:229 | `String(row.id)` and `${i}` render a number as a non-empty string of decimal digits |
| SensorTypes.IntToString | lib/data-store.ts:50 | `${Date.now()}` starts with a minus sign exactly when the number is negative |
| SensorTypes.NatToStringInjective | lib/db-operations.ts:229 | distinct row ids render as distinct id strings |
| SensorTypes.TaggedIdsDistinct | lib/db-operations.ts:208 | the fallback ids `${sensorId}-${i}` are pairwise distinct in `i` |
| Collections.Filter | lib/data-store.ts:73 | `filter` keeps exactly the elements satisfying the predicate, each as often as it occurs |
| Collections.FilterAppend | lib/data-store.ts:114-115 | filtering a concatenation filters each part and keeps their order |
| Collections.FilterSubsumed | lib/data-store.ts:114-115 | filtering by a weaker predicate and then by a stronger one equals filtering by the stronger one |
| Collections.SortBy | lib/data-store.ts:74 | the sort returns a permutation of its input |
| Collections.SortBySorted | lib/data-store.ts:74 | under a total preorder the sort's result is ordered |
| Collections.NewestFirst | lib/data-store.ts:74 | sorting by `b.timestamp - a.timestamp` gives a permutation whose timestamps never increase |
| Collections.NewestFirstHead | lib/db-operations.ts:221 | the head of the newest-first order is the newest element, the first one stored among equally new ones |
| Collections.LatestWhereSpec | app/api/sensors/list/route.ts:17-20 | the latest-element scan finds nothing exactly when no element qualifies; otherwise it finds a qualifying element that none is newer than and that every earlier qualifying element is older than |
| Collections.LatestWhereIsNewest | lib/db-operations.ts:220-226 | the scan equals the head of the newest-first order of the qualifying elements |
| Collections.SliceTo | lib/data-store.ts:76 | `slice(0, end)` is a prefix of length `end`, or, for a negative `end`, of the length less the magnitude of `end`, clamped to the sequence |
| Collections.TextLeTotal | lib/db-operations.ts:155 | any two names are comparable in the `ORDER BY name` order |
| Collections.TextLeTransitive | lib/db-operations.ts:155 | the `ORDER BY name` order is transitive |
| Collections.TextKeyTotalPreorder | lib/db-operations.ts:155 | ordering rows by a text key is a total preorder |
| AirQuality.Band | components/sensor-map.tsx:12-18 | reference band: the number of breakpoints the concentration exceeds, between 0 and 4 |
| AirQuality.BandMonotone | components/sensor-map.tsx:12-18 | a higher concentration never falls in a lower band |
| AirQuality.BandByComparisons | components/sensor-map.tsx:13-17 | the band agrees with the chain of `<=` tests at 12, 35.4, 55.4 and 150.4 |
| AirQuality.AirQualityStatus | components/sensor-map.tsx:12-18 | the map marker shows the label and colour of the concentration's band |
| AirQuality.QualityBadge | components/sensor-readings-table.tsx:44-50 | the table badge shows the class and short label of the concentration's band |
| AirQuality.CardAirQuality | components/sensor-status-card.tsx:15-21 | the status card shows the short label and class of the concentration's band |
| AirQuality.LabelsDistinct | components/sensor-map.tsx:13-17 | each copy's five labels are distinct, so a label determines its band |
| AirQuality.MapAndTableAgree | components/sensor-readings-table.tsx:44-50 | the map and the table put every concentration in the same band |
| AirQuality.CardMatchesTable | components/sensor-status-card.tsx:15-21 | the card and the table show the same label and colour class for every concentration |
| AirQuality.MapStatusMonotone | components/sensor-map.tsx:12-18 | the map's band never decreases as the concentration grows |
| DbOps.Shifted | lib/db-operations.ts:194 | a nested operation that starts after `k` successful calls sees the same failing call, renumbered |
| DbOps.FindSensor | lib/db-operations.ts:119-124 | `WHERE sensor_id = ?` finds a row carrying the id, and finds none exactly when no row carries it |
| DbOps.SelectSensorUnique | lib/db-operations.ts:119-126 | under the UNIQUE constraint the selected row is the one row with that id |
| DbOps.LastSeen | lib/db-operations.ts:281-292 | `SELECT last_seen` is absent exactly when the sensor has no row, and is that row's `last_seen` otherwise |
| DbOps.UpsertSensorSpec | lib/db-operations.ts:80-89 | the upsert leaves one row for the id with the new name, position and `last_seen`, keeps `created_at` of an existing row, changes no other id, and keeps ids unique |
| DbOps.TouchLastSeenSpec | lib/db-operations.ts:298-301 | `UPDATE ... SET last_seen` refreshes the sensor's row if there is one and changes nothing else |
| DbOps.UpsertSensor | lib/db-operations.ts:80-89 | the upsert adds at most one row; existing rows keep their id and `created_at`; an added row is stamped `now` for both times |
| DbOps.TouchLastSeen | lib/db-operations.ts:298-301 | the update changes only `last_seen`, and only on the rows carrying the id |
| DbOps.UpdateConnectionAt | lib/db-operations.ts:281-315 | `updateSensorConnection` throws only if some call fails, never touches the readings or the number of sensors, leaves the sensors alone on disconnect, and appends at most one event |
| DbOps.AddReadingAt | lib/db-operations.ts:187-194 | a failing `INSERT` changes nothing; otherwise the reading is appended under the next row id, and at most one event is appended after the old ones |
| DbOps.RegisterAt | lib/db-operations.ts:80-94 | registration throws exactly when one of its two calls fails, never touches the readings, and appends one event unless it throws |
| DbOps.StaleIffNotConnected | lib/db-operations.ts:46 | the connect-path staleness test is the exact complement of the derived `isConnected` at the 60 000 ms threshold |
| DbOps.ConnectLogsOnlyWhenStale | lib/db-operations.ts:294-309 | on connect, `last_seen` becomes `now` and one `connect` event is appended exactly when the sensor was stale; an unknown id always logs |
| DbOps.DisconnectAlwaysLogs | lib/db-operations.ts:310-315 | on disconnect exactly one `disconnect` event is appended and nothing else changes |
| DbOps.RegisterAlwaysLogsConnect | lib/db-operations.ts:80-104 | a registration always appends one `connect` event and leaves the sensor reading as connected |
| DbOps.StoreReading | lib/db-operations.ts:187-194 | storing one reading of a known sensor adds one reading row, moves `last_seen` to its time, and logs `connect` exactly when the sensor was stale |
| DbOps.QuietWhileLive | lib/db-operations.ts:187-194 | readings less than a minute apart from a live sensor log no event and move `last_seen` to the latest reading |
| DbOps.BurstLogsOneConnect | lib/db-operations.ts:187-194 | a burst of readings less than a minute apart from a stale sensor logs exactly one `connect`, stamped with the first reading |
| DbOps.IngestOne | lib/db-operations.ts:187-194 | one reading of a known sensor moves `last_seen` to its time and logs `connect` exactly when the sensor was stale |
| DbOps.GapLogsAnotherConnect | lib/db-operations.ts:295-309 | after one reading, a second reading a minute or more later logs another `connect` |
| DbOps.StaleReadingLogsConnect | lib/db-operations.ts:295-309 | a reading a minute or more after `last_seen` logs one `connect` stamped with its time |
| DbOps.SensorById | lib/db-operations.ts:113-139 | `getSensor` finds a record exactly when the id has a row; it carries the row's name, position and `last_seen`, and reads as connected iff that is less than a minute old |
| DbOps.ByName | lib/db-operations.ts:155 | `ORDER BY name` yields every row, each as often as stored, ordered by name |
| DbOps.AllSensorsByName | lib/db-operations.ts:148-171 | `getAllSensors` returns one record per row, as a permutation of the rows' records, ordered by name |
| DbOps.SensorRowsNewestFirst | lib/db-operations.ts:221-222 | exactly the sensor's readings, newest first |
| DbOps.ReadingRowsOf | lib/db-operations.ts:221-222 | `WHERE sensor_id = ?` keeps exactly the sensor's readings, with multiplicity |
| DbOps.SqlLimit | lib/db-operations.ts:221 | `LIMIT n` keeps a prefix of length `n`; a negative limit keeps everything |
| DbOps.LimitedRows | lib/db-operations.ts:220-224 | the `LIMIT` applies only for a truthy limit and keeps a prefix |
| DbOps.ReadingsBySensorQuery | lib/db-operations.ts:219-235 | the query returns readings of the sensor, newest first, as many as stored or as the limit allows; always a prefix of the full newest-first read-back, and without a positive limit exactly the stored readings, each as often as stored |
| DbOps.ReadingsBySensorComplete | lib/db-operations.ts:219-235 | without a limit every stored reading of the sensor is returned; a limit keeps a prefix of that list |
| DbOps.LatestRowSpec | lib/db-operations.ts:221 | the latest row exists exactly when the sensor has a reading; then no reading of the sensor is newer, and every earlier-stored one is older |
| DbOps.LatestQuery | lib/db-operations.ts:219-235 | `getReadingsBySensor(id, 1)` returns exactly the latest reading, or nothing for a sensor without readings |
| DbOps.ReadingRowsBetween | lib/db-operations.ts:251-253 | `BETWEEN` keeps exactly the sensor's readings inside the inclusive range |
| DbOps.RowsBetweenNewestFirst | lib/db-operations.ts:251-253 | the range rows, newest first: each matching row as often as stored, and no other row |
| DbOps.ReadingsBetweenQuery | lib/db-operations.ts:249-264 | `getReadingsByDateRange` returns the sensor's readings inside the inclusive range, newest first, each as often as stored and no other |
| DbOps.EventRowsMatching | lib/db-operations.ts:343-349 | the event filter keeps the sensor's events, restricted to the range only when both bounds are given |
| DbOps.EventRowsNewestFirst | lib/db-operations.ts:343-353 | the matching events, newest first: each as often as stored, and no other event |
| DbOps.EventsQuery | lib/db-operations.ts:342-360 | `getConnectionEvents` returns the sensor's matching events, newest first, each as often as stored and no other |
| DbOps.RowToReading | lib/db-operations.ts:228-235 | a reading row reads back with an id and with the row's sensor, values and time |
| DbOps.RowToEvent | lib/db-operations.ts:355-360 | an event row reads back with its sensor and time, as a disconnect exactly when it stores `disconnect` |
| DbOps.ReadBackIdsDistinct | lib/db-operations.ts:229 | rows with distinct row ids read back with distinct `id` strings |
| DbOps.InsertReadingKeepsKeys | lib/db.ts:35-36 | storing a reading hands out the next AUTOINCREMENT key, so row `k` keeps key `k + 1` |
| DbOps.InsertEventKeepsKeys | lib/db.ts:54-55 | logging an event hands out the next AUTOINCREMENT key, so row `k` keeps key `k + 1` |
| DbOps.StoredIdsDistinct | lib/db-operations.ts:229 | in tables keyed by position, no two stored readings, and no two stored events, read back with the same `id` |
| DbOps.MockIndex | lib/db-operations.ts:71 | `findIndex` gives the first entry with the id, or -1 exactly when there is none |
| DbOps.InitialMockSensors | lib/db-operations.ts:5-42 | four demo sensors with distinct ids, none connected in the future, each reading as connected exactly when it has no disconnection time |
| DbOps.UpsertMock | lib/db-operations.ts:71-73 | the fallback list grows by at most one and holds the new record |
| DbOps.MockReading | lib/db-operations.ts:207-214 | a synthesized reading belongs to the sensor, is not in the future, and for draws in [0, 1) lies in 20-30 °C, 50-80 % and 10-30 µg/m³ |
| DbOps.FindMockSensor | lib/db-operations.ts:115 | `find` returns an entry with the id, or null exactly when there is none |
| DbOps.UpsertMockSpec | lib/db-operations.ts:71-73 | the fallback registration replaces the same-id entry in place or appends; other entries stay put, ids stay unique, and the new record is the one found |
| DbOps.FindMockSensorAgree | lib/db-operations.ts:115 | lookups of an id agree on two lists whose entries for that id coincide |
| DbOps.SynthesizeReadings | lib/db-operations.ts:204-216 | the fallback loop yields as many readings as a truthy limit says, else 10 (none for a negative count), the i-th being the synthesized reading `i` |
| DbOps.MockReadingsShape | lib/db-operations.ts:206-215 | synthesized readings belong to the sensor, have distinct ids, run newest first 5 minutes apart, and lie in their value ranges for draws in [0, 1) |
| DbOps.MockEvents | lib/db-operations.ts:325-340 | the fallback returns one connect and one disconnect event, newest first |
| DbOps.InitializeTables | lib/db.ts:16-75 | `initializeTables()` never rejects; it resolves to whether the tables were created |
| DbOps.LoadIgnoresFailedInit | lib/db-operations.ts:49-57 | as written, the latch is set after load even when table creation failed |
| DbOps.IntendedLatchAfterLoad | lib/db-operations.ts:49-57 | the intended latch is set only when the tables were created |
| DbOps.IntendedLatchFollowsTables | lib/db-operations.ts:49-57 | the intended latch is set exactly when table creation succeeded |
| DbOps.DbOperations.constructor | lib/db-operations.ts:44-57 | module load as written: the latch is set whatever `initializeTables()` returned, the four demo sensors are loaded, and the tables are those the database already holds, their rows keyed by position |
| DbOps.DbOperations.Intended | lib/db-operations.ts:49-57 | module load as intended: the latch is set exactly when the tables were created |
| DbOps.DbOperations.RegisterSensor | lib/db-operations.ts:60-110 | the same connected record is returned on either path; a throw at either statement clears the latch and redoes the registration in the fallback |
| DbOps.DbOperations.GetSensor | lib/db-operations.ts:113-145 | the stored record, or the fallback entry once the latch is (or becomes) cleared |
| DbOps.DbOperations.GetAllSensors | lib/db-operations.ts:148-177 | the stored sensors ordered by name, or the fallback list |
| DbOps.DbOperations.UpdateSensorConnection | lib/db-operations.ts:273-321 | the tables change as the read-decide-write rule says; a throw only clears the latch; the fallback does nothing |
| DbOps.DbOperations.AddReading | lib/db-operations.ts:180-199 | the reading is stored and the sensor marked as seen; a throw clears the latch with no retry; the fallback drops the reading |
| DbOps.DbOperations.GetReadingsBySensor | lib/db-operations.ts:202-241 | the stored readings newest first, or as many synthesized ones as a truthy limit says, else 10 |
| DbOps.DbOperations.GetReadingsByDateRange | lib/db-operations.ts:244-270 | the stored readings in the range, or `[]` once the latch is cleared, with no retry |
| DbOps.DbOperations.GetConnectionEvents | lib/db-operations.ts:324-366 | the stored matching events newest first, or the two fixed fallback events |
| MemoryStore.ReadingsOf | lib/data-store.ts:73 | exactly the sensor's readings, with multiplicity |
| MemoryStore.SelectEvents | lib/data-store.ts:96-104 | exactly the events selected by sensor (only for a truthy id) and by range (only when both bounds are given) |
| MemoryStore.Retain | lib/data-store.ts:63-65 | the log is cut to its newest `maxReadings` entries, in order |
| MemoryStore.SensorReadingsNewestFirst | lib/data-store.ts:72-74 | exactly the sensor's readings, newest first |
| MemoryStore.TruncateIf | lib/data-store.ts:76 | a falsy limit keeps the whole list; a truthy one keeps a prefix |
| MemoryStore.ValuesInOrder | lib/data-store.ts:34 | `Array.from(map.values())` lists the value of each key in key order |
| MemoryStore.RegistryInOrder | lib/data-store.ts:33-35 | listing the registry gives each sensor once, under its own id |
| MemoryStore.NewestPrefix | lib/data-store.ts:76 | a prefix of a sensor's newest-first readings is one too |
| MemoryStore.MarkConnection | lib/data-store.ts:40-45 | the flag follows the argument; the connection or disconnection time becomes `now`; identity and position are kept |
| MemoryStore.ConnectionEventAt | lib/data-store.ts:49-54 | the logged event carries the sensor and `now`, and is a connect exactly when the sensor connected |
| MemoryStore.DataStore.constructor | lib/data-store.ts:4-8 | the store starts empty |
| MemoryStore.DataStore.RegisterSensor | lib/data-store.ts:11-27 | registration is insert-only: a known id returns the stored record and changes nothing; a new id is stored disconnected |
| MemoryStore.DataStore.GetSensor | lib/data-store.ts:29-31 | the record stored under the id, which carries that id |
| MemoryStore.DataStore.GetAllSensors | lib/data-store.ts:33-35 | every registered sensor exactly once, the k-th being the record of the k-th registered id |
| MemoryStore.DataStore.UpdateSensorConnection | lib/data-store.ts:37-56 | a known sensor is marked and exactly one event of the matching type is logged on every call; an unknown id changes nothing |
| MemoryStore.DataStore.AddReading | lib/data-store.ts:59-69 | the reading is appended, the log stays within 10 000 entries with the newest last, and then the sensor is marked connected |
| MemoryStore.DataStore.GetReadingsBySensor | lib/data-store.ts:71-77 | a prefix of the sensor's newest-first readings: all of them for a falsy limit, the first `limit` for a positive one, all but the last `-limit` for a negative one |
| MemoryStore.DataStore.GetReadingsByDateRange | lib/data-store.ts:79-83 | exactly the sensor's readings in the inclusive range, newest first |
| MemoryStore.DataStore.GetAllReadings | lib/data-store.ts:85-88 | a prefix of the newest-first copy of the log, cut to a truthy limit as `slice(0, limit)` does; the log itself is untouched |
| MemoryStore.DataStore.AddConnectionEvent | lib/data-store.ts:91-93 | the event is appended and nothing else changes |
| MemoryStore.DataStore.GetConnectionEvents | lib/data-store.ts:95-107 | exactly the selected events, newest first; with no filter the stored log itself becomes that sorted list |
| MemoryStore.DataStore.ClearOldData | lib/data-store.ts:110-116 | keeps exactly the readings and events at or after the cutoff, in stored order |
| MemoryStore.RetainOnAppend | lib/data-store.ts:59-65 | below the cap nothing is dropped, at the cap the oldest entry goes, and the newest is always kept |
| MemoryStore.ClearOldDataIdempotent | lib/data-store.ts:110-116 | clearing twice equals clearing once with the later cutoff |
| MemoryStore.ClearKeepsRecentRanges | lib/data-store.ts:79-83 | a range query starting at or after the cutoff answers the same after clearing |
| SensorRoutes.ReadingFromBody | app/api/sensors/data/route.ts:22-28 | the stored reading carries the request's sensor and values, stamped by the server with `now` |
| SensorRoutes.PostData | app/api/sensors/data/route.ts:5-37 | 400 and no store call for missing fields (0 counts as present); 404 and no write for an unknown sensor; otherwise one `addReading` whose reading the 200 response echoes; 500 only for a body that is not JSON or is JSON `null` |
| SensorRoutes.PostRegister | app/api/sensors/register/route.ts:4-28 | 400 and no store call for missing fields (a coordinate of 0 passes); otherwise one `registerSensor` whose result the 200 response returns |
| SensorRoutes.PostDisconnect | app/api/sensors/disconnect/route.ts:4-25 | 400 for a falsy id; 404 and no event for an unknown sensor; otherwise exactly one `updateSensorConnection(id, false)` |
| SensorRoutes.WithLastReading | app/api/sensors/list/route.ts:18-21 | the entry keeps the sensor and takes the first reading, or null when there is none |
| SensorRoutes.DatabaseEntriesSpec | app/api/sensors/list/route.ts:15-23 | each database-backed entry is its sensor with that sensor's latest stored reading |
| SensorRoutes.MockEntriesSpec | app/api/sensors/list/route.ts:15-23 | each fallback entry is its sensor with the first synthesized reading |
| SensorRoutes.EntryFor | app/api/sensors/list/route.ts:16-21 | one list entry: the sensor with the latest reading while the database answers, a synthesized one after |
| SensorRoutes.LastReadings | app/api/sensors/list/route.ts:15-23 | one entry per sensor in order; a prefix comes from the database and the rest from the fallback after the latch drops |
| SensorRoutes.NextEntry | app/api/sensors/list/route.ts:16-21 | one more sensor's entry: from the database while the latch holds, else from the fallback, which from then on answers |
| SensorRoutes.ListSensors | app/api/sensors/list/route.ts:4-36 | one entry per sensor of `getAllSensors`, in its order, each with its latest reading |

## Left out

- SQL engine and libsql client: the tables are values and `db.execute` is a function on them. Only the UNIQUE `sensor_id` constraint of lib/db.ts is kept. Foreign keys are not enforced, as in SQLite's default, so readings of unknown sensors are stored.
- Module-load initialisation of `dbAvailable` (lib/db-operations.ts:49-57): the promise chain runs at import time. The model settles it before the first request. Whether table creation succeeded is a constructor parameter, and the tables already in the database are another. As written the latch ends up set either way; see "## Findings".
- Concurrency: each operation is atomic and sequential. This covers the asynchronous read-`last_seen`/write/insert sequence, concurrent requests, and the `Promise.all` of the list route, whose reads are taken one after another.
- Clocks: `Date.now()`/`new Date()` are the parameter `now`, taken as one value per request. ISO timestamp strings are integer milliseconds, and `BETWEEN` compares them as numbers. The calendar arithmetic of `clearOldData` is replaced by its result, the cutoff.
- `Math.random()`: it is an unconstrained stream of reals. The seeding code `initializeTestData` in lib/data-store.ts is not part of this model.
- `Number.parseFloat` and NaN: measurements and coordinates arrive already parsed as reals. A non-numeric string, which parses to NaN and which every classifier puts in the top band, has no counterpart.
- Request bodies: a body is absent when reading it throws, either because `request.json()` fails on text that is not JSON or because destructuring the JSON value `null` fails. A field is absent when it is `undefined`. Non-string JSON values for `sensorId` or `name` are not modelled.
- List route non-array and 500 branches (app/api/sensors/list/route.ts:9-12, 26-34): `getAllSensors` always returns an array and every store method catches its own errors. These branches cannot be reached in the model, so no response is built for them.
- Tie order: `ORDER BY ... DESC` over equal timestamps, and `ORDER BY name` over equal names, are modelled as stable, keeping storage order. SQLite leaves this order unspecified.
- SensorTypes.NatToString: it renders numbers as JavaScript does only below 10^21, above which JavaScript switches to exponent notation.
- The sensors table is a sequence of rows with unique ids, in rowid order, rather than a map.
- Row keys: a stored reading or event has its position plus one as its AUTOINCREMENT key. This holds because nothing in the program deletes rows, and the existing tables the model starts from are required to have it.
- Object aliasing: `DataStore.updateSensorConnection` mutates the stored sensor object, and `getAllSensors` of lib/db-operations.ts returns the `mockSensors` array itself. Records are values here, so mutation through an alias held by a caller is not modelled.
- `DataStore` event ids `${sensorId}-${Date.now()}` can collide within one millisecond. The model keeps both events, as the source does.
- `app/api/ws/route.ts` (WebSocket plumbing), `lib/export-utils.ts`, the page and the remaining UI components: framework and presentation code.
- `app/api/sensors/[sensorId]/route.ts` calls a `deleteSensor` that `dbOperations` does not define. The routes under `app/api/sensors/[sensorId]/` are not part of this model.
- `lib/types.ts` is mirrored as datatypes. `SensorReading.id` is optional because the data route builds readings without one.

## Findings

| source | as written | input that shows it | evidently intended | confidence | as-written member | corrected member |
|---|---|---|---|---|---|---|
| lib/db-operations.ts:49-57 | `initializeTables()` catches its own errors and resolves to `false` (lib/db.ts:71-74), so the `.then` always sets `dbAvailable` and the `.catch` that would switch to mock data never runs | table creation fails, so `initializeTables()` resolves to `false` | clear the latch and serve the mock data when the tables could not be created | medium, not executed | DbOps.LoadIgnoresFailedInit | DbOps.IntendedLatchFollowsTables |
