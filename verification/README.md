# Transit data cache and matched-stops join, modelled in Dafny

This project models the core of a small transit-information backend that exists in four
versions (V1 to V4). Each version keeps data sources in module-level cache slots and
serves them over HTTP. The model covers:

- **The process-fed GTFS slot.** `cachedData` (or `cachedGTFSData`) and `lastUpdated`
  are written by the callback of the `exec` call that runs the GTFS script. That
  callback exists in V1, V2 and V4 (`CacheSlots`, `ServerV1`, `ServerV2`, `ServerV4`).
- **The file-fed slots of V4.** These are reassigned from `loadJSON` on every refresh.
  V4 also keeps a metro-station list that it projects from a GeoJSON-like collection.
  V2 loads the same list once at start-up, and on failure it falls back to `[]`
  (`Metro`, `ServerV2.LoadStationsMetro`, `ServerV4.RefreshStatic`).
- **The readiness gates.** Each endpoint answers 503 while a slot it needs is
  JavaScript-falsy.
- **The `/api/matched_stops` join of V4** (`MatchedStops`, `ServerV4.MatchedStopsReply`).
  Every stop of every trip is looked up in the physical-stop registry by exact key, and
  in the real-time passages by containment. The first match wins. A stop with no match
  in either is dropped. Every other stop becomes a flat record, with a French
  placeholder for each field that had no match.
- **The V3 GTFS script** (`GtfsScript`). It builds the `stop_info` dictionary from
  spreadsheet rows and turns the feed's trip updates into the printed trips document.

JavaScript values are modelled by `Json.Value`. The module covers `undefined`,
truthiness, `||`, template-literal string conversion, and `includes` on a string or an
array. Calling `includes` on any other value raises a TypeError, and the model keeps that
failure. A TypeError inside the join's `find` aborts the request, which the model shows
as `InternalError`.

Time and parsing are supplied by the caller. A transition receives the time
`new Date()` would return as an `Instant`. It also receives `JSON.parse` as a function
`string -> Option<D>`, where `None` means the parse threw. In the GTFS script, the
timestamp formatting is a parameter `fmt: int -> string`.

Behaviours of the code that the model makes explicit:
- **Overwrite on failure.** A failed GTFS run overwrites the slot with an error object,
  so the last good data is lost. A failed file read resets a V4 file slot to `null`.
- **stderr is not a failure.** Output on standard error is only logged.
- **Ready after a failure.** An error object is truthy, so a slot holding one counts as
  ready. In V4 the join then answers 500, because the error object has no `trips`; it
  does not report "not ready".
- **Truthiness, not null.** Every gate (`!cachedData` in V1 and V2, `!cachedGTFSData`
  and the file-slot tests in V4) is JavaScript falsiness. A script output that parses to
  a falsy JSON value such as `0` or `null` therefore answers 503 again while
  `lastUpdated` advances (`ServerV1.FalsyDocumentUnreadies`,
  `ServerV4.GtfsCallbackReadies`).

## Model

| member | source | states |
|---|---|---|
| `CacheSlots.InitialSlot` | V4/backend/server.js:9-13 | the payload and `lastUpdated` both start out null |
| `CacheSlots.OnExecComplete` | V4/backend/server.js:33-49 | an exec error stores the exec marker and keeps `lastUpdated`; a clean exit whose stdout parses stores the document and sets `lastUpdated` to now; a parse failure stores the parse marker and keeps `lastUpdated`; afterwards the slot is never null |
| `CacheSlots.StderrIgnored` | V4/backend/server.js:39-41 | the stderr content never changes the outcome of a clean exit |
| `CacheSlots.ReplayLatestDecides` | V4/backend/server.js:33-49 | after any non-empty run of callbacks the slot is non-null and its contents depend on the latest callback only, so a failure discards an earlier good document |
| `CacheSlots.ReplayTimestamp` | V4/backend/server.js:42-44 | after any run of callbacks, `lastUpdated` is the time of the latest callback whose stdout parsed, or its earlier value if none did |
| `CacheSlots.LoadJson` | V4/backend/server.js:21-28 | `loadJSON` yields the parsed document exactly when reading and parsing both succeed, and null otherwise |
| `Json.Contains` | V4/backend/server.js:95 | `String.prototype.includes` is true exactly when the needle occurs at some position of the string |
| `Json.Includes` | V4/backend/server.js:95 | `identifiant_station.includes(id)` does a substring test on a string and an element test on an array, and throws on any other value |
| `Json.NatToString` | V4/backend/server.js:117 | the decimal text of a natural number is non-empty, all digits, has no leading zero, and denotes the number |
| `Json.IntToString` | V4/backend/server.js:117 | `String(i)` of an integer is the canonical decimal text of its magnitude (so `"0"` for zero), preceded by a minus sign when it is negative |
| `Json.ToText` | V4/backend/server.js:117 | the text a template literal inserts: a string unchanged, a number as the decimal text denoting it, and `null`, `undefined` and objects as the words JavaScript prints |
| `MatchedStops.FindPhysical` | V4/backend/server.js:90-92 | returns the first registry index whose `code_arret_physique` is `stop_id`, or none when no feature has that key |
| `MatchedStops.FindRealTime` | V4/backend/server.js:94-96 | stops at the first record whose identifiers contain `stop_id`, or at the first probe that throws; when it misses, every probe answered false |
| `MatchedStops.MatchOne` | V4/backend/server.js:89-131 | throws exactly when the real-time search throws; drops the stop exactly when neither lookup matches; copies the six trip-stop fields; takes the registry fields from the first keyed feature, with `adresse` = `rue, commune`, or placeholders when there is none; takes the real-time fields from the first containing record, or placeholders; `code_ligne` is the physical line code (or "Non disponible" if falsy) whenever a physical stop exists, and the real-time line code only when none does |
| `MatchedStops.PushStopsThrew` | V4/backend/server.js:88-89 | once a stop has thrown, the rest of the loop cannot produce an answer |
| `MatchedStops.PushStopsMeetsSpec` | V4/backend/server.js:89-132 | the inner loop appends, in order, exactly the records the reference specifies for its stops, or throws when one of its stops throws |
| `MatchedStops.JoinTripsMeetsSpec` | V4/backend/server.js:86-133 | the nested trips-then-stops loop equals a single pass over the flattened stop list |
| `MatchedStops.JoinTripsSelects` | V4/backend/server.js:88-133 | the join throws exactly when some stop's real-time search throws; otherwise the output has one record per matched stop, at strictly increasing stop positions in trip-then-stop order, with no deduplication, and is no longer than the stop list |
| `MatchedStops.EmittedExactlyWhenMatched` | V4/backend/server.js:105-131 | a stop whose real-time search does not throw yields a record exactly when it has a registry match or a real-time match |
| `Metro.Project` | V4/backend/server.js:59-65 | the projection keeps the length and order of `features`, and each record carries its feature's `nom_statio`, `commune`, `ligne` and coordinates |
| `ServerV4.Initial` | V4/backend/server.js:9-13 | the five variables declared here start out null and the GTFS gate is closed; the three passthrough slots, declared later at lines 155, 181 and 207, start out null (hence falsy) too |
| `ServerV4.OnGtfsExec` | V4/backend/server.js:31-50 | the V4 callback writes only the GTFS slot: "Erreur exécution script." on an exec error, "Erreur parsing GTFS." on a parse failure (both keep `lastUpdated`), and the document with the current time on success |
| `ServerV4.RefreshStatic` | V4/backend/server.js:53-70 | the registry, real-time and metro slots are each reassigned from a fresh load (null on failure, even if they held data); the metro slot holds the projection of the loaded collection; the other slots are unchanged |
| `ServerV4.LoadValue` | V4/backend/server.js:21-28 | a passthrough load yields the parsed value, or null on any failure |
| `ServerV4.RefreshVlille` | V4/backend/server.js:157-166 | the V'Lille slot becomes the loaded value, or falsy on failure; nothing else changes |
| `ServerV4.RefreshParking` | V4/backend/server.js:183-191 | the parking slot becomes the loaded value, or falsy on failure; nothing else changes |
| `ServerV4.RefreshReseauxSociaux` | V4/backend/server.js:209-218 | the social-network slot becomes the loaded value, or falsy on failure; nothing else changes |
| `ServerV4.MatchedStopsReply` | V4/backend/server.js:81-136 | answers 503 exactly when the GTFS, registry or real-time slot is falsy; with all three set, answers 500 when the GTFS slot holds anything but trips, and otherwise 200 with the join output and the GTFS `lastUpdated` when the join completes, or 500 when a real-time probe throws |
| `ServerV4.GtfsReply` | V4/backend/server.js:139-144 | answers 503 exactly while the GTFS slot is falsy, and otherwise 200 with the slot and `lastUpdated`; never 500 |
| `ServerV4.StationsMetroReply` | V4/backend/server.js:147-152 | answers 503 exactly while the metro slot is null, and otherwise 200 with the station list; never 500 |
| `ServerV4.PassthroughReply` | V4/backend/server.js:198-203 | a passthrough endpoint answers 503 exactly when its slot is falsy, and otherwise 200 with the slot; never 500 |
| `ServerV4.VlilleReply` | V4/backend/server.js:173-178 | `/api/vlille` answers 503 with the V'Lille message exactly when its slot is falsy, and otherwise 200 with the slot; never 500 |
| `ServerV4.ParkingReply` | V4/backend/server.js:198-203 | `/api/parking` answers 503 exactly when its slot is falsy, and otherwise 200 with the slot; never 500 |
| `ServerV4.ReseauxSociauxReply` | V4/backend/server.js:225-230 | `/api/reseaux_sociaux` answers 503 exactly when its slot is falsy, and otherwise 200 with the slot; never 500 |
| `ServerV4.FailedLoadUnreadiesJoin` | V4/backend/server.js:53-56 | a refresh in which the registry or the real-time file fails to load makes the join answer 503 again |
| `ServerV4.GtfsCallbackReadies` | V4/backend/server.js:33-48 | after any GTFS callback, `/api/gtfs` answers 503 exactly when the script output parsed to a falsy value; the join is not ready exactly when that happened or the registry or real-time slot is null |
| `ServerV4.FailedGtfsRunBreaksJoin` | V4/backend/server.js:34-48 | with both files loaded, a failed GTFS run makes the join answer 500, because the error object has no `trips` |
| `ServerV4.OneTripExample` | V4/backend/server.js:81-136 | one trip with stops A and B, a registry entry for A on line L1 and no real-time records gives exactly one record, for A, with `code_ligne` L1 |
| `ServerV1.Initial` | V1/backend/server.js:8-9 | both variables start out null, and `/api/gtfs` is not ready |
| `ServerV1.OnExec` | V1/backend/server.js:15-34 | the V1 callback stores "Erreur lors de l'exécution du script." on an exec error and "Erreur lors du parsing des données GTFS." on a parse failure, keeping `lastUpdated` in both cases; on success it stores the parsed value and the current time |
| `ServerV1.GtfsReply` | V1/backend/server.js:41-46 | answers 503 exactly when `cachedData` is falsy, and otherwise returns `lastUpdated` and the data |
| `ServerV1.StaysReady` | V1/backend/server.js:17-44 | once any callback has run, `/api/gtfs` is ready exactly unless the latest callback's output parsed to a falsy value; earlier callbacks do not matter |
| `ServerV1.RunTimestamp` | V1/backend/server.js:26-28 | `lastUpdated` is the time of the latest successful parse, and stays null until one occurs |
| `ServerV1.FalsyDocumentUnreadies` | V1/backend/server.js:26-44 | stdout that parses to a falsy value advances `lastUpdated` but makes `/api/gtfs` answer 503 |
| `ServerV2.Initial` | V2/backend/server.js:9-16 | the GTFS variables and the station list start out null |
| `ServerV2.LoadStationsMetro` | V2/backend/server.js:22-37 | on success the list is the projection of `features`: same length and order, four fields each; on any failure it is `[]`, never null; the GTFS slot is untouched |
| `ServerV2.OnExec` | V2/backend/server.js:43-65 | the V2 callback stores the exec marker or the parse marker (keeping `lastUpdated`), or the document with the current time; the station list is untouched |
| `ServerV2.GtfsReply` | V2/backend/server.js:72-77 | answers 503 exactly when `cachedData` is falsy |
| `ServerV2.StationsMetroReply` | V2/backend/server.js:80-85 | answers 503 exactly when the station list is null; an empty list is served |
| `ServerV2.RunKeepsStations` | V2/backend/server.js:43-65 | any run of GTFS callbacks leaves the station list unchanged and evolves the GTFS slot exactly as the generic slot does |
| `ServerV2.StationsAlwaysReadyAfterLoad` | V2/backend/server.js:33-84 | after the start-up load, whatever its outcome, `/api/stations_metro` never answers 503 |
| `ServerV2.GtfsStaysReady` | V2/backend/server.js:47-77 | once any callback has run, `/api/gtfs` is ready exactly unless the latest callback's output parsed to a falsy value, whatever the state before |
| `GtfsScript.InfoOf` | V3/backend/GTFS.py:16-20 | an entry copies the row's name and description; `geom` is the cell, or "Non disponible" when the column is absent or the cell is NaN |
| `GtfsScript.IndexesRowsKeys` | V3/backend/GTFS.py:15-22 | adding one more row to the dictionary adds exactly that row's identifier to the keys |
| `GtfsScript.IndexesRowsStep` | V3/backend/GTFS.py:15-22 | adding one more row keeps the dictionary keyed by exactly the rows' identifiers, each mapped to the entry of its last row |
| `GtfsScript.BuildStopInfo` | V3/backend/GTFS.py:15-22 | `stop_info` has exactly the rows' `stop_id`s as keys, and an identifier on several rows maps to the last row's entry |
| `GtfsScript.LastRowWins` | V3/backend/GTFS.py:15-22 | with two rows sharing an identifier, the dictionary keeps the second |
| `GtfsScript.TimeText` | V3/backend/GTFS.py:50-53 | a zero time gives "Non disponible", and any other time is formatted |
| `GtfsScript.StopOf` | V3/backend/GTFS.py:41-54 | a stop entry carries the update's `stop_id`; it takes name, description and geometry from the dictionary, or "Inconnu" / "Non disponible" / "Non disponible" when the identifier is absent; its times follow `TimeText` |
| `GtfsScript.TripOf` | V3/backend/GTFS.py:36-54 | a trip carries the update's `trip_id` and exactly one stop per `stop_time_update`, in order, each with that update's `stop_id` |
| `GtfsScript.TripsPerEntity` | V3/backend/GTFS.py:33-56 | exactly one trip is emitted per entity that has a `trip_update`, in feed order; other entities are skipped; each trip has its update's id and one stop per stop-time update |
| `GtfsScript.RunScript` | V3/backend/GTFS.py:27-61 | status 200 prints the trips with empty `vehicles` and `alerts`; any other status prints only the error object naming the status |

## Left out

- HTTP routing, static file serving and the HTML page routes: they are request glue.
  The model covers the handler bodies that read the cache.
- Process spawning, file reading, the HTTP request of the script, spreadsheet reading
  and protobuf decoding: these are foreign I/O. They appear only as abstract outcomes
  (`ExecOutcome`, `ReadOutcome`, `Response`, rows and entities).
- `setInterval` timing, the immediate first refresh, and the interleaving of the
  asynchronous `exec` callback with the synchronous file reloads: this is scheduling.
  Each refresh is one atomic transition.
- `new Date()` and local-time `strftime`: these depend on the clock and the timezone.
  They are an `Instant` argument and a `fmt` parameter.
- Logging to the console.
- JSON serialisation, including the round trip from the script's `json.dumps` to the
  server's `JSON.parse`. Parsing is a caller-supplied function, and the V4 join
  receives the parsed document directly.
- JSON numbers are modelled as unbounded integers. Fractions, `NaN` and `-0` are not
  modelled, nor are integers beyond 2^53, which a JavaScript number cannot hold exactly.
- `Json.IntToString`: gives plain decimal text for every integer, while `String` switches
  to exponent notation from 10^21 on (`"1e+21"`); such magnitudes are left out with the
  rest of floating point.
- `Json.ToText`: inherits the same limit for numbers.
- `MatchedStops.MatchOne`: does not model a registry feature that lacks `properties` or
  `geometry`. In JavaScript reading such a feature throws a TypeError; the typed
  `PhysicalFeature` always has both.
- `ServerV4.RefreshStatic`: the registry, passage and metro files are typed documents.
  The model does not cover a file whose JSON is falsy (such as `null`), which would
  leave the slot not ready. Nor does it cover a file without `features`/`records`. A
  registry or passages file of that kind makes the join throw, which answers 500. A
  metro file of that kind makes `fetchStaticData` itself throw. Nothing catches that
  exception, whether `updateData` was called at start-up (V4 line 77) or from
  `setInterval` (V4 line 78), so it ends the Node process.
- `ServerV2.LoadStationsMetro`: when the parsed file lacks `features`, or a feature
  lacks `properties` or `geometry`, the source throws inside the `try` and falls back to
  `[]`. The typed document always has all three.
- `ServerV4.OnGtfsExec`: a parsed object whose `trips` is an array but not an array of
  trips (stops without `stop_id`, say) is not modelled. The typed parse covers the trips
  document, the error object and every value that is not an object with a `trips`
  array (`Documents.NonTripsValue`), falsy values included.
- `GtfsScript.RunScript`: does not model the script raising an exception, for example
  when the spreadsheet cannot be read or the feed does not decode. In the servers such
  a run is an exec error. The model also leaves out `str()` of a NaN identifier, and a
  NaN name or description that `json.dumps` would print as `NaN`.
- The script command differs between versions (`python` or `python3`). This does not
  affect the model.
