/** The V2 server: the process-fed GTFS slot of V1 plus a metro-station list loaded once at
    start-up, with `/api/gtfs` and `/api/stations_metro`. */
module ServerV2 {
  import opened Wrappers
  import opened Json
  import opened Documents
  import opened CacheSlots
  import opened Metro

  /** The messages the V2 `exec` callback stores as `{ error: ... }`. */
  const V2Markers := Markers("Erreur lors de l'exécution du script.", "Erreur lors du parsing des données GTFS.")

  const Fetching := "Données en cours de récupération."
  const Loading := "Données en cours de chargement."

  datatype State = State(gtfs: GtfsSlot<Value>, stationsMetro: Option<seq<MetroStation>>)

  /** Every variable starts out `null`. */
  function Initial(): (st: State)
    ensures st.gtfs.data.Unset? && st.gtfs.lastUpdated.None? && st.stationsMetro.None?
  {
    State(InitialSlot(), None)
  }

  /** `loadStationsMetro`: the projection of the collection when reading and parsing
      succeed, and the empty list (not `null`) when either throws. */
  function LoadStationsMetro(st: State, o: ReadOutcome<MetroDoc>): (r: State)
    ensures r.gtfs == st.gtfs
    ensures r.stationsMetro.Some?
    ensures o.Parsed? ==> |r.stationsMetro.value| == |o.doc.features|
    ensures o.Parsed? ==> forall i :: 0 <= i < |o.doc.features| ==>
              r.stationsMetro.value[i] == StationOf(o.doc.features[i])
    ensures !o.Parsed? ==> r.stationsMetro == Some([])
  {
    match o
    case Parsed(doc) => st.(stationsMetro := Some(Project(doc.features)))
    case _ => st.(stationsMetro := Some([]))
  }

  /** The `exec` callback of `fetchGTFSData`; the station list is untouched. */
  function OnExec(st: State, c: Completion, parse: string -> Option<Value>): (r: State)
    ensures r.stationsMetro == st.stationsMetro
    ensures c.outcome.ExecError? ==>
              r.gtfs == GtfsSlot(ErrorMarker("Erreur lors de l'exécution du script."), st.gtfs.lastUpdated)
    ensures Succeeded(c, parse) ==> r.gtfs == GtfsSlot(Payload(parse(c.outcome.stdout).value), Some(c.now))
    ensures c.outcome.Exited? && !Succeeded(c, parse) ==>
              r.gtfs == GtfsSlot(ErrorMarker("Erreur lors du parsing des données GTFS."), st.gtfs.lastUpdated)
  {
    st.(gtfs := OnExecComplete(st.gtfs, c, parse, V2Markers))
  }

  /** A reply: 503 with its message, or 200 with a body. */
  datatype Reply<T> = NotReady(message: string) | Ok(body: T)

  /** `!cachedData` */
  predicate GtfsReady(st: State) {
    CachedTruthy(st.gtfs.data, Truthy)
  }

  /** `GET /api/gtfs` */
  function GtfsReply(st: State): (r: Reply<GtfsSlot<Value>>)
    ensures r.NotReady? <==> !GtfsReady(st)
    ensures r.NotReady? ==> r.message == Fetching
    ensures r.Ok? ==> r.body == st.gtfs
  {
    if !GtfsReady(st) then NotReady(Fetching) else Ok(st.gtfs)
  }

  /** `GET /api/stations_metro`: an empty array is truthy, so only `null` answers 503. */
  function StationsMetroReply(st: State): (r: Reply<seq<MetroStation>>)
    ensures r.NotReady? <==> st.stationsMetro.None?
    ensures r.NotReady? ==> r.message == Loading
    ensures r.Ok? ==> r.body == st.stationsMetro.value
  {
    if st.stationsMetro.None? then NotReady(Loading) else Ok(st.stationsMetro.value)
  }

  /** The state after the callbacks `cs` have run on `st`. */
  function Run(st: State, cs: seq<Completion>, parse: string -> Option<Value>): State
    decreases |cs|
  {
    if |cs| == 0 then st else OnExec(Run(st, cs[..|cs| - 1], parse), cs[|cs| - 1], parse)
  }

  /** The GTFS callbacks never touch the station list, and agree with the generic slot. */
  lemma {:induction false} RunKeepsStations(st: State, cs: seq<Completion>, parse: string -> Option<Value>)
    ensures Run(st, cs, parse).stationsMetro == st.stationsMetro
    ensures Run(st, cs, parse).gtfs == Replay(st.gtfs, cs, parse, V2Markers)
    decreases |cs|
  {
    if |cs| > 0 {
      RunKeepsStations(st, cs[..|cs| - 1], parse);
    }
  }

  /** After the start-up load, whatever its outcome, `/api/stations_metro` never answers
      503, however many GTFS callbacks follow. */
  lemma StationsAlwaysReadyAfterLoad(o: ReadOutcome<MetroDoc>, cs: seq<Completion>, parse: string -> Option<Value>)
    ensures StationsMetroReply(Run(LoadStationsMetro(Initial(), o), cs, parse)).Ok?
  {
    RunKeepsStations(LoadStationsMetro(Initial(), o), cs, parse);
  }

  /** Once one callback has run, `/api/gtfs` is ready exactly unless the latest callback's
      output parsed to a falsy value, whatever the state before. */
  lemma GtfsStaysReady(st: State, cs: seq<Completion>, parse: string -> Option<Value>)
    requires |cs| > 0
    ensures GtfsReply(Run(st, cs, parse)).Ok?
            <==> (Succeeded(cs[|cs| - 1], parse) ==> Truthy(parse(cs[|cs| - 1].outcome.stdout).value))
  {
    RunKeepsStations(st, cs, parse);
    ReplayLatestDecides(st.gtfs, cs, parse, V2Markers);
  }
}
