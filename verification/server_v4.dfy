/** The V4 server: seven cache slots, the refresh transitions that write them, and the
    read-only endpoints that answer 503 while a slot they need is still `null`. */
module ServerV4 {
  import opened Wrappers
  import opened Json
  import opened Documents
  import opened CacheSlots
  import opened Metro
  import opened MatchedStops

  /** The messages the V4 `exec` callback stores as `{ error: ... }`. */
  const GtfsMarkers := Markers("Erreur exécution script.", "Erreur parsing GTFS.")

  const Fetching := "Données en cours de récupération."
  const Loading := "Données en cours de chargement."
  const FetchingVlille := "Données V'Lille en cours de récupération."

  /** The module-level variables of the server. `lastUpdated` lives in the GTFS slot, the
      only place that writes it. The three passthrough slots keep the raw parsed value,
      `null` when nothing is loaded. */
  datatype State = State(
    gtfs: GtfsSlot<GtfsDoc>,
    physicalStops: Option<Registry>,
    realTime: Option<PassageFile>,
    metroStations: Option<seq<MetroStation>>,
    vlille: Value,
    parking: Value,
    reseauxSociaux: Value)

  /** `!cachedGTFSData` is false: the slot holds an error object or a truthy document. */
  predicate GtfsReady(st: State) {
    CachedTruthy(st.gtfs.data, DocTruthy)
  }

  /** Every variable starts out `null`, the three passthrough slots included. */
  function Initial(): (st: State)
    ensures st.gtfs.data.Unset? && st.gtfs.lastUpdated.None? && !GtfsReady(st)
    ensures st.physicalStops.None? && st.realTime.None? && st.metroStations.None?
    ensures st.vlille == Null && st.parking == Null && st.reseauxSociaux == Null
    ensures !Truthy(st.vlille) && !Truthy(st.parking) && !Truthy(st.reseauxSociaux)
  {
    State(InitialSlot(), None, None, None, Null, Null, Null)
  }

  // ---------------------------------------------------------------------------
  // Refresh transitions
  // ---------------------------------------------------------------------------

  /** The `exec` callback of `fetchGTFSData`; it writes the GTFS slot and nothing else. */
  function OnGtfsExec(st: State, c: Completion, parse: string -> Option<GtfsDoc>): (r: State)
    ensures r == st.(gtfs := r.gtfs)
    ensures !r.gtfs.data.Unset?
    ensures r.gtfs.data.Payload? <==> Succeeded(c, parse)
    ensures Succeeded(c, parse) ==> r.gtfs == GtfsSlot(Payload(parse(c.outcome.stdout).value), Some(c.now))
    ensures c.outcome.ExecError? ==> r.gtfs == GtfsSlot(ErrorMarker("Erreur exécution script."), st.gtfs.lastUpdated)
    ensures c.outcome.Exited? && !Succeeded(c, parse) ==>
              r.gtfs == GtfsSlot(ErrorMarker("Erreur parsing GTFS."), st.gtfs.lastUpdated)
  {
    st.(gtfs := OnExecComplete(st.gtfs, c, parse, GtfsMarkers))
  }

  /** `fetchStaticData`: the three registry slots are reassigned from fresh loads, so a
      failed load empties a slot that held data; the metro document is projected when it
      loaded. No other slot changes. */
  function RefreshStatic(st: State, physical: ReadOutcome<Registry>, realTime: ReadOutcome<PassageFile>,
                         metro: ReadOutcome<MetroDoc>): (r: State)
    ensures r.gtfs == st.gtfs && r.vlille == st.vlille && r.parking == st.parking
    ensures r.reseauxSociaux == st.reseauxSociaux
    ensures r.physicalStops.Some? <==> physical.Parsed?
    ensures physical.Parsed? ==> r.physicalStops.value == physical.doc
    ensures r.realTime.Some? <==> realTime.Parsed?
    ensures realTime.Parsed? ==> r.realTime.value == realTime.doc
    ensures r.metroStations.Some? <==> metro.Parsed?
    ensures metro.Parsed? ==> |r.metroStations.value| == |metro.doc.features|
    ensures metro.Parsed? ==> forall i :: 0 <= i < |metro.doc.features| ==>
              r.metroStations.value[i] == StationOf(metro.doc.features[i])
  {
    var loaded := LoadJson(metro);
    st.(physicalStops := LoadJson(physical),
        realTime := LoadJson(realTime),
        metroStations := if loaded.Some? then Some(Project(loaded.value.features)) else None)
  }

  /** `loadJSON` for a passthrough slot: the parsed value, or `null` on any failure. */
  function LoadValue(o: ReadOutcome<Value>): (r: Value)
    ensures o.Parsed? ==> r == o.doc
    ensures !o.Parsed? ==> r == Null
  {
    LoadJson(o).GetOr(Null)
  }

  /** `fetchVlilleData` */
  function RefreshVlille(st: State, o: ReadOutcome<Value>): (r: State)
    ensures r == st.(vlille := r.vlille)
    ensures o.Parsed? ==> r.vlille == o.doc
    ensures !o.Parsed? ==> !Truthy(r.vlille)
  {
    st.(vlille := LoadValue(o))
  }

  /** `fetchParkingData` */
  function RefreshParking(st: State, o: ReadOutcome<Value>): (r: State)
    ensures r == st.(parking := r.parking)
    ensures o.Parsed? ==> r.parking == o.doc
    ensures !o.Parsed? ==> !Truthy(r.parking)
  {
    st.(parking := LoadValue(o))
  }

  /** `fetchReseauxSociaux` */
  function RefreshReseauxSociaux(st: State, o: ReadOutcome<Value>): (r: State)
    ensures r == st.(reseauxSociaux := r.reseauxSociaux)
    ensures o.Parsed? ==> r.reseauxSociaux == o.doc
    ensures !o.Parsed? ==> !Truthy(r.reseauxSociaux)
  {
    st.(reseauxSociaux := LoadValue(o))
  }

  // ---------------------------------------------------------------------------
  // Endpoints
  // ---------------------------------------------------------------------------

  /** A reply: 503 with its message, 200 with a body, or 500 when the handler throws. */
  datatype Reply<T> = NotReady(message: string) | Ok(body: T) | InternalError

  /** The body of a `/api/matched_stops` answer. */
  datatype MatchedBody = MatchedBody(lastUpdated: Option<Instant>, matchedStops: seq<MatchedStop>)

  /** None of the three slots the join reads is falsy. */
  predicate JoinInputsReady(st: State) {
    GtfsReady(st) && st.physicalStops.Some? && st.realTime.Some?
  }

  /** `GET /api/matched_stops`. Not ready exactly when one of the GTFS, registry and
      real-time slots is falsy. A GTFS slot holding anything but trips (the callback's
      marker, the script's `{ error: ... }`, or any other truthy value) has no `trips`, so
      `.trips.forEach` throws; the join throws too when a real-time probe does. Otherwise
      the answer is 200 with the join's output and the GTFS slot's `lastUpdated`. */
  function MatchedStopsReply(st: State): (r: Reply<MatchedBody>)
    ensures r.NotReady? <==> !JoinInputsReady(st)
    ensures r.NotReady? ==> r.message == Fetching
    ensures JoinInputsReady(st) && !(st.gtfs.data.Payload? && st.gtfs.data.doc.TripsDoc?) ==> r.InternalError?
    ensures JoinInputsReady(st) && st.gtfs.data.Payload? && st.gtfs.data.doc.TripsDoc? ==>
              var j := JoinTrips(st.gtfs.data.doc.trips, st.physicalStops.value.features, st.realTime.value.records);
              r == (if j.Joined? then Ok(MatchedBody(st.gtfs.lastUpdated, j.stops)) else InternalError)
    ensures r.Ok? ==> st.gtfs.data.Payload? && st.gtfs.data.doc.TripsDoc?
                      && JoinTrips(st.gtfs.data.doc.trips, st.physicalStops.value.features, st.realTime.value.records)
                         == Joined(r.body.matchedStops)
                      && r.body.lastUpdated == st.gtfs.lastUpdated
  {
    if !JoinInputsReady(st) then
      NotReady(Fetching)
    else
      match st.gtfs.data
      case Payload(TripsDoc(trips)) =>
        (match JoinTrips(trips, st.physicalStops.value.features, st.realTime.value.records)
         case Joined(out) => Ok(MatchedBody(st.gtfs.lastUpdated, out))
         case Threw => InternalError)
      case _ => InternalError
  }

  /** `GET /api/gtfs`: not ready exactly while the slot is falsy; otherwise the stored
      document or error object with `lastUpdated`. */
  function GtfsReply(st: State): (r: Reply<GtfsSlot<GtfsDoc>>)
    ensures r.NotReady? <==> !GtfsReady(st)
    ensures r.NotReady? ==> r.message == Fetching
    ensures !r.InternalError?
    ensures r.Ok? ==> r.body == st.gtfs
  {
    if !GtfsReady(st) then NotReady(Fetching) else Ok(st.gtfs)
  }

  /** `GET /api/stations_metro` */
  function StationsMetroReply(st: State): (r: Reply<seq<MetroStation>>)
    ensures r.NotReady? <==> st.metroStations.None?
    ensures r.NotReady? ==> r.message == Loading
    ensures !r.InternalError?
    ensures r.Ok? ==> r.body == st.metroStations.value
  {
    if st.metroStations.None? then NotReady(Loading) else Ok(st.metroStations.value)
  }

  /** The shared shape of the three passthrough endpoints: `if (!slot) 503`. */
  function PassthroughReply(slot: Value, message: string): (r: Reply<Value>)
    ensures r.NotReady? <==> !Truthy(slot)
    ensures r.NotReady? ==> r.message == message
    ensures !r.InternalError?
    ensures r.Ok? ==> r.body == slot
  {
    if !Truthy(slot) then NotReady(message) else Ok(slot)
  }

  /** `GET /api/vlille` */
  function VlilleReply(st: State): (r: Reply<Value>)
    ensures r.NotReady? <==> !Truthy(st.vlille)
    ensures r.NotReady? ==> r.message == FetchingVlille
    ensures !r.InternalError?
    ensures r.Ok? ==> r.body == st.vlille
  {
    PassthroughReply(st.vlille, FetchingVlille)
  }

  /** `GET /api/parking` */
  function ParkingReply(st: State): (r: Reply<Value>)
    ensures r.NotReady? <==> !Truthy(st.parking)
    ensures r.NotReady? ==> r.message == Fetching
    ensures !r.InternalError?
    ensures r.Ok? ==> r.body == st.parking
  {
    PassthroughReply(st.parking, Fetching)
  }

  /** `GET /api/reseaux_sociaux` */
  function ReseauxSociauxReply(st: State): (r: Reply<Value>)
    ensures r.NotReady? <==> !Truthy(st.reseauxSociaux)
    ensures r.NotReady? ==> r.message == Fetching
    ensures !r.InternalError?
    ensures r.Ok? ==> r.body == st.reseauxSociaux
  {
    PassthroughReply(st.reseauxSociaux, Fetching)
  }

  // ---------------------------------------------------------------------------
  // Properties across transitions
  // ---------------------------------------------------------------------------

  /** A refresh in which the registry or the real-time file fails to load makes the join
      not ready again, whatever it served before. */
  lemma FailedLoadUnreadiesJoin(st: State, physical: ReadOutcome<Registry>, realTime: ReadOutcome<PassageFile>,
                                metro: ReadOutcome<MetroDoc>)
    requires !physical.Parsed? || !realTime.Parsed?
    ensures MatchedStopsReply(RefreshStatic(st, physical, realTime, metro)).NotReady?
  {
  }

  /** After a GTFS callback has run, the GTFS endpoint is ready unless the script's output
      parsed to a falsy value, and the join is not ready exactly when that happened or the
      registry or real-time slot is `null`. */
  lemma GtfsCallbackReadies(st: State, c: Completion, parse: string -> Option<GtfsDoc>)
    ensures GtfsReply(OnGtfsExec(st, c, parse)).NotReady?
            <==> Succeeded(c, parse) && !DocTruthy(parse(c.outcome.stdout).value)
    ensures MatchedStopsReply(OnGtfsExec(st, c, parse)).NotReady?
            <==> st.physicalStops.None? || st.realTime.None?
                 || (Succeeded(c, parse) && !DocTruthy(parse(c.outcome.stdout).value))
  {
  }

  /** A failed GTFS run after a good one does not keep the good trips: the join answers 500
      until the next successful parse. */
  lemma FailedGtfsRunBreaksJoin(st: State, c: Completion, parse: string -> Option<GtfsDoc>)
    requires st.physicalStops.Some? && st.realTime.Some?
    requires !Succeeded(c, parse)
    ensures MatchedStopsReply(OnGtfsExec(st, c, parse)).InternalError?
  {
  }

  /** The worked example: one trip with stops A and B, a registry entry for A on line L1,
      and no real-time record for either. The answer holds exactly one record, for A, with
      line code L1. */
  lemma OneTripExample(a: TripStop, b: TripStop, entry: PhysicalFeature, t: Instant)
    requires a.stop_id == "A" && b.stop_id == "B"
    requires entry.properties.code_arret_physique == Str("A")
    requires entry.properties.code_ligne == Str("L1")
    ensures
      var st := State(GtfsSlot(Payload(TripsDoc([Trip(Str("T"), [a, b])])), Some(t)),
                      Some(Registry([entry])), Some(PassageFile([])), None, Null, Null, Null);
      var r := MatchedStopsReply(st);
      r.Ok? && |r.body.matchedStops| == 1 && r.body.matchedStops[0].stop_id == "A"
      && r.body.matchedStops[0].code_ligne == Str("L1") && r.body.lastUpdated == Some(t)
  {
    var features := [entry];
    var records: seq<Passage> := [];
    assert FirstPhysicalAt(features, "A", 0);
    assert !HasPhysical(features, "B") by {
      assert !KeyMatches(entry, "B") by {
        assert Str("A") != Str("B");
      }
    }
    assert !HasRealTime(records, "B") && !RealTimeThrows(records, "B");
    assert !RealTimeThrows(records, "A");
    var trips := [Trip(Str("T"), [a, b])];
    var oa := MatchOne(a, features, records);
    assert oa.Emit? && oa.m.stop_id == "A" && oa.m.code_ligne == Str("L1");
    assert MatchOne(b, features, records).Skip?;
    assert trips[..0] == [];
    assert [a, b][..1] == [a];
    assert [a, b][..1][..0] == [];
    assert JoinTrips(trips[..0], features, records) == Joined([]);
    assert PushStops(Joined([]), [a], features, records) == Joined([oa.m]);
    assert PushStops(Joined([]), [a, b], features, records) == Joined([oa.m]);
    assert JoinTrips(trips, features, records) == Joined([oa.m]);
  }
}
