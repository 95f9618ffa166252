/** The shapes of the parsed documents the V4 server reads field by field: the GTFS script's
    output, the physical-stop registry, the real-time passages file and the metro-station
    feature collection. Every field the code copies without inspecting is a `Json.Value`. */
module Documents {
  import opened Json

  /** One stop of a trip, as printed by the GTFS script. The script writes `stop_id` with
      `str(...)`, so it is always a string. */
  datatype TripStop = TripStop(
    stop_id: string,
    stop_name: Value,
    stop_desc: Value,
    geom: Value,
    arrival_time: Value,
    departure_time: Value)

  datatype Trip = Trip(trip_id: Value, stops: seq<TripStop>)

  /** What `JSON.parse` can make of the GTFS script's output: the trips payload,
      `{ error: ... }` when the feed request did not answer 200, or any other JSON value,
      which has no `trips` array (the script prints only the first two, but the server
      stores whatever parses). */
  datatype GtfsDoc = TripsDoc(trips: seq<Trip>) | ErrorDoc(error: string) | OtherDoc(value: NonTripsValue)

  /** A JSON value that is not an object with an array under `trips`, so that
      `.trips.forEach` cannot iterate it. */
  type NonTripsValue = v: Value | !(v.Obj? && "trips" in v.fields && v.fields["trips"].Arr?) witness Null

  /** JavaScript truthiness of a parsed GTFS document: both objects the script prints are
      truthy, and any other value is as truthy as that value. */
  predicate DocTruthy(d: GtfsDoc) {
    d.OtherDoc? ==> Truthy(d.value)
  }

  /** `properties` of a feature of `physical_stop.json`. */
  datatype PhysicalProps = PhysicalProps(
    code_arret_physique: Value,
    nom_commercial_arret: Value,
    rue: Value,
    commune: Value,
    type_voirie: Value,
    code_postal: Value,
    code_insee: Value,
    code_ligne: Value)

  /** A registry feature: its `properties` and its `geometry.coordinates`. */
  datatype PhysicalFeature = PhysicalFeature(properties: PhysicalProps, coordinates: Value)

  datatype Registry = Registry(features: seq<PhysicalFeature>)

  /** One record of `prochains_passages.json`. `identifiant_station` may be one identifier
      (a string) or several (an array). */
  datatype Passage = Passage(
    identifiant_station: Value,
    nom_station: Value,
    code_ligne: Value,
    sens_ligne: Value,
    heure_estimee_depart: Value,
    date_modification: Value)

  datatype PassageFile = PassageFile(records: seq<Passage>)

  /** `properties` of a feature of `stations_metro.json`. */
  datatype MetroProps = MetroProps(nom_statio: Value, commune: Value, ligne: Value)

  datatype MetroFeature = MetroFeature(properties: MetroProps, coordinates: Value)

  datatype MetroDoc = MetroDoc(features: seq<MetroFeature>)
}
