/** The `/api/matched_stops` join of the V4 server: every stop of every trip is looked up
    in the physical-stop registry (exact key) and in the real-time passages (containment),
    dropped when neither lookup finds anything, and otherwise flattened into one record
    whose missing fields carry French placeholders. */
module MatchedStops {
  import opened Wrappers
  import opened Json
  import opened Documents
  import opened Sequences

  const NotFound: Value := Str("Non trouvé")
  const NotAvailable: Value := Str("Non disponible")

  /** The flat record pushed onto `matchedStops`. */
  datatype MatchedStop = MatchedStop(
    stop_id: string,
    stop_name: Value,
    stop_desc: Value,
    geom: Value,
    arrival_time: Value,
    departure_time: Value,
    code_arret_physique: Value,
    nom_commercial_arret: Value,
    adresse: Value,
    coordonnees: Value,
    type_voirie: Value,
    code_postal: Value,
    code_insee: Value,
    identifiant_station: Value,
    nom_station: Value,
    code_ligne: Value,
    sens_ligne: Value,
    heure_estimee_depart: Value,
    date_modification: Value)

  // ---------------------------------------------------------------------------
  // Specification of the two lookups
  // ---------------------------------------------------------------------------

  /** `stop.properties.code_arret_physique === id` */
  predicate KeyMatches(f: PhysicalFeature, id: string) {
    f.properties.code_arret_physique == Str(id)
  }

  ghost predicate HasPhysical(features: seq<PhysicalFeature>, id: string) {
    exists j :: 0 <= j < |features| && KeyMatches(features[j], id)
  }

  /** Feature `i` is the first in registry order whose key is `id`. */
  ghost predicate FirstPhysicalAt(features: seq<PhysicalFeature>, id: string, i: int) {
    && 0 <= i < |features|
    && KeyMatches(features[i], id)
    && forall j :: 0 <= j < i ==> !KeyMatches(features[j], id)
  }

  /** What `record.identifiant_station.includes(id)` does for one record. */
  function Probe(p: Passage, id: string): Option<bool> {
    Includes(p.identifiant_station, id)
  }

  /** Record `i` is the first whose identifiers contain `id`, every earlier probe
      having answered `false`. */
  ghost predicate FirstRealTimeAt(records: seq<Passage>, id: string, i: int) {
    && 0 <= i < |records|
    && Probe(records[i], id) == Some(true)
    && forall j :: 0 <= j < i ==> Probe(records[j], id) == Some(false)
  }

  /** The search reaches record `i` (every earlier probe answered `false`) and the probe of
      record `i` throws, because its identifiers are neither a string nor an array. */
  ghost predicate RealTimeThrowsAt(records: seq<Passage>, id: string, i: int) {
    && 0 <= i < |records|
    && Probe(records[i], id).None?
    && forall j :: 0 <= j < i ==> Probe(records[j], id) == Some(false)
  }

  ghost predicate HasRealTime(records: seq<Passage>, id: string) {
    exists i :: FirstRealTimeAt(records, id, i)
  }

  ghost predicate RealTimeThrows(records: seq<Passage>, id: string) {
    exists i :: RealTimeThrowsAt(records, id, i)
  }

  // ---------------------------------------------------------------------------
  // The two lookups, as `Array.prototype.find`
  // ---------------------------------------------------------------------------

  /** `features.find(...)` started at position `from`: the index of the first feature
      keyed `id`, or `None` when there is none. */
  function FindPhysical(features: seq<PhysicalFeature>, id: string, from: nat): (r: Option<nat>)
    requires from <= |features|
    ensures r.Some? ==> from <= r.value < |features| && KeyMatches(features[r.value], id)
    ensures forall j :: from <= j < |features| && (r.None? || j < r.value) ==> !KeyMatches(features[j], id)
    decreases |features| - from
  {
    if from == |features| then None
    else if KeyMatches(features[from], id) then Some(from)
    else FindPhysical(features, id, from + 1)
  }

  /** The three ways `records.find(...)` can end. */
  datatype Search = Hit(index: nat) | Miss | Throws(index: nat)

  /** `records.find(...)` started at position `from`: stops at the first record whose
      identifiers contain `id`, or at the first probe that throws. */
  function FindRealTime(records: seq<Passage>, id: string, from: nat): (r: Search)
    requires from <= |records|
    ensures r.Hit? ==> from <= r.index < |records| && Probe(records[r.index], id) == Some(true)
    ensures r.Throws? ==> from <= r.index < |records| && Probe(records[r.index], id).None?
    ensures forall j :: from <= j < |records| && (r.Miss? || j < r.index)
              ==> Probe(records[j], id) == Some(false)
    decreases |records| - from
  {
    if from == |records| then Miss
    else
      match Probe(records[from], id)
      case None => Throws(from)
      case Some(true) => Hit(from)
      case Some(false) => FindRealTime(records, id, from + 1)
  }

  lemma FirstPhysicalUnique(features: seq<PhysicalFeature>, id: string, i: int, k: int)
    requires FirstPhysicalAt(features, id, i) && FirstPhysicalAt(features, id, k)
    ensures i == k
  {
  }

  lemma RealTimeStopUnique(records: seq<Passage>, id: string, i: int, k: int)
    requires FirstRealTimeAt(records, id, i) || RealTimeThrowsAt(records, id, i)
    requires FirstRealTimeAt(records, id, k) || RealTimeThrowsAt(records, id, k)
    ensures i == k
  {
  }

  // ---------------------------------------------------------------------------
  // One trip stop
  // ---------------------------------------------------------------------------

  /** The six trip-stop fields are copied unchanged. */
  predicate CopiesTripStop(m: MatchedStop, s: TripStop) {
    && m.stop_id == s.stop_id
    && m.stop_name == s.stop_name
    && m.stop_desc == s.stop_desc
    && m.geom == s.geom
    && m.arrival_time == s.arrival_time
    && m.departure_time == s.departure_time
  }

  /** The registry fields come from feature `f`; the address is `rue, commune`. */
  predicate PhysicalFieldsFrom(m: MatchedStop, f: PhysicalFeature) {
    && m.code_arret_physique == f.properties.code_arret_physique
    && m.nom_commercial_arret == f.properties.nom_commercial_arret
    && m.adresse == Str(ToText(f.properties.rue) + ", " + ToText(f.properties.commune))
    && m.coordonnees == f.coordinates
    && m.type_voirie == f.properties.type_voirie
    && m.code_postal == f.properties.code_postal
    && m.code_insee == f.properties.code_insee
  }

  /** Without a registry match every registry field is a placeholder. */
  predicate PhysicalFieldsAbsent(m: MatchedStop) {
    && m.code_arret_physique == NotFound
    && m.nom_commercial_arret == NotFound
    && m.adresse == NotAvailable
    && m.coordonnees == NotAvailable
    && m.type_voirie == NotAvailable
    && m.code_postal == NotAvailable
    && m.code_insee == NotAvailable
  }

  /** The real-time fields (other than the line code) come from record `p`. */
  predicate RealTimeFieldsFrom(m: MatchedStop, p: Passage) {
    && m.identifiant_station == p.identifiant_station
    && m.nom_station == p.nom_station
    && m.sens_ligne == p.sens_ligne
    && m.heure_estimee_depart == p.heure_estimee_depart
    && m.date_modification == p.date_modification
  }

  /** Without a real-time match every real-time field is a placeholder. */
  predicate RealTimeFieldsAbsent(m: MatchedStop) {
    && m.identifiant_station == NotFound
    && m.nom_station == NotFound
    && m.sens_ligne == NotAvailable
    && m.heure_estimee_depart == NotAvailable
    && m.date_modification == NotAvailable
  }

  /** The line code: the physical stop's when one was found (a falsy code becomes
      "Non disponible", even if the real-time record has one), else the real-time
      record's, else "Non disponible". */
  function CodeLigne(physical: Option<PhysicalFeature>, realTime: Option<Passage>): Value {
    if physical.Some? then Or(physical.value.properties.code_ligne, NotAvailable)
    else if realTime.Some? then Or(realTime.value.code_ligne, NotAvailable)
    else NotAvailable
  }

  /** The object literal pushed for a stop with at least one match. */
  function Build(s: TripStop, physical: Option<PhysicalFeature>, realTime: Option<Passage>): MatchedStop {
    var p := physical;
    var r := realTime;
    MatchedStop(
      s.stop_id, s.stop_name, s.stop_desc, s.geom, s.arrival_time, s.departure_time,
      if p.Some? then p.value.properties.code_arret_physique else NotFound,
      if p.Some? then p.value.properties.nom_commercial_arret else NotFound,
      if p.Some? then Str(ToText(p.value.properties.rue) + ", " + ToText(p.value.properties.commune))
      else NotAvailable,
      if p.Some? then p.value.coordinates else NotAvailable,
      if p.Some? then p.value.properties.type_voirie else NotAvailable,
      if p.Some? then p.value.properties.code_postal else NotAvailable,
      if p.Some? then p.value.properties.code_insee else NotAvailable,
      if r.Some? then r.value.identifiant_station else NotFound,
      if r.Some? then r.value.nom_station else NotFound,
      CodeLigne(p, r),
      if r.Some? then r.value.sens_ligne else NotAvailable,
      if r.Some? then r.value.heure_estimee_depart else NotAvailable,
      if r.Some? then r.value.date_modification else NotAvailable)
  }

  /** What the loop body does for one trip stop: push a record, push nothing, or throw. */
  datatype StopOutcome = Emit(m: MatchedStop) | Skip | Throw

  /** The body of the inner `forEach` for trip stop `s`. */
  function MatchOne(s: TripStop, features: seq<PhysicalFeature>, records: seq<Passage>): (r: StopOutcome)
    ensures r.Throw? <==> RealTimeThrows(records, s.stop_id)
    ensures r.Skip? <==> !RealTimeThrows(records, s.stop_id)
                         && !HasPhysical(features, s.stop_id) && !HasRealTime(records, s.stop_id)
    ensures r.Emit? ==> CopiesTripStop(r.m, s)
    ensures r.Emit? ==> forall i :: FirstPhysicalAt(features, s.stop_id, i)
                          ==> PhysicalFieldsFrom(r.m, features[i])
                              && r.m.code_ligne == Or(features[i].properties.code_ligne, NotAvailable)
    ensures r.Emit? && !HasPhysical(features, s.stop_id) ==> PhysicalFieldsAbsent(r.m)
    ensures r.Emit? ==> forall i :: FirstRealTimeAt(records, s.stop_id, i)
                          ==> RealTimeFieldsFrom(r.m, records[i])
    ensures r.Emit? && !HasPhysical(features, s.stop_id) ==>
              (forall i :: FirstRealTimeAt(records, s.stop_id, i)
                 ==> r.m.code_ligne == Or(records[i].code_ligne, NotAvailable))
    ensures r.Emit? && !HasRealTime(records, s.stop_id) ==> RealTimeFieldsAbsent(r.m)
  {
    var id := s.stop_id;
    var pi := FindPhysical(features, id, 0);
    var ri := FindRealTime(records, id, 0);
    assert pi.Some? ==> FirstPhysicalAt(features, id, pi.value);
    assert pi.Some? <==> HasPhysical(features, id);
    assert pi.Some? ==> forall i :: FirstPhysicalAt(features, id, i) ==> i == pi.value by {
      if pi.Some? {
        forall i | FirstPhysicalAt(features, id, i) ensures i == pi.value {
          FirstPhysicalUnique(features, id, i, pi.value);
        }
      }
    }
    assert ri.Hit? ==> FirstRealTimeAt(records, id, ri.index);
    assert ri.Throws? ==> RealTimeThrowsAt(records, id, ri.index);
    assert RealTimeThrows(records, id) ==> ri.Throws? by {
      if RealTimeThrows(records, id) {
        var i :| RealTimeThrowsAt(records, id, i);
        if ri.Hit? || ri.Throws? {
          RealTimeStopUnique(records, id, i, ri.index);
        }
      }
    }
    assert HasRealTime(records, id) ==> ri.Hit? by {
      if HasRealTime(records, id) {
        var i :| FirstRealTimeAt(records, id, i);
        if ri.Hit? || ri.Throws? {
          RealTimeStopUnique(records, id, i, ri.index);
        }
      }
    }
    assert ri.Hit? ==> forall i :: FirstRealTimeAt(records, id, i) ==> i == ri.index by {
      if ri.Hit? {
        forall i | FirstRealTimeAt(records, id, i) ensures i == ri.index {
          RealTimeStopUnique(records, id, i, ri.index);
        }
      }
    }
    if ri.Throws? then
      Throw
    else
      var physical := if pi.Some? then Some(features[pi.value]) else None;
      var realTime := if ri.Hit? then Some(records[ri.index]) else None;
      if physical.Some? || realTime.Some? then Emit(Build(s, physical, realTime)) else Skip
  }

  // ---------------------------------------------------------------------------
  // The nested loop over trips and stops
  // ---------------------------------------------------------------------------

  /** The request either finishes with the accumulated array or throws. */
  datatype JoinResult = Joined(stops: seq<MatchedStop>) | Threw

  /** One iteration of the inner `forEach`, applied to the array built so far. */
  function Push(acc: JoinResult, s: TripStop, features: seq<PhysicalFeature>, records: seq<Passage>): JoinResult {
    match acc
    case Threw => Threw
    case Joined(out) =>
      match MatchOne(s, features, records)
      case Emit(m) => Joined(out + [m])
      case Skip => Joined(out)
      case Throw => Threw
  }

  /** `trip.stops.forEach(...)`, continuing from the array built so far. */
  function PushStops(acc: JoinResult, stops: seq<TripStop>, features: seq<PhysicalFeature>, records: seq<Passage>)
    : JoinResult
    decreases |stops|
  {
    if |stops| == 0 then acc
    else Push(PushStops(acc, stops[..|stops| - 1], features, records), stops[|stops| - 1], features, records)
  }

  /** `cachedGTFSData.trips.forEach(...)` starting from the empty `matchedStops`. */
  function JoinTrips(trips: seq<Trip>, features: seq<PhysicalFeature>, records: seq<Passage>): JoinResult
    decreases |trips|
  {
    if |trips| == 0 then Joined([])
    else PushStops(JoinTrips(trips[..|trips| - 1], features, records), trips[|trips| - 1].stops, features, records)
  }

  // ---------------------------------------------------------------------------
  // Reference: one pass over the flattened stop list
  // ---------------------------------------------------------------------------

  /** All trip stops, trips in order and stops within each trip in order. */
  function AllStops(trips: seq<Trip>): seq<TripStop>
    decreases |trips|
  {
    if |trips| == 0 then [] else AllStops(trips[..|trips| - 1]) + trips[|trips| - 1].stops
  }

  /** The record a stop contributes, if any, when no lookup throws. */
  function Emitted(features: seq<PhysicalFeature>, records: seq<Passage>): TripStop -> Option<MatchedStop> {
    (s: TripStop) => var o := MatchOne(s, features, records); if o.Emit? then Some(o.m) else None
  }

  ghost predicate AnyThrows(stops: seq<TripStop>, records: seq<Passage>) {
    exists p :: 0 <= p < |stops| && RealTimeThrows(records, stops[p].stop_id)
  }

  /** The specified result of the join over a flat list of stops: it throws as soon as one
      stop's real-time search throws, and otherwise keeps the emitted records in order. */
  ghost function Expected(stops: seq<TripStop>, features: seq<PhysicalFeature>, records: seq<Passage>): JoinResult {
    if AnyThrows(stops, records) then Threw else Joined(FilterMap(Emitted(features, records), stops))
  }

  /** A concatenation throws exactly when one of its parts does. */
  lemma AnyThrowsAppend(a: seq<TripStop>, b: seq<TripStop>, records: seq<Passage>)
    ensures AnyThrows(a + b, records) <==> AnyThrows(a, records) || AnyThrows(b, records)
  {
    if AnyThrows(a, records) {
      var p :| 0 <= p < |a| && RealTimeThrows(records, a[p].stop_id);
      assert (a + b)[p] == a[p];
    }
    if AnyThrows(b, records) {
      var p :| 0 <= p < |b| && RealTimeThrows(records, b[p].stop_id);
      assert (a + b)[|a| + p] == b[p];
    }
    if AnyThrows(a + b, records) {
      var p :| 0 <= p < |a + b| && RealTimeThrows(records, (a + b)[p].stop_id);
      if p < |a| {
        assert (a + b)[p] == a[p];
      } else {
        assert (a + b)[p] == b[p - |a|];
      }
    }
  }

  /** Once the request has thrown it stays thrown. */
  lemma {:induction false} PushStopsThrew(stops: seq<TripStop>, features: seq<PhysicalFeature>, records: seq<Passage>)
    ensures PushStops(Threw, stops, features, records) == Threw
    decreases |stops|
  {
    if |stops| > 0 {
      PushStopsThrew(stops[..|stops| - 1], features, records);
    }
  }

  /** The inner loop appends exactly the records `Expected` specifies for its stops. */
  lemma {:induction false} PushStopsMeetsSpec(acc: seq<MatchedStop>, stops: seq<TripStop>,
                                              features: seq<PhysicalFeature>, records: seq<Passage>)
    ensures PushStops(Joined(acc), stops, features, records)
            == match Expected(stops, features, records)
               case Threw => Threw
               case Joined(out) => Joined(acc + out)
    decreases |stops|
  {
    var f := Emitted(features, records);
    if |stops| == 0 {
      assert !AnyThrows(stops, records);
      assert acc + FilterMap(f, stops) == acc;
    } else {
      var n := |stops| - 1;
      var init := stops[..n];
      var s := stops[n];
      PushStopsMeetsSpec(acc, init, features, records);
      assert stops == init + [s];
      AnyThrowsAppend(init, [s], records);
      assert AnyThrows([s], records) <==> RealTimeThrows(records, s.stop_id) by {
        assert [s][0] == s;
      }
      if !AnyThrows(init, records) {
        var out0 := FilterMap(f, init);
        assert FilterMap(f, stops) == if f(s).Some? then out0 + [f(s).value] else out0;
        if f(s).Some? {
          assert acc + out0 + [f(s).value] == acc + (out0 + [f(s).value]);
        }
      }
    }
  }

  /** The nested loop over trips and stops equals one pass over the flattened stop list. */
  lemma {:induction false} JoinTripsMeetsSpec(trips: seq<Trip>, features: seq<PhysicalFeature>, records: seq<Passage>)
    ensures JoinTrips(trips, features, records) == Expected(AllStops(trips), features, records)
    decreases |trips|
  {
    var f := Emitted(features, records);
    if |trips| == 0 {
      assert !AnyThrows(AllStops(trips), records);
    } else {
      var n := |trips| - 1;
      var init := trips[..n];
      var last := trips[n].stops;
      var a := AllStops(init);
      JoinTripsMeetsSpec(init, features, records);
      assert AllStops(trips) == a + last;
      AnyThrowsAppend(a, last, records);
      if AnyThrows(a, records) {
        PushStopsThrew(last, features, records);
      } else {
        PushStopsMeetsSpec(FilterMap(f, a), last, features, records);
        FilterMapAppend(f, a, last);
      }
    }
  }

  /** The join over `trips`: it throws exactly when some stop's real-time search throws;
      otherwise its output holds exactly one record per trip stop with a registry or a
      real-time match, in trip-then-stop order, never more records than stops, and each
      record is the one built for its stop. */
  lemma JoinTripsSelects(trips: seq<Trip>, features: seq<PhysicalFeature>, records: seq<Passage>)
    ensures JoinTrips(trips, features, records).Threw? <==> AnyThrows(AllStops(trips), records)
    ensures JoinTrips(trips, features, records).Joined? ==>
              var out := JoinTrips(trips, features, records).stops;
              var flat := AllStops(trips);
              && |out| <= |flat|
              && Selects(Emitted(features, records), flat, out, KeptIndices(Emitted(features, records), flat))
  {
    JoinTripsMeetsSpec(trips, features, records);
    var flat := AllStops(trips);
    FilterMapSelects(Emitted(features, records), flat);
    FilterMapLength(Emitted(features, records), flat);
  }

  /** A stop contributes a record exactly when its registry or real-time lookup matched. */
  lemma EmittedExactlyWhenMatched(s: TripStop, features: seq<PhysicalFeature>, records: seq<Passage>)
    requires !RealTimeThrows(records, s.stop_id)
    ensures Emitted(features, records)(s).Some?
            <==> HasPhysical(features, s.stop_id) || HasRealTime(records, s.stop_id)
  {
  }
}
