/** The GTFS script of V3: a stop dictionary built from the spreadsheet rows, and the
    transformation of the real-time feed's trip updates into the printed trips document. */
module GtfsScript {
  import opened Wrappers
  import opened Json
  import opened Sequences

  const Unavailable := "Non disponible"
  const Unknown := "Inconnu"

  /** A spreadsheet cell as pandas reads it: empty (NaN) or a value. */
  datatype Cell = Blank | Filled(v: Value)

  /** A spreadsheet row. `stop_id` is read as text; `geom` is `None` when the sheet has no
      such column. */
  datatype StopRow = StopRow(stop_id: string, stop_name: Cell, stop_desc: Cell, geom: Option<Cell>)

  /** The value stored in `stop_info` for one row. */
  datatype StopInfo = StopInfo(stop_name: Cell, stop_desc: Cell, geom: Cell)

  /** The dictionary entry for one row: name and description as read, and the geometry
      unless the column is absent or the cell is empty. */
  function InfoOf(row: StopRow): (i: StopInfo)
    ensures i.stop_name == row.stop_name && i.stop_desc == row.stop_desc
    ensures row.geom.Some? && row.geom.value.Filled? ==> i.geom == row.geom.value
    ensures row.geom.None? || row.geom.value.Blank? ==> i.geom == Filled(Str(Unavailable))
  {
    var geom := if row.geom.Some? && row.geom.value.Filled? then row.geom.value else Filled(Str(Unavailable));
    StopInfo(row.stop_name, row.stop_desc, geom)
  }

  /** Row `i` is the last row carrying its `stop_id`. */
  ghost predicate LastRowFor(rows: seq<StopRow>, i: int) {
    && 0 <= i < |rows|
    && forall j :: i < j < |rows| ==> rows[j].stop_id != rows[i].stop_id
  }

  /** `m` holds exactly the identifiers of `rows`, each mapped to its last row's entry. */
  ghost predicate IndexesRows(rows: seq<StopRow>, m: map<string, StopInfo>) {
    && (forall k :: k in m <==> exists i :: 0 <= i < |rows| && rows[i].stop_id == k)
    && (forall i :: LastRowFor(rows, i) ==> rows[i].stop_id in m && m[rows[i].stop_id] == InfoOf(rows[i]))
  }

  /** Adding the next row adds exactly its identifier to the keys of the earlier rows. */
  lemma IndexesRowsKeys(rows: seq<StopRow>, m0: map<string, StopInfo>, m: map<string, StopInfo>)
    requires |rows| > 0
    requires forall k :: k in m0 <==> exists i :: 0 <= i < |rows| - 1 && rows[i].stop_id == k
    requires m.Keys == m0.Keys + {rows[|rows| - 1].stop_id}
    ensures forall k :: k in m <==> exists i :: 0 <= i < |rows| && rows[i].stop_id == k
  {
    var n := |rows| - 1;
    forall k ensures k in m <==> exists i :: 0 <= i < |rows| && rows[i].stop_id == k {
      if k in m && k != rows[n].stop_id {
        var i :| 0 <= i < n && rows[i].stop_id == k;
      }
    }
  }

  /** Adding the next row to the dictionary of the earlier rows. */
  lemma IndexesRowsStep(rows: seq<StopRow>, m0: map<string, StopInfo>)
    requires |rows| > 0
    requires IndexesRows(rows[..|rows| - 1], m0)
    ensures IndexesRows(rows, m0[rows[|rows| - 1].stop_id := InfoOf(rows[|rows| - 1])])
  {
    var n := |rows| - 1;
    var init := rows[..n];
    var last := rows[n];
    var m := m0[last.stop_id := InfoOf(last)];
    forall k ensures k in m0 <==> exists i :: 0 <= i < n && rows[i].stop_id == k {
      if k in m0 {
        var i :| 0 <= i < n && init[i].stop_id == k;
      }
      if exists i :: 0 <= i < n && rows[i].stop_id == k {
        var i :| 0 <= i < n && rows[i].stop_id == k;
        assert init[i].stop_id == k;
      }
    }
    IndexesRowsKeys(rows, m0, m);
    forall i | LastRowFor(rows, i) ensures rows[i].stop_id in m && m[rows[i].stop_id] == InfoOf(rows[i]) {
      if i < n {
        assert rows[i].stop_id != last.stop_id;
        assert init[i] == rows[i];
        assert LastRowFor(init, i) by {
          forall j | i < j < n ensures init[j].stop_id != init[i].stop_id {
            assert init[j] == rows[j];
          }
        }
      }
    }
  }

  /** The dict comprehension `stop_info`: keyed by every `stop_id` of the sheet, and for an
      identifier that occurs on several rows the last row wins. */
  function BuildStopInfo(rows: seq<StopRow>): (m: map<string, StopInfo>)
    ensures IndexesRows(rows, m)
    decreases |rows|
  {
    if |rows| == 0 then map[]
    else
      var n := |rows| - 1;
      var m0 := BuildStopInfo(rows[..n]);
      IndexesRowsStep(rows, m0);
      m0[rows[n].stop_id := InfoOf(rows[n])]
  }

  // ---------------------------------------------------------------------------
  // The feed
  // ---------------------------------------------------------------------------

  /** A `stop_time_update`; an unset arrival or departure reads as time 0. */
  datatype StopTimeUpdate = StopTimeUpdate(stop_id: string, arrival_time: int, departure_time: int)

  datatype TripUpdate = TripUpdate(trip_id: string, stop_time_updates: seq<StopTimeUpdate>)

  /** A feed entity; `trip_update` is `None` when the field is not set. */
  datatype Entity = Entity(trip_update: Option<TripUpdate>)

  /** The HTTP answer of the feed request: its status and, when it is 200, the entities of
      the decoded feed message. */
  datatype Response = Response(status: int, entities: seq<Entity>)

  datatype StopOut = StopOut(
    stop_id: string,
    stop_name: Cell,
    stop_desc: Cell,
    geom: Cell,
    arrival_time: string,
    departure_time: string)

  datatype TripOut = TripOut(trip_id: string, stops: seq<StopOut>)

  /** The document the script prints. */
  datatype Output = Data(trips: seq<TripOut>, vehicles: seq<Value>, alerts: seq<Value>) | Failure(error: string)

  /** A time field: formatted with `fmt` (local-time `strftime`) unless it is 0. */
  function TimeText(t: int, fmt: int -> string): (r: string)
    ensures t == 0 ==> r == Unavailable
    ensures t != 0 ==> r == fmt(t)
  {
    if t != 0 then fmt(t) else Unavailable
  }

  /** The entry appended to `trip_data["stops"]` for one update. A stop absent from the
      dictionary gets "Inconnu" as its name and "Non disponible" as description and geometry. */
  function StopOf(u: StopTimeUpdate, info: map<string, StopInfo>, fmt: int -> string): (r: StopOut)
    ensures r.stop_id == u.stop_id
    ensures u.stop_id in info ==>
              r.stop_name == info[u.stop_id].stop_name && r.stop_desc == info[u.stop_id].stop_desc
              && r.geom == info[u.stop_id].geom
    ensures u.stop_id !in info ==>
              r.stop_name == Filled(Str(Unknown)) && r.stop_desc == Filled(Str(Unavailable))
              && r.geom == Filled(Str(Unavailable))
    ensures r.arrival_time == TimeText(u.arrival_time, fmt) && r.departure_time == TimeText(u.departure_time, fmt)
  {
    var arrival := TimeText(u.arrival_time, fmt);
    var departure := TimeText(u.departure_time, fmt);
    if u.stop_id in info then
      var i := info[u.stop_id];
      StopOut(u.stop_id, i.stop_name, i.stop_desc, i.geom, arrival, departure)
    else
      StopOut(u.stop_id, Filled(Str(Unknown)), Filled(Str(Unavailable)), Filled(Str(Unavailable)), arrival, departure)
  }

  /** `trip_data` for one trip update: one stop per `stop_time_update`, in order. */
  function TripOf(tu: TripUpdate, info: map<string, StopInfo>, fmt: int -> string): (r: TripOut)
    ensures r.trip_id == tu.trip_id
    ensures |r.stops| == |tu.stop_time_updates|
    ensures forall i :: 0 <= i < |tu.stop_time_updates| ==>
              r.stops[i] == StopOf(tu.stop_time_updates[i], info, fmt)
              && r.stops[i].stop_id == tu.stop_time_updates[i].stop_id
  {
    var updates := tu.stop_time_updates;
    TripOut(tu.trip_id, seq(|updates|, i requires 0 <= i < |updates| => StopOf(updates[i], info, fmt)))
  }

  /** The body of `for entity in feed.entity`: a trip when `trip_update` is set. */
  function EntityTrip(info: map<string, StopInfo>, fmt: int -> string): Entity -> Option<TripOut> {
    (e: Entity) => if e.trip_update.Some? then Some(TripOf(e.trip_update.value, info, fmt)) else None
  }

  /** The trips of the feed, in entity order. */
  function Trips(entities: seq<Entity>, info: map<string, StopInfo>, fmt: int -> string): seq<TripOut> {
    FilterMap(EntityTrip(info, fmt), entities)
  }

  /** The whole script: on status 200 the trips document with empty `vehicles` and
      `alerts`; otherwise only the error object naming the status. */
  function RunScript(rows: seq<StopRow>, response: Response, fmt: int -> string): (r: Output)
    ensures response.status == 200 ==>
              r.Data? && r.vehicles == [] && r.alerts == []
              && r.trips == Trips(response.entities, BuildStopInfo(rows), fmt)
    ensures response.status != 200 ==>
              r == Failure("Erreur " + IntToString(response.status) + " lors de la récupération des données")
  {
    if response.status == 200 then
      Data(Trips(response.entities, BuildStopInfo(rows), fmt), [], [])
    else
      Failure("Erreur " + IntToString(response.status) + " lors de la récupération des données")
  }

  /** Exactly one trip is printed per entity that has a trip update, in feed order, each
      carrying that update's trip id and one stop per stop-time update; other entities
      contribute nothing. */
  lemma TripsPerEntity(entities: seq<Entity>, info: map<string, StopInfo>, fmt: int -> string)
    ensures var out := Trips(entities, info, fmt);
            var idx := KeptIndices(EntityTrip(info, fmt), entities);
            && Selects(EntityTrip(info, fmt), entities, out, idx)
            && |out| <= |entities|
            && (forall p :: 0 <= p < |entities| ==> (p in idx <==> entities[p].trip_update.Some?))
            && (forall k :: 0 <= k < |out| ==>
                  entities[idx[k]].trip_update.Some?
                  && out[k].trip_id == entities[idx[k]].trip_update.value.trip_id
                  && |out[k].stops| == |entities[idx[k]].trip_update.value.stop_time_updates|)
  {
    var f := EntityTrip(info, fmt);
    var out := Trips(entities, info, fmt);
    var idx := KeptIndices(f, entities);
    FilterMapSelects(f, entities);
    FilterMapLength(f, entities);
    forall p | 0 <= p < |entities| ensures p in idx <==> entities[p].trip_update.Some? {
      if p in idx {
        var k :| 0 <= k < |idx| && idx[k] == p;
        assert f(entities[idx[k]]).Some?;
      }
    }
    forall k | 0 <= k < |out|
      ensures entities[idx[k]].trip_update.Some?
      ensures out[k].trip_id == entities[idx[k]].trip_update.value.trip_id
      ensures |out[k].stops| == |entities[idx[k]].trip_update.value.stop_time_updates|
    {
      assert f(entities[idx[k]]) == Some(out[k]);
    }
  }

  /** Two rows with the same identifier: the dictionary keeps the second. */
  lemma LastRowWins(a: StopRow, b: StopRow)
    requires a.stop_id == b.stop_id
    ensures BuildStopInfo([a, b])[a.stop_id] == InfoOf(b)
  {
    assert LastRowFor([a, b], 1);
  }
}
