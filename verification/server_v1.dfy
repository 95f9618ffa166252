/** The V1 server: one process-fed slot (`cachedData` / `lastUpdated`) and `/api/gtfs`. */
module ServerV1 {
  import opened Wrappers
  import opened Json
  import opened CacheSlots

  /** The messages the V1 `exec` callback stores as `{ error: ... }`. */
  const V1Markers := Markers("Erreur lors de l'exécution du script.", "Erreur lors du parsing des données GTFS.")

  const Fetching := "Données en cours de récupération."

  /** `cachedData` holds whatever `JSON.parse` returned, so any JSON value. */
  type State = GtfsSlot<Value>

  /** `!cachedData`: the slot is `null`, or holds a parsed value JavaScript treats as false.
      An error object is truthy. */
  predicate Ready(st: State) {
    CachedTruthy(st.data, Truthy)
  }

  /** A reply: 503 with its message, or 200 with `{ lastUpdated, data }`. */
  datatype Reply = NotReady(message: string) | Ok(lastUpdated: Option<Instant>, data: Cached<Value>)

  /** Both variables start out `null`, and `/api/gtfs` answers 503. */
  function Initial(): (st: State)
    ensures st.data.Unset? && st.lastUpdated.None?
    ensures !Ready(st)
  {
    InitialSlot()
  }

  /** The `exec` callback of `fetchGTFSData`. */
  function OnExec(st: State, c: Completion, parse: string -> Option<Value>): (r: State)
    ensures c.outcome.ExecError? ==> r == GtfsSlot(ErrorMarker("Erreur lors de l'exécution du script."), st.lastUpdated)
    ensures Succeeded(c, parse) ==> r == GtfsSlot(Payload(parse(c.outcome.stdout).value), Some(c.now))
    ensures c.outcome.Exited? && !Succeeded(c, parse) ==>
              r == GtfsSlot(ErrorMarker("Erreur lors du parsing des données GTFS."), st.lastUpdated)
  {
    OnExecComplete(st, c, parse, V1Markers)
  }

  /** `GET /api/gtfs` */
  function GtfsReply(st: State): (r: Reply)
    ensures r.NotReady? <==> !Ready(st)
    ensures r.NotReady? ==> r.message == Fetching
    ensures r.Ok? ==> r.lastUpdated == st.lastUpdated && r.data == st.data
  {
    if !Ready(st) then NotReady(Fetching) else Ok(st.lastUpdated, st.data)
  }

  /** The state after the callbacks `cs`, started from the initial state. */
  function Run(cs: seq<Completion>, parse: string -> Option<Value>): State {
    Replay(Initial(), cs, parse, V1Markers)
  }

  /** Once one callback has run, `/api/gtfs` is ready exactly unless the latest callback's
      output parsed to a falsy value; the earlier callbacks do not matter. */
  lemma StaysReady(cs: seq<Completion>, parse: string -> Option<Value>)
    requires |cs| > 0
    ensures GtfsReply(Run(cs, parse)).Ok?
            <==> (Succeeded(cs[|cs| - 1], parse) ==> Truthy(parse(cs[|cs| - 1].outcome.stdout).value))
  {
    ReplayLatestDecides(Initial(), cs, parse, V1Markers);
  }

  /** `lastUpdated` is the time of the latest callback whose output parsed, and stays
      `null` while none has. */
  lemma RunTimestamp(cs: seq<Completion>, parse: string -> Option<Value>)
    ensures (forall j :: 0 <= j < |cs| ==> !Succeeded(cs[j], parse)) ==> Run(cs, parse).lastUpdated.None?
    ensures forall i :: LastSuccessAt(cs, parse, i) ==> Run(cs, parse).lastUpdated == Some(cs[i].now)
  {
    ReplayTimestamp(Initial(), cs, parse, V1Markers);
  }

  /** The readiness test is truthiness, not non-nullness: standard output that parses to a
      falsy value (`null`, `0`, `""`, `false`) makes `/api/gtfs` answer 503 again while
      `lastUpdated` advances. */
  lemma FalsyDocumentUnreadies(st: State, stdout: string, stderr: string, now: Instant, parse: string -> Option<Value>)
    requires parse(stdout).Some? && !Truthy(parse(stdout).value)
    ensures GtfsReply(OnExec(st, Completion(Exited(stdout, stderr), now), parse)).NotReady?
    ensures OnExec(st, Completion(Exited(stdout, stderr), now), parse).lastUpdated == Some(now)
  {
  }
}
