/** The cache slots the servers keep in module-level variables, and the transitions that
    refresh them: the `exec` callback of `fetchGTFSData` and the file load of `loadJSON`. */
module CacheSlots {
  import opened Wrappers

  /** A point in time, as produced by `new Date()`; supplied by the caller. */
  type Instant = int

  /** What the child process reports to the `exec` callback: a spawn failure or non-zero
      exit (`error`), or a clean exit with the captured output channels. */
  datatype ExecOutcome = ExecError(message: string) | Exited(stdout: string, stderr: string)

  /** One run of the callback: the process outcome and the time at which it ran. */
  datatype Completion = Completion(outcome: ExecOutcome, now: Instant)

  /** Contents of a process-fed slot: `null` before the first callback, the error object
      the callback stores on failure, or the document `JSON.parse` produced. */
  datatype Cached<D> = Unset | ErrorMarker(error: string) | Payload(doc: D)

  /** The pair of module-level variables `cachedData` / `lastUpdated`. */
  datatype GtfsSlot<D> = GtfsSlot(data: Cached<D>, lastUpdated: Option<Instant>)

  /** The two error messages a server version writes into its slot. */
  datatype Markers = Markers(execFailed: string, parseFailed: string)

  /** `!cachedData` is false: the slot holds an error object (always truthy) or a document
      that `truthy`, JavaScript truthiness for the document type, accepts. */
  predicate CachedTruthy<D>(data: Cached<D>, truthy: D -> bool) {
    match data
    case Unset => false
    case ErrorMarker(_) => true
    case Payload(d) => truthy(d)
  }

  /** Both variables start out `null`. */
  function InitialSlot<D>(): (s: GtfsSlot<D>)
    ensures s.data.Unset? && s.lastUpdated.None?
  {
    GtfsSlot(Unset, None)
  }

  /** Whether a completion reaches the `lastUpdated = new Date()` line: the process exited
      and its standard output parsed. `parse` stands for `JSON.parse`, `None` for a throw. */
  predicate Succeeded<D>(c: Completion, parse: string -> Option<D>) {
    c.outcome.Exited? && parse(c.outcome.stdout).Some?
  }

  /** The `exec` callback of `fetchGTFSData`. An exec error stores the first marker and
      returns; otherwise standard error is only logged, and the parse either stores the
      document and the time, or stores the second marker. */
  function OnExecComplete<D>(slot: GtfsSlot<D>, c: Completion, parse: string -> Option<D>, markers: Markers)
    : (r: GtfsSlot<D>)
    ensures !r.data.Unset?
    ensures r.data.Payload? <==> Succeeded(c, parse)
    ensures Succeeded(c, parse) ==> r.data.doc == parse(c.outcome.stdout).value && r.lastUpdated == Some(c.now)
    ensures !Succeeded(c, parse) ==> r.lastUpdated == slot.lastUpdated
    ensures c.outcome.ExecError? ==> r.data == ErrorMarker(markers.execFailed)
    ensures c.outcome.Exited? && !Succeeded(c, parse) ==> r.data == ErrorMarker(markers.parseFailed)
  {
    match c.outcome
    case ExecError(_) =>
      slot.(data := ErrorMarker(markers.execFailed))
    case Exited(stdout, _) =>
      match parse(stdout)
      case Some(doc) => GtfsSlot(Payload(doc), Some(c.now))
      case None => slot.(data := ErrorMarker(markers.parseFailed))
  }

  /** Output on standard error never changes the outcome of a clean exit. */
  lemma StderrIgnored<D>(slot: GtfsSlot<D>, stdout: string, stderr: string, now: Instant,
                         parse: string -> Option<D>, markers: Markers)
    ensures OnExecComplete(slot, Completion(Exited(stdout, stderr), now), parse, markers)
         == OnExecComplete(slot, Completion(Exited(stdout, ""), now), parse, markers)
  {
  }

  /** The slot after the callbacks for `cs` have run one after another. */
  function Replay<D>(slot: GtfsSlot<D>, cs: seq<Completion>, parse: string -> Option<D>, markers: Markers)
    : GtfsSlot<D>
    decreases |cs|
  {
    if |cs| == 0 then slot
    else OnExecComplete(Replay(slot, cs[..|cs| - 1], parse, markers), cs[|cs| - 1], parse, markers)
  }

  /** Completion `i` is the last one in `cs` that succeeded. */
  ghost predicate LastSuccessAt<D>(cs: seq<Completion>, parse: string -> Option<D>, i: int) {
    && 0 <= i < |cs|
    && Succeeded(cs[i], parse)
    && forall j :: i < j < |cs| ==> !Succeeded(cs[j], parse)
  }

  /** Once one callback has run the slot is non-null, and its contents are decided by the
      latest callback alone: a failure overwrites an earlier good document. */
  lemma ReplayLatestDecides<D>(slot: GtfsSlot<D>, cs: seq<Completion>,
                               parse: string -> Option<D>, markers: Markers)
    requires |cs| > 0
    ensures !Replay(slot, cs, parse, markers).data.Unset?
    ensures Replay(slot, cs, parse, markers).data
            == OnExecComplete(slot, cs[|cs| - 1], parse, markers).data
  {
  }

  /** Over any run of callbacks, `lastUpdated` is the time of the latest successful parse,
      or its initial value when none succeeded. */
  lemma {:induction false} ReplayTimestamp<D>(slot: GtfsSlot<D>, cs: seq<Completion>,
                                              parse: string -> Option<D>, markers: Markers)
    ensures (forall j :: 0 <= j < |cs| ==> !Succeeded(cs[j], parse))
              ==> Replay(slot, cs, parse, markers).lastUpdated == slot.lastUpdated
    ensures forall i :: LastSuccessAt(cs, parse, i)
              ==> Replay(slot, cs, parse, markers).lastUpdated == Some(cs[i].now)
    decreases |cs|
  {
    if |cs| > 0 {
      var n := |cs| - 1;
      var init := cs[..n];
      ReplayTimestamp(slot, init, parse, markers);
      var before := Replay(slot, init, parse, markers);
      assert Replay(slot, cs, parse, markers) == OnExecComplete(before, cs[n], parse, markers);
      if forall j :: 0 <= j < |cs| ==> !Succeeded(cs[j], parse) {
        assert forall j :: 0 <= j < n ==> !Succeeded(init[j], parse) by {
          forall j | 0 <= j < n ensures !Succeeded(init[j], parse) {
            assert init[j] == cs[j];
          }
        }
      }
      forall i | LastSuccessAt(cs, parse, i)
        ensures Replay(slot, cs, parse, markers).lastUpdated == Some(cs[i].now)
      {
        if i < n {
          assert !Succeeded(cs[n], parse);
          assert init[i] == cs[i];
          forall j | i < j < n ensures !Succeeded(init[j], parse) {
            assert init[j] == cs[j];
          }
          assert LastSuccessAt(init, parse, i);
        }
      }
    }
  }

  // ---------------------------------------------------------------------------
  // File-backed slots
  // ---------------------------------------------------------------------------

  /** What reading and parsing one file produces: the read or the parse throws, or the
      parsed document. */
  datatype ReadOutcome<P> = ReadFailed | ParseFailed | Parsed(doc: P)

  /** `loadJSON`: the parsed document, or `null` when either step throws. */
  function LoadJson<P>(o: ReadOutcome<P>): (r: Option<P>)
    ensures r.Some? <==> o.Parsed?
    ensures o.Parsed? ==> r == Some(o.doc)
  {
    match o
    case Parsed(doc) => Some(doc)
    case _ => None
  }
}
