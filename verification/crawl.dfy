/** The resumable crawl (main.js, ProcessCSVFile, getDataForASingleBoat and
    getDataForBoatVendor): a fold over the input rows in order that threads
    the rows, the boat records, the list of dealer URLs already dispatched and
    the dealer records. The network is a pair of fetch oracles and the clock
    gives the timestamp taken for each row. */
module Crawl {
  import opened JsText
  import opened BoatExtract
  import opened VendorExtract

  /** A row's `timestamp`: absent, a cell of the input table, or set by the run. */
  datatype Stamp = NoStamp | CellStamp(text: string) | Millis(ms: int)

  /** One parsed input row. `done` is `undefined` when the table has no such
      column; `others` are the remaining columns, passed through. */
  datatype Row = Row(link: string, done: Val, timestamp: Stamp, others: map<string, string>)

  /** The outcome of an HTTP GET: no response (network error or a status the
      client rejects), or a status with the parsed page. */
  datatype Fetched<P> = NoResponse | Response(status: int, page: P)

  /** The world outside the program: the two fetches and `Date.now()` as read
      while handling row `i`. */
  datatype Web = Web(
    boatFetch: string -> Fetched<BoatPage>,
    vendorFetch: Val -> Fetched<VendorPage>,
    clock: nat -> int)

  /** How the dealer step decides that a URL is new: as the source does it
      (`find(...) == undefined`), or by plain membership. */
  datatype Lookup = SourceFind | Membership

  /** Everything the run accumulates. `boatFetches` and `vendorFetches` log
      the fetches issued, so that properties about them can be stated. */
  datatype State = State(
    rows: seq<Row>,
    boats: seq<Boat>,
    seen: seq<Val>,
    vendors: seq<Vendor>,
    globals: Globals,
    boatFetches: seq<nat>,
    vendorFetches: seq<Val>)

  /** The end-of-run check: nothing printed, "Numbers match" or "Numbers don't match". */
  datatype Verdict = Silent | NumbersMatch | NumbersMismatch

  datatype Report = Report(final: State, total: nat, alreadyDone: nat, verdict: Verdict)

  predicate IsOk<P>(f: Fetched<P>)
  {
    f.Response? && f.status == 200
  }

  predicate IsDone(r: Row)
  {
    r.done == Str("Y")
  }

  /** `seen.find((elem) => elem == t)`: the first element equal to `t`, or
      `undefined` when there is none. */
  function Find(seen: seq<Val>, t: Val): (r: Val)
    ensures t in seen ==> r == t
    ensures t !in seen ==> r == Undefined
  {
    if |seen| == 0 then Undefined
    else if seen[0] == t then seen[0]
    else Find(seen[1..], t)
  }

  /** Whether the dealer step treats `t` as not seen yet. As written, the
      found element is compared with `undefined`, so an `undefined` target is
      never recognised as seen. */
  predicate Absent(lookup: Lookup, seen: seq<Val>, t: Val)
    ensures Absent(lookup, seen, t) <==> t !in seen || (lookup == SourceFind && t == Undefined)
  {
    match lookup
    case SourceFind => Find(seen, t) == Undefined
    case Membership => t !in seen
  }

  /** The boat step for row `i`: on status 200, append the record, mark the
      row done with the record's timestamp and hand on the dealer URL;
      otherwise change nothing and hand on `undefined`. */
  function BoatStep(s: State, i: nat, web: Web): (r: (State, Val))
    requires i < |s.rows|
    ensures r.0.seen == s.seen && r.0.vendors == s.vendors && r.0.globals == s.globals
    ensures r.0.vendorFetches == s.vendorFetches && r.0.boatFetches == s.boatFetches + [i]
    ensures |r.0.rows| == |s.rows|
    ensures forall j :: 0 <= j < |s.rows| && j != i ==> r.0.rows[j] == s.rows[j]
    ensures !IsOk(web.boatFetch(s.rows[i].link)) ==>
              r.0.rows == s.rows && r.0.boats == s.boats && r.1 == Undefined
    ensures IsOk(web.boatFetch(s.rows[i].link)) ==>
              var b := BuildBoat(i, s.rows[i].link, web.boatFetch(s.rows[i].link).page, web.clock(i));
              && r.0.boats == s.boats + [b]
              && r.0.rows[i] == s.rows[i].(done := Str("Y"), timestamp := Millis(b.timestamp))
              && r.1 == Str(b.vendorUrl)
  {
    var s1 := s.(boatFetches := s.boatFetches + [i]);
    var row := s.rows[i];
    var f := web.boatFetch(row.link);
    if IsOk(f) then
      var b := BuildBoat(i, row.link, f.page, web.clock(i));
      var rows := s.rows[i := row.(done := Str("Y"), timestamp := Millis(b.timestamp))];
      (s1.(rows := rows, boats := s.boats + [b]), Str(b.vendorUrl))
    else
      (s1, Undefined)
  }

  /** The dealer step: a target not seen yet is recorded as seen before it is
      fetched; on status 200 the handler runs and its record, if any, is
      appended. */
  function VendorStep(s: State, t: Val, lookup: Lookup, web: Web): (r: State)
    ensures r.rows == s.rows && r.boats == s.boats && r.boatFetches == s.boatFetches
    ensures !Absent(lookup, s.seen, t) ==> r == s
    ensures Absent(lookup, s.seen, t) ==>
              r.seen == s.seen + [t] && r.vendorFetches == s.vendorFetches + [t]
    ensures |s.vendors| <= |r.vendors| <= |s.vendors| + 1 && r.vendors[..|s.vendors|] == s.vendors
    ensures |r.vendors| == |s.vendors| + 1 ==>
              Absent(lookup, s.seen, t) && IsOk(web.vendorFetch(t)) && r.vendors[|s.vendors|].url == t
    // a failed fetch leaves the globals and the dealer records alone
    ensures !IsOk(web.vendorFetch(t)) ==> r.globals == s.globals && r.vendors == s.vendors
    // a new target fetched with status 200 runs the handler, whose record is appended when built
    ensures Absent(lookup, s.seen, t) && IsOk(web.vendorFetch(t)) ==>
              var out := ScrapeVendor(s.globals, t, web.vendorFetch(t).page);
              && r.globals == out.globals
              && r.vendors == s.vendors + (if out.record.Some? then [out.record.value] else [])
  {
    if !Absent(lookup, s.seen, t) then s
    else
      var s1 := s.(seen := s.seen + [t], vendorFetches := s.vendorFetches + [t]);
      var f := web.vendorFetch(t);
      if IsOk(f) then
        var out := ScrapeVendor(s.globals, t, f.page);
        var added := if out.record.Some? then [out.record.value] else [];
        s1.(globals := out.globals, vendors := s.vendors + added)
      else
        s1
  }

  /** One iteration of the row loop: rows already done are skipped; any other
      row goes through the boat step, and the dealer step is dispatched
      whenever the value handed on is not the empty string. */
  function RowStep(s: State, i: nat, lookup: Lookup, web: Web): (r: State)
    requires i < |s.rows|
    ensures |r.rows| == |s.rows|
  {
    if IsDone(s.rows[i]) then s
    else
      var (s1, t) := BoatStep(s, i, web);
      if t != Str("") then VendorStep(s1, t, lookup, web) else s1
  }

  function Initial(rows: seq<Row>): State
  {
    State(rows, [], [], [], NoGlobals, [], [])
  }

  /** The state after the first `k` iterations of the row loop. */
  function RunUpTo(rows: seq<Row>, k: nat, lookup: Lookup, web: Web): (s: State)
    requires k <= |rows|
    ensures |s.rows| == |rows|
  {
    if k == 0 then Initial(rows)
    else RowStep(RunUpTo(rows, k - 1, lookup, web), k - 1, lookup, web)
  }

  /** Rows whose `done` is "Y", counted on a fresh parse of the input. */
  function CountDone(rows: seq<Row>): (n: nat)
    ensures n <= |rows|
  {
    if |rows| == 0 then 0
    else CountDone(rows[..|rows| - 1]) + (if IsDone(rows[|rows| - 1]) then 1 else 0)
  }

  /** The final check: silent when every row produced a boat, otherwise a
      match or a mismatch of total against boats plus rows already done. */
  function Reconcile(total: nat, processed: nat, alreadyDone: nat): Verdict
  {
    if processed != total then
      if total != processed + alreadyDone then NumbersMismatch else NumbersMatch
    else Silent
  }

  /** The whole run over the parsed input rows. */
  function ProcessCsvFile(rows: seq<Row>, lookup: Lookup, web: Web): (rep: Report)
    ensures rep.total == |rows| && |rep.final.rows| == |rows|
  {
    var s := RunUpTo(rows, |rows|, lookup, web);
    var alreadyDone := CountDone(rows);
    Report(s, |rows|, alreadyDone, Reconcile(|rows|, |s.boats|, alreadyDone))
  }
}
