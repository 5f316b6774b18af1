/** Properties of the whole run: resumability, which rows change and how,
    the order and content of the boat records, the end-of-run accounting and
    the dealer de-duplication. Each is stated against a reference description
    of the expected outcome computed row by row from the input alone. */
module CrawlProofs {
  import opened JsText
  import opened BoatExtract
  import opened VendorExtract
  import opened Crawl

  // ----- reference description of the outcome -----

  /** Row `j` is pending and its page comes back with status 200. */
  ghost predicate Succeeds(rows: seq<Row>, web: Web, j: nat)
    requires j < |rows|
  {
    !IsDone(rows[j]) && IsOk(web.boatFetch(rows[j].link))
  }

  /** Row `j` is pending and its fetch fails or answers another status. */
  ghost predicate Fails(rows: seq<Row>, web: Web, j: nat)
    requires j < |rows|
  {
    !IsDone(rows[j]) && !IsOk(web.boatFetch(rows[j].link))
  }

  /** What row `j` should look like after the run. */
  ghost function Marked(rows: seq<Row>, web: Web, j: nat): Row
    requires j < |rows|
  {
    if Succeeds(rows, web, j) then rows[j].(done := Str("Y"), timestamp := Millis(web.clock(j)))
    else rows[j]
  }

  /** The boat record row `j` should produce. */
  ghost function ExpectedBoat(rows: seq<Row>, web: Web, j: nat): Boat
    requires j < |rows| && IsOk(web.boatFetch(rows[j].link))
  {
    BuildBoat(j, rows[j].link, web.boatFetch(rows[j].link).page, web.clock(j))
  }

  /** The three ways a row can be classified by the run. */
  datatype Kind = Pending | Fetched | Failed

  /** Row `j` is of the given kind: pending on entry, pending and fetched
      with status 200, or pending and not fetched with status 200. */
  ghost predicate IsKind(kind: Kind, rows: seq<Row>, web: Web, j: nat)
    requires j < |rows|
  {
    match kind
    case Pending => !IsDone(rows[j])
    case Fetched => Succeeds(rows, web, j)
    case Failed => Fails(rows, web, j)
  }

  /** Indices below `k` of the rows of the given kind, in order. */
  ghost function RowsWhere(kind: Kind, rows: seq<Row>, web: Web, k: nat): seq<nat>
    requires k <= |rows|
  {
    if k == 0 then []
    else RowsWhere(kind, rows, web, k - 1) + (if IsKind(kind, rows, web, k - 1) then [k - 1] else [])
  }

  /** The dealer target row `j` dispatches, if any: the dealer URL of a
      successful page unless empty, `undefined` for a failed row. */
  ghost function Dispatched(rows: seq<Row>, web: Web, j: nat): seq<Val>
    requires j < |rows|
  {
    if IsDone(rows[j]) then []
    else
      var f := web.boatFetch(rows[j].link);
      var t := if IsOk(f) then Str(VendorUrl(f.page.dealerAnchors)) else Undefined;
      if t == Str("") then [] else [t]
  }

  /** All targets dispatched by the rows below `k`, in order, repeats kept. */
  ghost function Targets(rows: seq<Row>, web: Web, k: nat): seq<Val>
    requires k <= |rows|
  {
    if k == 0 then [] else Targets(rows, web, k - 1) + Dispatched(rows, web, k - 1)
  }

  /** The boat records the rows below `k` should produce, in row order. */
  ghost function ExpectedBoats(rows: seq<Row>, web: Web, k: nat): seq<Boat>
    requires k <= |rows|
  {
    if k == 0 then []
    else ExpectedBoats(rows, web, k - 1) + (if Succeeds(rows, web, k - 1) then [ExpectedBoat(rows, web, k - 1)] else [])
  }

  ghost function BoatIndices(boats: seq<Boat>): seq<nat>
  {
    if |boats| == 0 then [] else BoatIndices(boats[..|boats| - 1]) + [boats[|boats| - 1].i]
  }

  ghost function VendorUrls(vendors: seq<Vendor>): seq<Val>
  {
    if |vendors| == 0 then [] else VendorUrls(vendors[..|vendors| - 1]) + [vendors[|vendors| - 1].url]
  }

  /** No value occurs twice, except `undefined` under the source's lookup. */
  ghost predicate DistinctBut(xs: seq<Val>, lookup: Lookup)
  {
    forall a, b :: 0 <= a < b < |xs| && xs[a] == xs[b] ==> lookup == SourceFind && xs[a] == Undefined
  }

  // ----- loop invariants -----

  /** After `k` iterations: rows, boat records and boat fetches. */
  ghost predicate RowsInv(rows: seq<Row>, web: Web, k: nat, s: State)
    requires k <= |rows|
  {
    && |s.rows| == |rows|
    && (forall j :: k <= j < |rows| ==> s.rows[j] == rows[j])
    && (forall j :: 0 <= j < k ==> s.rows[j] == Marked(rows, web, j))
    && s.boatFetches == RowsWhere(Pending, rows, web, k)
    && s.boats == ExpectedBoats(rows, web, k)
  }

  /** The seen list, dealer fetches and dealer records agree with a list of
      dispatched targets. */
  ghost predicate SeenOk(targets: seq<Val>, lookup: Lookup, web: Web, s: State)
  {
    && s.vendorFetches == s.seen
    && (forall t :: t in s.seen ==> t in targets)
    && (forall t :: t in targets ==> t in s.seen)
    && DistinctBut(s.seen, lookup)
    && (forall m :: 0 <= m < |s.vendors| ==>
          s.vendors[m].url in s.seen && IsOk(web.vendorFetch(s.vendors[m].url)))
    && DistinctBut(VendorUrls(s.vendors), lookup)
  }

  /** Every seen target whose full dealer page came back with status 200
      has a dealer record. */
  ghost predicate RecordsOk(web: Web, s: State)
  {
    forall t :: t in s.seen && IsOk(web.vendorFetch(t)) && FullDealerPage(web.vendorFetch(t).page) ==>
      exists m :: 0 <= m < |s.vendors| && s.vendors[m].url == t
  }

  /** After `k` iterations: seen list, dealer fetches and dealer records. */
  ghost predicate SeenInv(rows: seq<Row>, web: Web, lookup: Lookup, k: nat, s: State)
    requires k <= |rows|
  {
    SeenOk(Targets(rows, web, k), lookup, web, s)
  }

  lemma BoatIndicesSnoc(boats: seq<Boat>, b: Boat)
    ensures BoatIndices(boats + [b]) == BoatIndices(boats) + [b.i]
  {
    assert (boats + [b])[..|boats|] == boats;
  }

  /** `b` is the record of a successful row below `k`, built from that row. */
  ghost predicate BoatOfRow(rows: seq<Row>, web: Web, b: Boat, k: nat)
    requires k <= |rows|
  {
    b.i < k && Succeeds(rows, web, b.i) && b == ExpectedBoat(rows, web, b.i)
  }

  /** The expected boats carry the indices of the successful rows, in order. */
  lemma {:induction false} ExpectedBoatIndices(rows: seq<Row>, web: Web, k: nat)
    requires k <= |rows|
    ensures BoatIndices(ExpectedBoats(rows, web, k)) == RowsWhere(Fetched, rows, web, k)
  {
    if k > 0 {
      ExpectedBoatIndices(rows, web, k - 1);
      var prev := ExpectedBoats(rows, web, k - 1);
      if Succeeds(rows, web, k - 1) {
        var b := ExpectedBoat(rows, web, k - 1);
        assert b.i == k - 1;
        assert ExpectedBoats(rows, web, k) == prev + [b];
        BoatIndicesSnoc(prev, b);
        assert RowsWhere(Fetched, rows, web, k) == RowsWhere(Fetched, rows, web, k - 1) + [k - 1];
      } else {
        assert ExpectedBoats(rows, web, k) == prev;
        assert RowsWhere(Fetched, rows, web, k) == RowsWhere(Fetched, rows, web, k - 1);
      }
    }
  }

  /** Each expected boat is built from its own successful row's page and
      clock reading. */
  lemma {:induction false} ExpectedBoatRows(rows: seq<Row>, web: Web, k: nat)
    requires k <= |rows|
    ensures forall m :: 0 <= m < |ExpectedBoats(rows, web, k)| ==>
              BoatOfRow(rows, web, ExpectedBoats(rows, web, k)[m], k)
  {
    if k > 0 {
      ExpectedBoatRows(rows, web, k - 1);
      var prev := ExpectedBoats(rows, web, k - 1);
      var cur := ExpectedBoats(rows, web, k);
      forall m | 0 <= m < |cur|
        ensures BoatOfRow(rows, web, cur[m], k)
      {
        if m < |prev| {
          assert cur[m] == prev[m];
          assert BoatOfRow(rows, web, prev[m], k - 1);
        } else {
          assert cur[m] == ExpectedBoat(rows, web, k - 1);
        }
      }
    }
  }

  lemma {:induction false} VendorUrlsSnoc(vendors: seq<Vendor>, extra: seq<Vendor>)
    requires |extra| <= 1
    ensures |VendorUrls(vendors + extra)| == |vendors + extra|
    ensures VendorUrls(vendors + extra) == VendorUrls(vendors) + (if |extra| == 1 then [extra[0].url] else [])
  {
    VendorUrlsLength(vendors);
    if |extra| == 1 {
      assert (vendors + extra)[..|vendors|] == vendors;
    } else {
      assert vendors + extra == vendors;
    }
  }

  lemma {:induction false} VendorUrlsLength(vendors: seq<Vendor>)
    ensures |VendorUrls(vendors)| == |vendors|
    ensures forall m :: 0 <= m < |vendors| ==> VendorUrls(vendors)[m] == vendors[m].url
  {
    if |vendors| > 0 {
      VendorUrlsLength(vendors[..|vendors| - 1]);
    }
  }

  /** What one loop iteration does to the rows, boats and boat fetches. */
  lemma RowStepEffect(s: State, k: nat, lookup: Lookup, web: Web)
    requires k < |s.rows|
    ensures var r := RowStep(s, k, lookup, web);
            var row := s.rows[k];
            var f := web.boatFetch(row.link);
            && r.boatFetches == s.boatFetches + (if IsDone(row) then [] else [k])
            && (!IsDone(row) && IsOk(f) ==>
                  && r.rows == s.rows[k := row.(done := Str("Y"), timestamp := Millis(web.clock(k)))]
                  && r.boats == s.boats + [BuildBoat(k, row.link, f.page, web.clock(k))])
            && (IsDone(row) || !IsOk(f) ==> r.rows == s.rows && r.boats == s.boats)
  {
    var r := RowStep(s, k, lookup, web);
    if !IsDone(s.rows[k]) {
      var (s1, t) := BoatStep(s, k, web);
      assert r.rows == s1.rows && r.boats == s1.boats && r.boatFetches == s1.boatFetches;
      if IsOk(web.boatFetch(s.rows[k].link)) {
        assert s1.rows == s.rows[k := s.rows[k].(done := Str("Y"), timestamp := Millis(web.clock(k)))];
      }
    }
  }

  /** Which dealer target one loop iteration looks up: none for a row done
      on entry, `undefined` after a failed boat fetch, and the boat record's
      dealer URL when it is not empty; the target is appended to the seen
      list and fetched only when the lookup treats it as not seen yet, and
      the dealer handler then runs on the globals left by earlier rows. */
  lemma RowDispatch(s: State, k: nat, lookup: Lookup, web: Web)
    requires k < |s.rows|
    ensures var r := RowStep(s, k, lookup, web);
            var row := s.rows[k];
            var f := web.boatFetch(row.link);
            && (IsDone(row) ==> r == s)
            && (!IsDone(row) && !IsOk(f) ==>
                  var d := if Absent(lookup, s.seen, Undefined) then [Undefined] else [];
                  r.seen == s.seen + d && r.vendorFetches == s.vendorFetches + d)
            && (!IsDone(row) && IsOk(f) ==>
                  var u := BuildBoat(k, row.link, f.page, web.clock(k)).vendorUrl;
                  var d := if u != "" && Absent(lookup, s.seen, Str(u)) then [Str(u)] else [];
                  r.seen == s.seen + d && r.vendorFetches == s.vendorFetches + d)
    // the dealer handler starts from the globals the earlier rows left; a row
    // that runs no handler leaves the globals and the dealer records alone
    ensures var r := RowStep(s, k, lookup, web);
            var row := s.rows[k];
            var f := web.boatFetch(row.link);
            var t := if IsOk(f) then Str(BuildBoat(k, row.link, f.page, web.clock(k)).vendorUrl) else Undefined;
            if !IsDone(row) && t != Str("") && Absent(lookup, s.seen, t) && IsOk(web.vendorFetch(t)) then
              var out := ScrapeVendor(s.globals, t, web.vendorFetch(t).page);
              && r.globals == out.globals
              && r.vendors == s.vendors + (if out.record.Some? then [out.record.value] else [])
            else
              r.globals == s.globals && r.vendors == s.vendors
  {
    if !IsDone(s.rows[k]) {
      var (s1, t) := BoatStep(s, k, web);
      if t != Str("") {
        assert RowStep(s, k, lookup, web) == VendorStep(s1, t, lookup, web);
      }
    }
  }

  lemma RowsStep(rows: seq<Row>, web: Web, lookup: Lookup, k: nat, s: State, r: State)
    requires k < |rows| && RowsInv(rows, web, k, s) && r == RowStep(s, k, lookup, web)
    ensures RowsInv(rows, web, k + 1, r)
  {
    assert s.rows[k] == rows[k];
    RowStepEffect(s, k, lookup, web);
    if Succeeds(rows, web, k) {
      RowsStepSucceeds(rows, web, k, s, r);
    } else {
      RowsStepUnchanged(rows, web, k, s, r);
    }
  }

  lemma RowsStepSucceeds(rows: seq<Row>, web: Web, k: nat, s: State, r: State)
    requires k < |rows| && RowsInv(rows, web, k, s) && Succeeds(rows, web, k)
    requires r.boatFetches == s.boatFetches + [k]
    requires r.rows == s.rows[k := rows[k].(done := Str("Y"), timestamp := Millis(web.clock(k)))]
    requires r.boats == s.boats + [ExpectedBoat(rows, web, k)]
    ensures RowsInv(rows, web, k + 1, r)
  {
    assert RowsWhere(Pending, rows, web, k + 1) == RowsWhere(Pending, rows, web, k) + [k];
    assert ExpectedBoats(rows, web, k + 1) == ExpectedBoats(rows, web, k) + [ExpectedBoat(rows, web, k)];
    forall j | 0 <= j < k + 1
      ensures r.rows[j] == Marked(rows, web, j)
    {
      if j < k {
        assert r.rows[j] == s.rows[j];
      }
    }
  }

  lemma RowsStepUnchanged(rows: seq<Row>, web: Web, k: nat, s: State, r: State)
    requires k < |rows| && RowsInv(rows, web, k, s) && !Succeeds(rows, web, k)
    requires r.boatFetches == s.boatFetches + (if IsDone(rows[k]) then [] else [k])
    requires r.rows == s.rows && r.boats == s.boats
    ensures RowsInv(rows, web, k + 1, r)
  {
    assert RowsWhere(Pending, rows, web, k + 1) == RowsWhere(Pending, rows, web, k) + (if !IsDone(rows[k]) then [k] else []);
    assert ExpectedBoats(rows, web, k + 1) == ExpectedBoats(rows, web, k);
    assert Marked(rows, web, k) == rows[k];
  }

  /** What one loop iteration does to the seen list, dealer fetches and
      dealer records, given the targets the row dispatches. */
  lemma SeenStepEffect(rows: seq<Row>, s: State, k: nat, lookup: Lookup, web: Web)
    requires k < |rows| && k < |s.rows| && s.rows[k] == rows[k]
    ensures var r := RowStep(s, k, lookup, web);
            var d := Dispatched(rows, web, k);
            && |d| <= 1
            && (d == [] || !Absent(lookup, s.seen, d[0]) ==>
                  r.seen == s.seen && r.vendorFetches == s.vendorFetches && r.vendors == s.vendors)
            && (d != [] && Absent(lookup, s.seen, d[0]) ==>
                  && r.seen == s.seen + d && r.vendorFetches == s.vendorFetches + d
                  && |s.vendors| <= |r.vendors| <= |s.vendors| + 1
                  && r.vendors[..|s.vendors|] == s.vendors
                  && (|r.vendors| == |s.vendors| + 1 ==>
                        r.vendors[|s.vendors|].url == d[0] && IsOk(web.vendorFetch(d[0])))
                  && (IsOk(web.vendorFetch(d[0])) && FullDealerPage(web.vendorFetch(d[0]).page) ==>
                        |r.vendors| == |s.vendors| + 1))
  {
    var r := RowStep(s, k, lookup, web);
    if !IsDone(rows[k]) {
      var (s1, t) := BoatStep(s, k, web);
      assert Dispatched(rows, web, k) == (if t == Str("") then [] else [t]);
      if t != Str("") {
        assert r == VendorStep(s1, t, lookup, web);
        if Absent(lookup, s1.seen, t) && IsOk(web.vendorFetch(t)) && FullDealerPage(web.vendorFetch(t).page) {
          FullPageRecorded(s1.globals, t, web.vendorFetch(t).page);
        }
      }
    }
  }

  /** A record for every full dealer page and at most one per dealer URL
      leave exactly one record for a dealer URL with a full page. */
  lemma OneRecord(s: State, u: string, lookup: Lookup, web: Web)
    requires RecordsOk(web, s)
    requires forall a, b :: 0 <= a < b < |s.vendors| && s.vendors[a].url == s.vendors[b].url ==>
               lookup == SourceFind && s.vendors[a].url == Undefined
    requires Str(u) in s.seen && IsOk(web.vendorFetch(Str(u))) && FullDealerPage(web.vendorFetch(Str(u)).page)
    ensures exists m :: 0 <= m < |s.vendors| && s.vendors[m].url == Str(u)
              && forall n :: 0 <= n < |s.vendors| && s.vendors[n].url == Str(u) ==> n == m
  {
    var m :| 0 <= m < |s.vendors| && s.vendors[m].url == Str(u);
    forall n | 0 <= n < |s.vendors| && s.vendors[n].url == Str(u)
      ensures n == m
    {
      assert s.vendors[n].url == s.vendors[m].url;
    }
  }

  lemma RecordsStep(rows: seq<Row>, web: Web, lookup: Lookup, k: nat, s: State, r: State)
    requires k < |rows| && k < |s.rows| && s.rows[k] == rows[k] && RecordsOk(web, s)
    requires r == RowStep(s, k, lookup, web)
    ensures RecordsOk(web, r)
  {
    SeenStepEffect(rows, s, k, lookup, web);
    var d := Dispatched(rows, web, k);
    if d != [] && Absent(lookup, s.seen, d[0]) {
      RecordsStepAdds(d[0], web, s, r);
    }
  }

  /** Appending a target keeps every earlier record and adds one for the
      target when its full page came back with status 200. */
  lemma RecordsStepAdds(t: Val, web: Web, s: State, r: State)
    requires RecordsOk(web, s) && r.seen == s.seen + [t]
    requires |s.vendors| <= |r.vendors| && r.vendors[..|s.vendors|] == s.vendors
    requires IsOk(web.vendorFetch(t)) && FullDealerPage(web.vendorFetch(t).page) ==>
               |r.vendors| == |s.vendors| + 1 && r.vendors[|s.vendors|].url == t
    ensures RecordsOk(web, r)
  {
    forall x | x in r.seen && IsOk(web.vendorFetch(x)) && FullDealerPage(web.vendorFetch(x).page)
      ensures exists m :: 0 <= m < |r.vendors| && r.vendors[m].url == x
    {
      if x == t {
        assert r.vendors[|s.vendors|].url == x;
      } else {
        assert x in s.seen;
        var m :| 0 <= m < |s.vendors| && s.vendors[m].url == x;
        assert r.vendors[m] == s.vendors[m];
      }
    }
  }

  lemma SeenStep(rows: seq<Row>, web: Web, lookup: Lookup, k: nat, s: State, r: State)
    requires k < |rows| && RowsInv(rows, web, k, s) && SeenInv(rows, web, lookup, k, s)
    requires r == RowStep(s, k, lookup, web)
    ensures SeenInv(rows, web, lookup, k + 1, r)
  {
    assert s.rows[k] == rows[k];
    SeenStepEffect(rows, s, k, lookup, web);
    var d := Dispatched(rows, web, k);
    assert Targets(rows, web, k + 1) == Targets(rows, web, k) + d;
    if d != [] && Absent(lookup, s.seen, d[0]) {
      SeenStepAdds(Targets(rows, web, k), d[0], lookup, web, s, r);
      assert Targets(rows, web, k) + [d[0]] == Targets(rows, web, k + 1);
    } else {
      SeenStepKeeps(Targets(rows, web, k), d, lookup, web, s, r);
    }
  }

  /** Appending a value that is new, or `undefined` under the source's
      lookup, keeps a list distinct in the sense of `DistinctBut`. */
  lemma DistinctSnoc(xs: seq<Val>, t: Val, lookup: Lookup)
    requires DistinctBut(xs, lookup)
    requires t !in xs || (lookup == SourceFind && t == Undefined)
    ensures DistinctBut(xs + [t], lookup)
  {
    var ys := xs + [t];
    forall a, b | 0 <= a < b < |ys| && ys[a] == ys[b]
      ensures lookup == SourceFind && ys[a] == Undefined
    {
      if b < |xs| {
        assert ys[a] == xs[a] && ys[b] == xs[b];
      } else {
        assert ys[a] == xs[a] && xs[a] in xs;
      }
    }
  }

  /** A target not seen yet is appended to the seen list and may get one
      dealer record. */
  lemma SeenStepAdds(targets: seq<Val>, t: Val, lookup: Lookup, web: Web, s: State, r: State)
    requires SeenOk(targets, lookup, web, s) && Absent(lookup, s.seen, t)
    requires r.seen == s.seen + [t] && r.vendorFetches == s.vendorFetches + [t]
    requires |s.vendors| <= |r.vendors| <= |s.vendors| + 1 && r.vendors[..|s.vendors|] == s.vendors
    requires |r.vendors| == |s.vendors| + 1 ==> r.vendors[|s.vendors|].url == t && IsOk(web.vendorFetch(t))
    ensures SeenOk(targets + [t], lookup, web, r)
  {
    DistinctSnoc(s.seen, t, lookup);
    VendorsStepAdds(t, lookup, web, s, r);
  }

  /** The dealer-record half of `SeenStepAdds`. */
  lemma VendorsStepAdds(t: Val, lookup: Lookup, web: Web, s: State, r: State)
    requires Absent(lookup, s.seen, t) && r.seen == s.seen + [t]
    requires forall m :: 0 <= m < |s.vendors| ==>
               s.vendors[m].url in s.seen && IsOk(web.vendorFetch(s.vendors[m].url))
    requires DistinctBut(VendorUrls(s.vendors), lookup)
    requires |s.vendors| <= |r.vendors| <= |s.vendors| + 1 && r.vendors[..|s.vendors|] == s.vendors
    requires |r.vendors| == |s.vendors| + 1 ==> r.vendors[|s.vendors|].url == t && IsOk(web.vendorFetch(t))
    ensures forall m :: 0 <= m < |r.vendors| ==>
              r.vendors[m].url in r.seen && IsOk(web.vendorFetch(r.vendors[m].url))
    ensures DistinctBut(VendorUrls(r.vendors), lookup)
  {
    forall m | 0 <= m < |r.vendors|
      ensures r.vendors[m].url in r.seen && IsOk(web.vendorFetch(r.vendors[m].url))
    {
      if m < |s.vendors| {
        assert r.vendors[m] == s.vendors[m];
      }
    }
    var extra := r.vendors[|s.vendors|..];
    assert r.vendors == s.vendors + extra;
    VendorUrlsSnoc(s.vendors, extra);
    if |extra| == 1 {
      VendorUrlsLength(s.vendors);
      assert t !in VendorUrls(s.vendors) || (lookup == SourceFind && t == Undefined) by {
        if t in VendorUrls(s.vendors) {
          var m :| 0 <= m < |s.vendors| && VendorUrls(s.vendors)[m] == t;
          assert s.vendors[m].url in s.seen;
        }
      }
      DistinctSnoc(VendorUrls(s.vendors), t, lookup);
    } else {
      assert VendorUrls(r.vendors) == VendorUrls(s.vendors);
    }
  }

  /** No target, or one already seen, leaves the seen list, the dealer
      fetches and the dealer records alone. */
  lemma SeenStepKeeps(targets: seq<Val>, d: seq<Val>, lookup: Lookup, web: Web, s: State, r: State)
    requires SeenOk(targets, lookup, web, s) && |d| <= 1
    requires d == [] || !Absent(lookup, s.seen, d[0])
    requires r.seen == s.seen && r.vendorFetches == s.vendorFetches && r.vendors == s.vendors
    ensures SeenOk(targets + d, lookup, web, r)
  {
    if d != [] {
      assert d[0] in s.seen;
    }
  }

  /** Both invariants hold after every number of iterations. */
  lemma RunInvariant(rows: seq<Row>, lookup: Lookup, web: Web, k: nat)
    requires k <= |rows|
    ensures RowsInv(rows, web, k, RunUpTo(rows, k, lookup, web))
    ensures SeenInv(rows, web, lookup, k, RunUpTo(rows, k, lookup, web))
  {
    RowsInvariant(rows, lookup, web, k);
    SeenInvariant(rows, lookup, web, k);
  }

  lemma {:induction false} RowsInvariant(rows: seq<Row>, lookup: Lookup, web: Web, k: nat)
    requires k <= |rows|
    ensures RowsInv(rows, web, k, RunUpTo(rows, k, lookup, web))
  {
    if k > 0 {
      RowsInvariant(rows, lookup, web, k - 1);
      RowsStep(rows, web, lookup, k - 1, RunUpTo(rows, k - 1, lookup, web), RunUpTo(rows, k, lookup, web));
    }
  }

  lemma {:induction false} SeenInvariant(rows: seq<Row>, lookup: Lookup, web: Web, k: nat)
    requires k <= |rows|
    ensures SeenInv(rows, web, lookup, k, RunUpTo(rows, k, lookup, web))
  {
    if k > 0 {
      SeenInvariant(rows, lookup, web, k - 1);
      SeenStepAt(rows, lookup, web, k);
    }
  }

  /** One iteration of the fold keeps `SeenInv`. */
  lemma SeenStepAt(rows: seq<Row>, lookup: Lookup, web: Web, k: nat)
    requires 0 < k <= |rows| && SeenInv(rows, web, lookup, k - 1, RunUpTo(rows, k - 1, lookup, web))
    ensures SeenInv(rows, web, lookup, k, RunUpTo(rows, k, lookup, web))
  {
    RowsInvariant(rows, lookup, web, k - 1);
    SeenStep(rows, web, lookup, k - 1, RunUpTo(rows, k - 1, lookup, web), RunUpTo(rows, k, lookup, web));
  }

  /** Every seen target whose full dealer page came back with status 200 has
      a record, after every number of iterations. */
  lemma {:induction false} RecordsInvariant(rows: seq<Row>, lookup: Lookup, web: Web, k: nat)
    requires k <= |rows|
    ensures RecordsOk(web, RunUpTo(rows, k, lookup, web))
  {
    if k > 0 {
      RecordsInvariant(rows, lookup, web, k - 1);
      RecordsStepAt(rows, lookup, web, k);
    }
  }

  /** One iteration of the fold keeps `RecordsOk`. */
  lemma RecordsStepAt(rows: seq<Row>, lookup: Lookup, web: Web, k: nat)
    requires 0 < k <= |rows| && RecordsOk(web, RunUpTo(rows, k - 1, lookup, web))
    ensures RecordsOk(web, RunUpTo(rows, k, lookup, web))
  {
    RowsInvariant(rows, lookup, web, k - 1);
    var s := RunUpTo(rows, k - 1, lookup, web);
    RecordsStep(rows, web, lookup, k - 1, s, RunUpTo(rows, k, lookup, web));
  }
}
