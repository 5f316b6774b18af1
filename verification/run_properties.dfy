/** What a whole run of the crawl guarantees, stated on `ProcessCsvFile`
    against the input rows and the answers of the outside world. */
module RunProperties {
  import opened JsText
  import opened BoatExtract
  import opened VendorExtract
  import opened Crawl
  import opened CrawlProofs

  // ----- facts about the reference index lists -----

  /** The rows of a kind are listed exactly, in strictly increasing order. */
  lemma {:induction false} RowsWhereMembers(kind: Kind, rows: seq<Row>, web: Web, k: nat)
    requires k <= |rows|
    ensures forall j: nat :: j in RowsWhere(kind, rows, web, k) <==> j < k && IsKind(kind, rows, web, j)
    ensures forall a, b :: 0 <= a < b < |RowsWhere(kind, rows, web, k)| ==>
              RowsWhere(kind, rows, web, k)[a] < RowsWhere(kind, rows, web, k)[b]
  {
    if k > 0 {
      RowsWhereMembers(kind, rows, web, k - 1);
      var prev := RowsWhere(kind, rows, web, k - 1);
      var cur := RowsWhere(kind, rows, web, k);
      assert cur == prev + (if IsKind(kind, rows, web, k - 1) then [k - 1] else []);
      forall j: nat
        ensures j in cur <==> j < k && IsKind(kind, rows, web, j)
      {
        assert j in cur <==> j in prev || (j == k - 1 && IsKind(kind, rows, web, k - 1));
      }
      forall a, b | 0 <= a < b < |cur|
        ensures cur[a] < cur[b]
      {
        if b < |prev| {
          assert cur[a] == prev[a] && cur[b] == prev[b];
        } else {
          assert cur[a] == prev[a] && prev[a] in prev;
        }
      }
    }
  }

  /** Every row below `k` is of the kind exactly when all of them are listed. */
  lemma {:induction false} RowsWhereFull(kind: Kind, rows: seq<Row>, web: Web, k: nat)
    requires k <= |rows|
    ensures |RowsWhere(kind, rows, web, k)| <= k
    ensures |RowsWhere(kind, rows, web, k)| == k <==> forall j :: 0 <= j < k ==> IsKind(kind, rows, web, j)
  {
    if k > 0 {
      RowsWhereFull(kind, rows, web, k - 1);
    }
  }

  /** Each row is done on entry, fetched or failed; the pending rows are
      the fetched ones and the failed ones. */
  lemma {:induction false} CountRows(rows: seq<Row>, web: Web, k: nat)
    requires k <= |rows|
    ensures CountDone(rows[..k]) + |RowsWhere(Pending, rows, web, k)| == k
    ensures |RowsWhere(Pending, rows, web, k)| ==
              |RowsWhere(Fetched, rows, web, k)| + |RowsWhere(Failed, rows, web, k)|
  {
    if k > 0 {
      CountRows(rows, web, k - 1);
      assert rows[..k][..k - 1] == rows[..k - 1];
    }
  }

  /** A target was dispatched by some row below `k`. */
  lemma {:induction false} TargetsMembers(rows: seq<Row>, web: Web, k: nat)
    requires k <= |rows|
    ensures forall t :: t in Targets(rows, web, k) <==>
              exists j :: 0 <= j < k && t in Dispatched(rows, web, j)
  {
    if k > 0 {
      TargetsMembers(rows, web, k - 1);
      assert Targets(rows, web, k) == Targets(rows, web, k - 1) + Dispatched(rows, web, k - 1);
    }
  }

  lemma {:induction false} BoatIndicesAt(boats: seq<Boat>)
    ensures |BoatIndices(boats)| == |boats|
    ensures forall m :: 0 <= m < |boats| ==> BoatIndices(boats)[m] == boats[m].i
  {
    if |boats| > 0 {
      BoatIndicesAt(boats[..|boats| - 1]);
    }
  }

  /** The state a run ends in satisfies both loop invariants. */
  lemma FinalState(rows: seq<Row>, lookup: Lookup, web: Web)
    ensures var f := ProcessCsvFile(rows, lookup, web).final;
            f == RunUpTo(rows, |rows|, lookup, web)
            && RowsInv(rows, web, |rows|, f) && SeenInv(rows, web, lookup, |rows|, f)
  {
    RunInvariant(rows, lookup, web, |rows|);
  }

  // ----- the input rows -----

  /** Rows already done on entry are skipped: not fetched, left unchanged
      and without a boat record. */
  lemma DoneRowsSkipped(rows: seq<Row>, lookup: Lookup, web: Web, j: nat)
    requires j < |rows| && IsDone(rows[j])
    ensures var f := ProcessCsvFile(rows, lookup, web).final;
            && f.rows[j] == rows[j]
            && j !in f.boatFetches
            && forall m :: 0 <= m < |f.boats| ==> f.boats[m].i != j
  {
    FinalState(rows, lookup, web);
    var f := ProcessCsvFile(rows, lookup, web).final;
    assert f.rows[j] == Marked(rows, web, j);
    RowsWhereMembers(Pending, rows, web, |rows|);
    ExpectedBoatRows(rows, web, |rows|);
    forall m | 0 <= m < |f.boats|
      ensures f.boats[m].i != j
    {
      assert BoatOfRow(rows, web, f.boats[m], |rows|);
    }
  }

  /** A row ends up done exactly when it was done on entry or its page came
      back with status 200; the run changes only its `done` and `timestamp`
      cells, and a row it marks gets the clock reading taken for it. */
  lemma RowOutcome(rows: seq<Row>, lookup: Lookup, web: Web, j: nat)
    requires j < |rows|
    ensures var r := ProcessCsvFile(rows, lookup, web).final.rows[j];
            && (IsDone(r) <==> IsDone(rows[j]) || IsOk(web.boatFetch(rows[j].link)))
            && r == rows[j].(done := r.done, timestamp := r.timestamp)
            && (!IsDone(rows[j]) && IsOk(web.boatFetch(rows[j].link)) ==> r.timestamp == Millis(web.clock(j)))
            && (!IsOk(web.boatFetch(rows[j].link)) ==> r == rows[j])
  {
    FinalState(rows, lookup, web);
    assert ProcessCsvFile(rows, lookup, web).final.rows[j] == Marked(rows, web, j);
  }

  // ----- the boat records -----

  /** There is one boat record per row whose page came back with status 200,
      and the records are in row order. */
  lemma BoatsOnePerSuccess(rows: seq<Row>, lookup: Lookup, web: Web)
    ensures var boats := ProcessCsvFile(rows, lookup, web).final.boats;
            && (forall m, n :: 0 <= m < n < |boats| ==> boats[m].i < boats[n].i)
            && (forall j :: 0 <= j < |rows| ==>
                  (Succeeds(rows, web, j) <==> exists m :: 0 <= m < |boats| && boats[m].i == j))
  {
    FinalState(rows, lookup, web);
    var boats := ProcessCsvFile(rows, lookup, web).final.boats;
    ExpectedBoatIndices(rows, web, |rows|);
    RowsWhereMembers(Fetched, rows, web, |rows|);
    BoatIndicesAt(boats);
    forall j | 0 <= j < |rows| && Succeeds(rows, web, j)
      ensures exists m :: 0 <= m < |boats| && boats[m].i == j
    {
      assert IsKind(Fetched, rows, web, j);
      var m :| 0 <= m < |boats| && BoatIndices(boats)[m] == j;
      assert boats[m].i == j;
    }
    forall j, m | 0 <= j < |rows| && 0 <= m < |boats| && boats[m].i == j
      ensures Succeeds(rows, web, j)
    {
      assert BoatIndices(boats)[m] in RowsWhere(Fetched, rows, web, |rows|);
    }
  }

  /** Each boat record is built from its own row: its link, its page and the
      clock reading taken for it, and that row's `timestamp` cell holds the
      record's timestamp. */
  lemma BoatsBuiltFromRow(rows: seq<Row>, lookup: Lookup, web: Web)
    ensures var f := ProcessCsvFile(rows, lookup, web).final;
            forall m :: 0 <= m < |f.boats| ==>
              var j := f.boats[m].i;
              && j < |rows| && IsOk(web.boatFetch(rows[j].link))
              && f.boats[m] == BuildBoat(j, rows[j].link, web.boatFetch(rows[j].link).page, web.clock(j))
              && f.rows[j].timestamp == Millis(f.boats[m].timestamp)
  {
    FinalState(rows, lookup, web);
    var f := ProcessCsvFile(rows, lookup, web).final;
    ExpectedBoatRows(rows, web, |rows|);
    forall m | 0 <= m < |f.boats|
      ensures var j := f.boats[m].i;
              && j < |rows| && IsOk(web.boatFetch(rows[j].link))
              && f.boats[m] == BuildBoat(j, rows[j].link, web.boatFetch(rows[j].link).page, web.clock(j))
              && f.rows[j].timestamp == Millis(f.boats[m].timestamp)
    {
      assert BoatOfRow(rows, web, f.boats[m], |rows|);
      assert f.rows[f.boats[m].i] == Marked(rows, web, f.boats[m].i);
    }
  }

  // ----- the end-of-run check -----

  /** Some row of the kind exists exactly when the list of them is not empty. */
  lemma RowsWhereEmpty(kind: Kind, rows: seq<Row>, web: Web)
    ensures |RowsWhere(kind, rows, web, |rows|)| > 0 <==>
              exists j :: 0 <= j < |rows| && IsKind(kind, rows, web, j)
  {
    RowsWhereMembers(kind, rows, web, |rows|);
    var xs := RowsWhere(kind, rows, web, |rows|);
    if |xs| > 0 {
      assert xs[0] in xs;
    }
  }

  /** `alreadyDone` is the number of rows that were not pending on entry,
      and every row is done on entry, turned into a boat, or failed. */
  lemma Accounting(rows: seq<Row>, lookup: Lookup, web: Web)
    ensures var rep := ProcessCsvFile(rows, lookup, web);
            && rep.alreadyDone == |rows| - |RowsWhere(Pending, rows, web, |rows|)|
            && rep.alreadyDone + |rep.final.boats| + |RowsWhere(Failed, rows, web, |rows|)| == |rows|
  {
    FinalState(rows, lookup, web);
    var rep := ProcessCsvFile(rows, lookup, web);
    CountRows(rows, web, |rows|);
    assert rows[..|rows|] == rows;
    ExpectedBoatIndices(rows, web, |rows|);
    BoatIndicesAt(rep.final.boats);
  }

  /** The final check reports a mismatch exactly when some pending row
      failed, and stays silent exactly when every row was pending and its
      page came back with status 200. */
  lemma Verdicts(rows: seq<Row>, lookup: Lookup, web: Web)
    ensures var rep := ProcessCsvFile(rows, lookup, web);
            && (rep.verdict == NumbersMismatch <==> exists j :: 0 <= j < |rows| && Fails(rows, web, j))
            && (rep.verdict == Silent <==> forall j :: 0 <= j < |rows| ==> Succeeds(rows, web, j))
  {
    var rep := ProcessCsvFile(rows, lookup, web);
    Accounting(rows, lookup, web);
    assert rep.verdict == Reconcile(|rows|, |rep.final.boats|, rep.alreadyDone);
    RowsWhereEmpty(Failed, rows, web);
    if exists j :: 0 <= j < |rows| && Fails(rows, web, j) {
      var j :| 0 <= j < |rows| && Fails(rows, web, j);
      assert IsKind(Failed, rows, web, j);
    } else {
      forall j | 0 <= j < |rows|
        ensures !IsKind(Failed, rows, web, j)
      {
        assert !Fails(rows, web, j);
      }
    }
    CountRows(rows, web, |rows|);
    RowsWhereFull(Fetched, rows, web, |rows|);
    if forall j :: 0 <= j < |rows| ==> Succeeds(rows, web, j) {
      forall j | 0 <= j < |rows|
        ensures IsKind(Fetched, rows, web, j)
      {
        assert Succeeds(rows, web, j);
      }
    } else {
      var j :| 0 <= j < |rows| && !Succeeds(rows, web, j);
      assert !IsKind(Fetched, rows, web, j);
    }
  }

  // ----- the dealers -----

  /** The dealer fetches are exactly the seen list, in order; a dealer URL is
      fetched at most once, and so is every other target except `undefined`
      under the source's lookup. Under plain membership nothing repeats. */
  lemma DealersFetchedOnce(rows: seq<Row>, lookup: Lookup, web: Web)
    ensures var f := ProcessCsvFile(rows, lookup, web).final;
            && f.vendorFetches == f.seen
            && (forall a, b :: 0 <= a < b < |f.seen| && f.seen[a] == f.seen[b] ==>
                  lookup == SourceFind && f.seen[a] == Undefined)
  {
    FinalState(rows, lookup, web);
  }

  /** Plain membership: the seen list has no repeats at all. */
  lemma SeenDistinct(rows: seq<Row>, web: Web)
    ensures var f := ProcessCsvFile(rows, Membership, web).final;
            forall a, b :: 0 <= a < b < |f.seen| ==> f.seen[a] != f.seen[b]
  {
    DealersFetchedOnce(rows, Membership, web);
  }

  /** A dealer record exists only for a target in the seen list whose page
      came back with status 200, and there is at most one per target (but
      for `undefined` under the source's lookup). */
  lemma VendorRecords(rows: seq<Row>, lookup: Lookup, web: Web)
    ensures var f := ProcessCsvFile(rows, lookup, web).final;
            && (forall m :: 0 <= m < |f.vendors| ==>
                  f.vendors[m].url in f.seen && IsOk(web.vendorFetch(f.vendors[m].url)))
            && (forall a, b :: 0 <= a < b < |f.vendors| && f.vendors[a].url == f.vendors[b].url ==>
                  lookup == SourceFind && f.vendors[a].url == Undefined)
  {
    FinalState(rows, lookup, web);
    var f := ProcessCsvFile(rows, lookup, web).final;
    VendorUrlsLength(f.vendors);
    forall a, b | 0 <= a < b < |f.vendors| && f.vendors[a].url == f.vendors[b].url
      ensures lookup == SourceFind && f.vendors[a].url == Undefined
    {
      assert VendorUrls(f.vendors)[a] == VendorUrls(f.vendors)[b];
    }
  }

  /** A dealer URL that was looked up, whose full page came back with
      status 200, has exactly one dealer record. */
  lemma DealerRecorded(rows: seq<Row>, lookup: Lookup, web: Web, u: string)
    ensures var f := ProcessCsvFile(rows, lookup, web).final;
            var t := Str(u);
            t in f.seen && IsOk(web.vendorFetch(t)) && FullDealerPage(web.vendorFetch(t).page) ==>
              exists m :: 0 <= m < |f.vendors| && f.vendors[m].url == t
                && forall n :: 0 <= n < |f.vendors| && f.vendors[n].url == t ==> n == m
  {
    RecordsInvariant(rows, lookup, web, |rows|);
    VendorRecords(rows, lookup, web);
    var f := ProcessCsvFile(rows, lookup, web).final;
    if Str(u) in f.seen && IsOk(web.vendorFetch(Str(u))) && FullDealerPage(web.vendorFetch(Str(u)).page) {
      OneRecord(f, u, lookup, web);
    }
  }

  /** What row `j` dispatches, in terms of the boat record it produces. */
  lemma DispatchedByRow(rows: seq<Row>, web: Web, j: nat)
    requires j < |rows|
    ensures Succeeds(rows, web, j) ==>
              Dispatched(rows, web, j) ==
                (if ExpectedBoat(rows, web, j).vendorUrl == "" then [] else [Str(ExpectedBoat(rows, web, j).vendorUrl)])
    ensures Fails(rows, web, j) ==> Dispatched(rows, web, j) == [Undefined]
    ensures IsDone(rows[j]) ==> Dispatched(rows, web, j) == []
  {
  }

  /** The dealer URLs looked up are exactly the non-empty dealer URLs of the
      boat records. */
  lemma DealersDiscovered(rows: seq<Row>, lookup: Lookup, web: Web)
    ensures var f := ProcessCsvFile(rows, lookup, web).final;
            forall u :: Str(u) in f.seen <==>
              u != "" && exists m :: 0 <= m < |f.boats| && f.boats[m].vendorUrl == u
  {
    FinalState(rows, lookup, web);
    var f := ProcessCsvFile(rows, lookup, web).final;
    TargetsMembers(rows, web, |rows|);
    ExpectedBoatRows(rows, web, |rows|);
    BoatsOnePerSuccess(rows, lookup, web);
    forall u | Str(u) in f.seen
      ensures u != "" && exists m :: 0 <= m < |f.boats| && f.boats[m].vendorUrl == u
    {
      var j :| 0 <= j < |rows| && Str(u) in Dispatched(rows, web, j);
      DispatchedByRow(rows, web, j);
      assert Succeeds(rows, web, j);
      var m :| 0 <= m < |f.boats| && f.boats[m].i == j;
      assert BoatOfRow(rows, web, f.boats[m], |rows|);
    }
    forall u, m | 0 <= m < |f.boats| && f.boats[m].vendorUrl == u && u != ""
      ensures Str(u) in f.seen
    {
      var j := f.boats[m].i;
      assert BoatOfRow(rows, web, f.boats[m], |rows|);
      DispatchedByRow(rows, web, j);
      assert Str(u) in Dispatched(rows, web, j);
    }
  }

  /** `undefined` is looked up exactly when some pending row failed. */
  lemma UndefinedDispatched(rows: seq<Row>, lookup: Lookup, web: Web)
    ensures var f := ProcessCsvFile(rows, lookup, web).final;
            Undefined in f.seen <==> exists j :: 0 <= j < |rows| && Fails(rows, web, j)
  {
    FinalState(rows, lookup, web);
    var f := ProcessCsvFile(rows, lookup, web).final;
    TargetsMembers(rows, web, |rows|);
    if Undefined in f.seen {
      var j :| 0 <= j < |rows| && Undefined in Dispatched(rows, web, j);
      DispatchedByRow(rows, web, j);
      assert Fails(rows, web, j);
    }
    if exists j :: 0 <= j < |rows| && Fails(rows, web, j) {
      var j :| 0 <= j < |rows| && Fails(rows, web, j);
      DispatchedByRow(rows, web, j);
      assert Undefined in Dispatched(rows, web, j);
    }
  }

  // ----- the `undefined` dealer target -----

  /** Two pending rows whose pages cannot be fetched both dispatch
      `undefined`: the source's lookup never finds it in the seen list and
      fetches it twice, where plain membership fetches it once. */
  lemma UndefinedFetchedTwice()
    ensures var rows := [Row("a", Undefined, NoStamp, map[]), Row("b", Undefined, NoStamp, map[])];
            var web := Web(_ => NoResponse, _ => NoResponse, _ => 0);
            && ProcessCsvFile(rows, SourceFind, web).final.vendorFetches == [Undefined, Undefined]
            && ProcessCsvFile(rows, Membership, web).final.vendorFetches == [Undefined]
  {
    var rows := [Row("a", Undefined, NoStamp, map[]), Row("b", Undefined, NoStamp, map[])];
    var web := Web(_ => NoResponse, _ => NoResponse, _ => 0);
    var s1 := RunUpTo(rows, 1, SourceFind, web);
    assert s1.vendorFetches == [Undefined];
    var m1 := RunUpTo(rows, 1, Membership, web);
    assert m1.vendorFetches == [Undefined] && m1.seen == [Undefined];
  }
}
