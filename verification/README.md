# Boat-listing crawler: a Dafny model of its resumable crawl

The crawler reads a table of boat-listing links. Each row has a `link`, an
optional `done` flag and an optional `timestamp`. For every row not already
marked done it:

- fetches the listing page and reads a boat record off it;
- marks the row done and stamps it with the time;
- looks up the dealer of the boat, once per dealer URL, and reads a dealer
  record off the dealer's page.

At the end it compares the number of boat records with the number of rows
and the number of rows that were done on entry.

This project models that core in `main.js`, as listed below.

- `ProcessCSVFile`: the loop over the rows and the end-of-run check.
- `getDataForASingleBoat`: the boat step, including the rule that
  normalises detail keys and the rule that builds the dealer URL.
- `getDataForBoatVendor`: the dealer step. It covers:
  - the seen-list de-duplication;
  - the coordinates split;
  - the rule that derives the city;
  - the implicit global variables the handler writes.

The network and the HTML engine are inputs of the model:

- `Crawl.Web` holds two fetch oracles, one for listing pages and one for
  dealer pages. It also holds the clock reading `Date.now()` taken for each
  row.
- A fetched page is given by what its selectors return (`BoatExtract.BoatPage`,
  `VendorExtract.VendorPage`).

JavaScript details are modelled explicitly:

- `undefined` is `JsText.Val.Undefined`.
- `String.prototype.trim` removes the ECMAScript white-space and
  line-terminator characters.
- `replace` with a string pattern replaces only the first occurrence.
- `+` turns `undefined` into the text `"undefined"`.

The run is a left fold (`Crawl.RunUpTo`) of `Crawl.RowStep` over the rows.
The fold threads the rows, the boat records, the seen list, the dealer
records and the dealer handler's global variables. It also logs the fetches
it issues, so that properties about those fetches can be stated.

The properties of a whole run are proved against a reference description
computed row by row from the input alone (`CrawlProofs`). That description
gives, for each row, what it should look like after the run and which boat
record it should produce. It also gives the ordered lists of the rows that
are pending, fetched and failed, and the list of dealer targets dispatched.
Two loop invariants connect the fold to that description
(`CrawlProofs.RunInvariant`). A third one, proved by its own induction
(`CrawlProofs.RecordsInvariant`), says which dealers must have a record.
Most theorems in `RunProperties` are stated on `Crawl.ProcessCsvFile`
against that description. A few do not mention the run and serve the
others. `RowsWhereMembers`, `RowsWhereFull`, `RowsWhereEmpty`,
`TargetsMembers`, `BoatIndicesAt` and `DispatchedByRow` are about the
description alone. `CountRows` relates it to `Crawl.CountDone`.

The dealer step has two variants, selected by `Crawl.Lookup`:

- `SourceFind` decides "not seen yet" as the code does:
  `find(elem => elem == url) == undefined`.
- `Membership` decides it by plain membership.

Every theorem about real dealer URLs holds for both variants (see Findings).

Three behaviours of the code are modelled as written:

- **Waiting between rows.** The code waits between rows only after a
  pending row (main.js:78-81). It does not wait after a skipped row. Timing
  is not modelled either way.
- **When the final check stays silent.** The final check says nothing when
  the number of boat records equals the number of rows (main.js:57). Only
  otherwise does it compare the total with the records plus the rows already
  done (main.js:58). `Crawl.Reconcile` has both levels.
- **Dispatching `undefined`.** A row whose page cannot be fetched, or whose
  status is not 200, hands `undefined` to the dealer step. The dealer step
  is dispatched whenever the value is not `""` (main.js:177-179), so that
  row dispatches `undefined`. The model does the same.

## Model

| member | source | states |
|---|---|---|
| JsText.Trim | main.js:103-104 | the trimmed text has no white space at either end and is no longer than the input |
| JsText.TrimIsMiddle | main.js:103-104 | the trimmed text is a contiguous middle of the input, with only white space before and after it |
| JsText.TrimPadded | main.js:204-209 | trimming a text with no white space at its ends, padded on both sides with white space, gives that text back |
| JsText.TrimIdempotent | main.js:206-208 | trimming an already trimmed text changes nothing |
| JsText.TrimStartShape | main.js:103 | the leading-white-space strip keeps a suffix, removes only white space, and stops at the first other character |
| JsText.TrimEndShape | main.js:103 | the trailing-white-space strip keeps a prefix, removes only white space, and stops at the last other character |
| JsText.IndexFrom | main.js:208 | the search finds the first occurrence of the pattern at or after the start position, or reports that there is none |
| JsText.ReplaceFirst | main.js:208 | with no occurrence the text is unchanged; otherwise the first occurrence is replaced and everything around it is kept |
| JsText.ReplaceFirstPrefix | main.js:215 | removing a pattern that starts the text drops exactly that prefix |
| JsText.Split | main.js:215 | splitting gives at least one part and no part contains the separator |
| JsText.JoinSplit | main.js:215 | joining the parts of a split with the separator gives back the original text |
| JsText.SplitJoin | main.js:215 | splitting a join of parts that do not contain the separator gives back the parts |
| BoatExtract.NormalizeKey | main.js:110-113 | the key is the trimmed text, or the trimmed text without its one trailing colon exactly when it ends in one; it is a prefix of the trimmed text |
| BoatExtract.NormalizeKeyKeepsInnerSpace | main.js:110-113 | "Longueur :" becomes "Longueur ", so the text is not trimmed again after the colon goes |
| BoatExtract.NormalizeKeyDropsOneColon | main.js:129-132 | " Moteur:: " becomes "Moteur:", so only one trailing colon is removed |
| BoatExtract.Details | main.js:128-139 | one detail per list item, in order, each with the normalised key of the first child and the trimmed text of the second |
| BoatExtract.KeyCars | main.js:107-121 | the key characteristics are empty unless the section title is exactly "Caractéristiques clés"; then there is one detail per item, in order |
| BoatExtract.Categories | main.js:124-147 | one category per inventory block, in order, with the trimmed title and the details of that block's items |
| BoatExtract.VendorUrlShape | main.js:152-155 | `BoatExtract.VendorUrl`: the dealer URL is non-empty exactly when there is one dealer link; it is then the site root followed by the link's href, or by "undefined" when the href is missing |
| BoatExtract.BoatRecordShape | main.js:157-166 | `BoatExtract.BuildBoat`: the record keeps the row's index, link and clock reading; its year and description are the trimmed page texts; it has key characteristics only under the expected title, each the detail of its key item; it has one category per inventory block, with the block's trimmed title and the details of the block's items; it has a dealer URL exactly when there is one dealer link |
| VendorExtract.CityOf | main.js:206-208 | the city has no white space at its ends and is no longer than the full city text |
| VendorExtract.CityAfterZip | main.js:206-208 | a full city text made of the zip code, white space and a trimmed city gives back that city |
| VendorExtract.SplitCoordinates | main.js:214-217 | the longitude never contains a comma; the latitude is undefined exactly when no comma remains after the first "(" and the first ")" are removed |
| VendorExtract.SplitCoordinatesRoundTrip | main.js:214-217 | "(lon,lat)" splits back into lon and lat |
| VendorExtract.SplitCoordinatesFirstOnly | main.js:215 | "((1,2))" gives "(1" and "2)": only the first parenthesis of each kind is removed |
| VendorExtract.ReadCardShape | main.js:203-210 | `VendorExtract.ReadCard`: with exactly one pro card, name, address, full city, zip code and country come from the card and the city spans; the city is the full city without the zip code, trimmed; with any other number of cards nothing changes; the other globals are never touched |
| VendorExtract.ScrapeVendor | main.js:197-247 | how each section sets or carries over the globals; a missing coordinates attribute throws, so no record is built and the phone, mail, description, longitude and latitude keep the previous dealer's values; otherwise a record is built exactly when every global it reads was assigned, and it copies them |
| VendorExtract.FullPageRecorded | main.js:203-246 | a dealer page with the pro card, a map with coordinates and both contact buttons gets a record for its URL, whatever earlier dealers left in the globals |
| VendorExtract.FirstVendorNeedsEverySection | main.js:203-246 | the first dealer gets a record exactly when its page has the pro card, a map with coordinates and both contact buttons |
| Crawl.Find | main.js:192 | the lookup returns the target when it is in the seen list and undefined otherwise |
| Crawl.Absent | main.js:192 | the source's test treats a target as new when it is not in the seen list or when it is undefined |
| Crawl.BoatStep | main.js:91-175 | on status 200 exactly: one record is appended, only that row's done and timestamp are written, and the dealer URL is handed on; otherwise only the fetch is logged and undefined is handed on |
| Crawl.VendorStep | main.js:190-252 | a seen target changes nothing; a new target is added to the seen list and fetched; a record is added only for a new target whose fetch returned 200; for such a target the globals become the handler's and the handler's record, when built, is appended; a failed fetch leaves the globals and the records alone |
| CrawlProofs.ExpectedBoatIndices | main.js:157-168 | the expected boat records carry the indices of the rows that succeed, in order |
| CrawlProofs.ExpectedBoatRows | main.js:95-170 | each expected boat record is built from its own row's link, page and clock reading |
| CrawlProofs.RowStepEffect | main.js:78-79 | `Crawl.RowStep`: a row done on entry changes nothing; any other row is fetched; on status 200 only that row's done and timestamp are written and its boat record is appended; otherwise rows and boats are unchanged |
| CrawlProofs.RowDispatch | main.js:177-180 | `Crawl.RowStep`: a done row looks up no dealer; a failed fetch looks up undefined; a fetched row looks up its record's dealer URL unless it is empty; the target is appended to the seen list and fetched only when the lookup treats it as new; when that fetch returns 200 the dealer handler runs on the globals the earlier rows left and its record, when built, is appended; in every other case the globals and dealer records are unchanged |
| CrawlProofs.RunInvariant | main.js:77-83 | `Crawl.RunUpTo`: after every number of iterations, the rows, boat records and boat fetches equal the reference description; the seen list equals the dealer fetch log; it holds exactly the dispatched targets, with no repeats except undefined under the source's lookup; each dealer record's URL is a seen target whose fetch returned 200, and record URLs do not repeat, with the same exception |
| CrawlProofs.RecordsInvariant | main.js:192-246 | `Crawl.RunUpTo`: after every number of iterations, every seen target whose page returned 200 with the pro card, a map with coordinates and both contact buttons has a dealer record |
| RunProperties.RowsWhereMembers | main.js:77-79 | a row index is listed exactly when the row is of that kind, and the list is strictly increasing |
| RunProperties.CountRows | main.js:46-48 | done-on-entry rows plus pending rows make up all rows, and the pending rows are the fetched ones plus the failed ones |
| RunProperties.DoneRowsSkipped | main.js:77-81 | a row done on entry is never fetched, comes out unchanged and gets no boat record |
| RunProperties.RowOutcome | main.js:94-170 | a row ends up done exactly when it was done on entry or its fetch returned 200; only done and timestamp can change, and a marked row gets its own clock reading |
| RunProperties.BoatsOnePerSuccess | main.js:157-168 | there is a boat record for a row exactly when its fetch returned 200, and the records are in strictly increasing row order |
| RunProperties.BoatsBuiltFromRow | main.js:95-170 | each record is built from its row's link, page and clock reading, and that row's timestamp equals the record's |
| RunProperties.Accounting | main.js:46-48 | the done-on-entry count is the number of rows not pending on entry, and done-on-entry rows plus records plus failed rows make up all rows |
| RunProperties.Verdicts | main.js:57-63 | `Crawl.Reconcile` on the final state: "Numbers don't match" is reported exactly when some pending row failed; the check is silent exactly when every row was pending and succeeded |
| RunProperties.DealersFetchedOnce | main.js:192-196 | dealer fetches happen in seen-list order, one per insertion; no target is fetched twice except undefined under the source's lookup |
| RunProperties.SeenDistinct | main.js:192-193 | with plain membership the seen list has no repeats |
| RunProperties.VendorRecords | main.js:192-246 | each dealer record is for a seen target whose fetch returned 200, and there is at most one per dealer URL |
| RunProperties.DealerRecorded | main.js:192-246 | a dealer URL that was looked up, whose page returned 200 with the pro card, a map with coordinates and both contact buttons, has exactly one dealer record |
| RunProperties.DealersDiscovered | main.js:152-179 | a dealer URL is looked up exactly when it is the non-empty dealer URL of some boat record |
| RunProperties.UndefinedDispatched | main.js:175-180 | undefined is looked up exactly when some pending row failed |
| RunProperties.UndefinedFetchedTwice | main.js:192 | with two failing rows, the source's lookup fetches undefined twice, while plain membership fetches it once |

## Left out

- Command-line option parsing and the check that the input file exists (main.js:21-36): they belong to a foreign library and to I/O.
- Reading the file, parsing it as CSV, and writing the JSON and `.updated` outputs (main.js:45-48, 65-72) are I/O. The model takes the parsed rows. The final state holds the three collections the run writes, as they stand once every dealer handler has finished. The written vendors file can lack some of those dealer records (see below).
- The progress bar (main.js:51, 82) is display logic. Its `onFinish` callback (main.js:52-75), which holds the final check, is modelled as running after the fold.
- The written vendors file can lack dealer records that the model's final state holds. `onFinish` (main.js:52-75) writes the file at the loop's last tick, and it does not wait for dealer steps still in flight.
  - A dealer whose response arrives after the loop's last wait (main.js:80) is missing from the written file. For example, a dealer looked up by the next-to-last pending row is lost when it answers later than the last row's boat fetch plus one wait.
  - The new dealer looked up by the last pending row (main.js:179) is always missing. Its handler sets its wait (main.js:195) before the loop sets its own (main.js:80), so its fetch is issued only as the loop's last wait ends. Right after, `pbar.tick()` (main.js:82) runs `onFinish`, which writes the vendors file (main.js:68-69) before the response can arrive.
  - The dealer theorems of `RunProperties` (`VendorRecords`, `DealerRecorded`) describe `final.vendors`, not the written file.
- The fetch oracles of `Crawl.Web` answer the same URL the same way every time, so a link shared by several rows, or `undefined` fetched twice, gets the same response each time. The clock, by contrast, is read per row. No theorem depends on this.
- `sleep` and all waiting (main.js:80, 195, 258-262) are not modelled. Besides wall-clock time, they decide which dealer records reach the written file (the entry on the vendors file above) and in which order dealer handlers finish (the `VendorExtract.ScrapeVendor` entry below).
- The HTTP client and the HTML engine (main.js:92, 98, 196, 200) are replaced:
  - by fetch oracles that return no response or a status with an abstract parsed page;
  - by page datatypes that hold the selector results.
- Logging a rejected fetch (main.js:176, 182, 249) is not modelled. A rejected fetch is `NoResponse`.
- Two exceptions in the dealer handler are modelled. Both end the handler without a record, and the globals written before the throw keep their new values.
  - The TypeError when the map element has no `data-coordinates` attribute (main.js:214-215): `VendorExtract.CoordinatesThrow`.
  - The ReferenceError when the record literal reads a global that was never assigned (main.js:232-244): `VendorExtract.Assigned`.
  - Other exceptions are not modelled. An example is markup the selector engine cannot handle.
- Crawl.VendorStep: the model assumes the run goes on after a dealer handler throws. The throw rejects the promise of the dealer step, which nobody awaits (main.js:179). Since Node.js 15 an unhandled rejection ends the process by default, so the rest of the rows would not be processed and no output would be written. The model follows a runtime that only reports the rejection, as older Node.js versions did.
- The dealer step is not awaited (main.js:179). It is modelled as a sequential step right after its boat step.
  - Its check-and-insert runs before its first `await`, so the seen list is modelled faithfully.
  - The interleaving of dealer records with later boats is not modelled.
- VendorExtract.ScrapeVendor: the model runs dealer handlers in dispatch order. Each handler waits and fetches before it writes (main.js:195-196), so handlers can finish in a different order. The globals a handler carries over from "the previous dealer" are those of whichever handler finished last. So the carried-over values, and whether a record is built at all, can depend on response timing. The model does not cover other orders.
- `Date.now()` is the clock component of `Crawl.Web`, read once per row index.
- The `link` column is taken to be present in every row. Its absence would only change the URL handed to the fetch oracle.
- Crawl.ProcessCsvFile: its own contract states only the sizes of the report. What a run guarantees is stated by the lemmas of `RunProperties`.
- Crawl.CountDone: its own contract states only a bound. Its meaning is stated by `RunProperties.CountRows` and `RunProperties.Accounting`.

## Findings

| source | as written | input that shows it | evidently intended | confidence | as-written member | corrected member |
|---|---|---|---|---|---|---|
| main.js:192 | the dealer step treats a URL as new when `find(elem => elem == url) == undefined`; `find` returns the element it found, so when the URL is `undefined` the test is true even if `undefined` is already in the seen list | two pending rows whose listing pages cannot be fetched: each hands `undefined` to the dealer step, and `undefined` is added to the seen list and fetched twice | a target already in the seen list is not inserted or fetched again | not executed | RunProperties.UndefinedFetchedTwice | RunProperties.SeenDistinct |
