/** What the scraper reads off a dealer page (main.js, getDataForBoatVendor).
    The handler stores every field in an implicit global variable, so a field
    whose markup is missing keeps the previous dealer's value, and reading a
    global that was never assigned throws before the record is built. */
module VendorExtract {
  import opened JsText

  /** The single `div.oneCardPro`, by the texts of its parts. */
  datatype ProCard = ProCard(h2Text: string, addressText: string, cityText: string, countryText: string)

  /** The parsed dealer page. `citySpanText` is the text of the `span`s in any
      `p.city` of the document; `maps`, `callButtons` and `emailButtons` hold,
      per matching element, its `data-coordinates` or `rel` attribute. */
  datatype VendorPage = VendorPage(
    cards: seq<ProCard>,
    citySpanText: string,
    maps: seq<Option<string>>,
    callButtons: seq<Option<string>>,
    emailButtons: seq<Option<string>>,
    descriptionText: string)

  /** The implicit globals the handler writes; `None` is a name never assigned. */
  datatype Globals = Globals(
    name: Option<Val>,
    address: Option<Val>,
    fullcity: Option<Val>,
    zipcode: Option<Val>,
    city: Option<Val>,
    country: Option<Val>,
    coordinates: Option<Val>,
    longitude: Option<Val>,
    latitude: Option<Val>,
    phone: Option<Val>,
    mail: Option<Val>,
    description: Option<Val>)

  /** The vendor record. */
  datatype Vendor = Vendor(
    url: Val,
    name: Val,
    description: Val,
    address: Val,
    zipcode: Val,
    city: Val,
    country: Val,
    longitude: Val,
    latitude: Val,
    phone: Val,
    mail: Val)

  /** Outcome of the handler: the globals afterwards and the record, if built. */
  datatype Scrape = Scrape(globals: Globals, record: Option<Vendor>)

  const NoGlobals: Globals :=
    Globals(None, None, None, None, None, None, None, None, None, None, None, None)

  /** The city: the full city text with the first occurrence of the zip code
      removed, then trimmed. */
  function CityOf(fullcity: string, zipcode: string): (city: string)
    ensures Trimmed(city)
    ensures |city| <= |fullcity|
  {
    Trim(ReplaceFirst(fullcity, zipcode, ""))
  }

  /** `(lon,lat)` split into its two parts: only the first `(` and the first
      `)` are removed, and a missing second part is `undefined`. */
  function SplitCoordinates(attr: string): (lonlat: (Val, Val))
    ensures lonlat.0.Str? && ',' !in lonlat.0.s
    ensures lonlat.1.Str? ==> ',' !in lonlat.1.s
    ensures lonlat.1 == Undefined <==> ',' !in ReplaceFirst(ReplaceFirst(attr, "(", ""), ")", "")
  {
    var parts := Split(ReplaceFirst(ReplaceFirst(attr, "(", ""), ")", ""), ',');
    SplitHasOnePart(ReplaceFirst(ReplaceFirst(attr, "(", ""), ")", ""), ',');
    (Str(parts[0]), if |parts| >= 2 then Str(parts[1]) else Undefined)
  }

  /** A single part comes back exactly when the separator does not occur. */
  lemma SplitHasOnePart(s: string, sep: char)
    ensures |Split(s, sep)| == 1 <==> sep !in s
  {
    if sep !in s {
      SplitNoSep(s, sep);
    } else {
      JoinSplit(s, sep);
    }
  }

  /** The coordinates step throws: there is exactly one map element and it
      has no `data-coordinates` attribute, so the text operations run on
      `undefined`. */
  predicate CoordinatesThrow(page: VendorPage)
  {
    |page.maps| == 1 && page.maps[0].None?
  }

  /** The globals the record literal reads are all assigned. */
  predicate Assigned(g: Globals)
  {
    && g.name.Some? && g.description.Some? && g.address.Some? && g.zipcode.Some?
    && g.city.Some? && g.country.Some? && g.longitude.Some? && g.latitude.Some?
    && g.phone.Some? && g.mail.Some?
  }

  /** The pro card sets name, address, full city, zip code, city and country. */
  function ReadCard(g: Globals, page: VendorPage): Globals
  {
    if |page.cards| == 1 then
      var c := page.cards[0];
      var fullcity := Trim(c.cityText);
      var zipcode := Trim(page.citySpanText);
      g.(name := Some(Str(Trim(c.h2Text))), address := Some(Str(Trim(c.addressText))),
         fullcity := Some(Str(fullcity)), zipcode := Some(Str(zipcode)),
         city := Some(Str(CityOf(fullcity, zipcode))), country := Some(Str(Trim(c.countryText))))
    else g
  }

  /** The handler run on a dealer page fetched with status 200, given the
      globals left by earlier dealers. */
  function ScrapeVendor(g: Globals, url: Val, page: VendorPage): (r: Scrape)
    // the card fields come from the page when it has one card, else carry over
    ensures |page.cards| == 1 ==>
              && r.globals.city == Some(Str(CityOf(Trim(page.cards[0].cityText), Trim(page.citySpanText))))
              && r.globals.zipcode == Some(Str(Trim(page.citySpanText)))
              && r.globals.name == Some(Str(Trim(page.cards[0].h2Text)))
              && r.globals.address == Some(Str(Trim(page.cards[0].addressText)))
              && r.globals.country == Some(Str(Trim(page.cards[0].countryText)))
    ensures |page.cards| != 1 ==>
              && r.globals.name == g.name && r.globals.address == g.address
              && r.globals.zipcode == g.zipcode && r.globals.city == g.city
              && r.globals.country == g.country
    // a map element without its attribute throws: nothing after it runs
    ensures CoordinatesThrow(page) ==>
              && r.record == None && r.globals.coordinates == Some(Undefined)
              && r.globals.description == g.description && r.globals.phone == g.phone
              && r.globals.mail == g.mail && r.globals.longitude == g.longitude
              && r.globals.latitude == g.latitude
    ensures !CoordinatesThrow(page) && |page.maps| == 1 ==>
              && r.globals.longitude == Some(SplitCoordinates(page.maps[0].value).0)
              && r.globals.latitude == Some(SplitCoordinates(page.maps[0].value).1)
    ensures |page.maps| != 1 ==>
              r.globals.longitude == g.longitude && r.globals.latitude == g.latitude
    ensures !CoordinatesThrow(page) ==>
              && r.globals.description == Some(Str(Trim(page.descriptionText)))
              && r.globals.phone == (if |page.callButtons| == 1 then Some(ToVal(page.callButtons[0])) else g.phone)
              && r.globals.mail == (if |page.emailButtons| == 1 then Some(ToVal(page.emailButtons[0])) else g.mail)
    // a record is built exactly when nothing threw, and it copies the globals
    ensures r.record.Some? <==> !CoordinatesThrow(page) && Assigned(r.globals)
    ensures r.record.Some? ==>
              var v := r.record.value;
              && v.url == url && v.name == r.globals.name.value && v.city == r.globals.city.value
              && v.longitude == r.globals.longitude.value && v.latitude == r.globals.latitude.value
              && v.phone == r.globals.phone.value && v.mail == r.globals.mail.value
              && v.description == r.globals.description.value && v.address == r.globals.address.value
              && v.zipcode == r.globals.zipcode.value && v.country == r.globals.country.value
  {
    var g1 := ReadCard(g, page);
    if CoordinatesThrow(page) then
      Scrape(g1.(coordinates := Some(Undefined)), None)
    else
      var g2 :=
        if |page.maps| == 1 then
          var lonlat := SplitCoordinates(page.maps[0].value);
          g1.(coordinates := Some(Str(page.maps[0].value)), longitude := Some(lonlat.0), latitude := Some(lonlat.1))
        else g1;
      var g3 := if |page.callButtons| == 1 then g2.(phone := Some(ToVal(page.callButtons[0]))) else g2;
      var g4 := if |page.emailButtons| == 1 then g3.(mail := Some(ToVal(page.emailButtons[0]))) else g3;
      var g5 := g4.(description := Some(Str(Trim(page.descriptionText))));
      if Assigned(g5) then
        Scrape(g5, Some(Vendor(url, g5.name.value, g5.description.value, g5.address.value,
                               g5.zipcode.value, g5.city.value, g5.country.value, g5.longitude.value,
                               g5.latitude.value, g5.phone.value, g5.mail.value)))
      else
        Scrape(g5, None)
  }

  /** The zip code is cut from the front of the full city text and the
      white space after it is trimmed away. */
  lemma CityAfterZip(zipcode: string, gap: string, city: string)
    requires AllSpace(gap) && Trimmed(city)
    ensures CityOf(zipcode + gap + city, zipcode) == city
  {
    var full := zipcode + gap + city;
    assert full[..|zipcode|] == zipcode;
    ReplaceFirstPrefix(full, zipcode);
    assert full[|zipcode|..] == gap + city + [];
    TrimPadded(gap, city, []);
  }

  /** Coordinates written as `(lon,lat)` split back into `lon` and `lat`. */
  lemma SplitCoordinatesRoundTrip(lon: string, lat: string)
    requires ',' !in lon && ')' !in lon && ',' !in lat && ')' !in lat
    ensures SplitCoordinates("(" + lon + "," + lat + ")") == (Str(lon), Str(lat))
  {
    var attr := "(" + lon + "," + lat + ")";
    ReplaceFirstPrefix(attr, "(");
    var inner := attr[1..];
    assert inner == lon + "," + lat + ")";
    assert ')' !in lon + "," + lat;
    assert inner == (lon + "," + lat) + [')'] + [];
    IndexOfChar(lon + "," + lat, ')', []);
    var stripped := ReplaceFirst(inner, ")", "");
    assert stripped == lon + "," + lat;
    assert Join([lon, lat], ',') == stripped;
    SplitJoin([lon, lat], ',');
  }

  /** Only the first parenthesis of each kind is removed. */
  lemma SplitCoordinatesFirstOnly()
    ensures SplitCoordinates("((1,2))") == (Str("(1"), Str("2)"))
  {
    var attr := "((1,2))";
    ReplaceFirstPrefix(attr, "(");
    assert attr[1..] == "(1,2" + [')'] + ")";
    IndexOfChar("(1,2", ')', ")");
    assert ReplaceFirst(attr[1..], ")", "") == "(1,2)";
    assert Join(["(1", "2)"], ',') == "(1,2)";
    SplitJoin(["(1", "2)"], ',');
  }

  /** A dealer page with every section the handler reads: one pro card, one
      map carrying its coordinates and one of each contact button. */
  predicate FullDealerPage(page: VendorPage)
  {
    && |page.cards| == 1 && |page.maps| == 1 && page.maps[0].Some?
    && |page.callButtons| == 1 && |page.emailButtons| == 1
  }

  /** A full dealer page always gets its record, whatever earlier dealers
      left in the globals: the handler assigns every global itself. */
  lemma FullPageRecorded(g: Globals, url: Val, page: VendorPage)
    requires FullDealerPage(page)
    ensures ScrapeVendor(g, url, page).record.Some?
    ensures ScrapeVendor(g, url, page).record.value.url == url
  {
  }

  /** The first dealer scraped gets a record only when its page is full:
      otherwise a global is read before it was ever assigned. */
  lemma FirstVendorNeedsEverySection(url: Val, page: VendorPage)
    ensures ScrapeVendor(NoGlobals, url, page).record.Some? <==> FullDealerPage(page)
  {
  }

  /** The pro card step: with exactly one card it sets the six card globals
      from the card, the zip code from the city spans and the city from both;
      otherwise nothing changes. It never touches the other globals. */
  lemma ReadCardShape(g: Globals, page: VendorPage)
    ensures var r := ReadCard(g, page);
            && r.coordinates == g.coordinates && r.longitude == g.longitude
            && r.latitude == g.latitude && r.phone == g.phone && r.mail == g.mail
            && r.description == g.description
    ensures |page.cards| != 1 ==> ReadCard(g, page) == g
    ensures |page.cards| == 1 ==>
              var r := ReadCard(g, page);
              var c := page.cards[0];
              && r.name == Some(Str(Trim(c.h2Text))) && r.address == Some(Str(Trim(c.addressText)))
              && r.fullcity == Some(Str(Trim(c.cityText))) && r.zipcode == Some(Str(Trim(page.citySpanText)))
              && r.country == Some(Str(Trim(c.countryText)))
              && r.city == Some(Str(CityOf(Trim(c.cityText), Trim(page.citySpanText))))
  {
  }
}
