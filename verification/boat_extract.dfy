/** What the scraper reads off one listing page (main.js, getDataForASingleBoat).
    The HTML engine is abstracted away: a page is given by the texts and
    attributes its selectors return. */
module BoatExtract {
  import opened JsText

  /** Site root that dealer links are resolved against. */
  const BaseUrl: string := "https://www.bandofboats.com"

  /** Title the key-characteristics section must carry, compared untrimmed. */
  const KeyCharacteristicsTitle: string := "Caractéristiques clés"

  /** A `li` of a details list, by the text of each of its child nodes. */
  datatype ListItem = ListItem(children: seq<string>)

  /** A `div.blockCateg` of the inventory: its title text and list items. */
  datatype CategoryBlock = CategoryBlock(titleText: string, items: seq<ListItem>)

  /** An `a.fap-link` inside `div.sold`, by its `href` attribute. */
  datatype Anchor = Anchor(href: Option<string>)

  /** The parsed listing page. `keyTitleText` is the concatenated text of the
      `span.titleKey` elements of `div#description`; `keyItems` are the `li`
      of its `ul.lstDetails` lists, in document order. */
  datatype BoatPage = BoatPage(
    yearText: string,
    descriptionText: string,
    keyTitleText: string,
    keyItems: seq<ListItem>,
    inventory: seq<CategoryBlock>,
    dealerAnchors: seq<Anchor>)

  datatype Detail = Detail(key: string, value: string)

  datatype Category = Category(titleCategory: string, details: seq<Detail>)

  /** The boat record; `i` is the row's position in the input table. */
  datatype Boat = Boat(
    i: nat,
    url: string,
    yearOfConstruction: string,
    description: string,
    timestamp: int,
    keyCars: seq<Detail>,
    categories: seq<Category>,
    vendorUrl: string)

  /** `$(elem.childNodes[k]).text()`: an absent child reads as the empty text. */
  function ChildText(item: ListItem, k: nat): string
  {
    if k < |item.children| then item.children[k] else ""
  }

  /** A detail key: the trimmed text with one trailing colon dropped. There
      is no second trim, so "Longueur :" gives "Longueur ". */
  function NormalizeKey(text: string): (key: string)
    ensures var t := Trim(text); key == t || key + ":" == t
    ensures var t := Trim(text); key == t <==> (t == [] || t[|t| - 1] != ':')
    ensures var t := Trim(text); |key| <= |t| && key == t[..|key|]
  {
    var t := Trim(text);
    if |t| > 0 && t[|t| - 1] == ':' then
      assert t[..|t| - 1] + ":" == t;
      t[..|t| - 1]
    else
      t
  }

  function DetailOf(item: ListItem): Detail
  {
    Detail(NormalizeKey(ChildText(item, 0)), Trim(ChildText(item, 1)))
  }

  /** One detail per list item, in order. */
  function Details(items: seq<ListItem>): (ds: seq<Detail>)
    ensures |ds| == |items|
    ensures forall m :: 0 <= m < |ds| ==> ds[m] == DetailOf(items[m])
  {
    if |items| == 0 then []
    else [DetailOf(items[0])] + Details(items[1..])
  }

  /** The key characteristics, read only when the section title is exactly
      the expected one. */
  function KeyCars(page: BoatPage): (ds: seq<Detail>)
    ensures page.keyTitleText != KeyCharacteristicsTitle ==> ds == []
    ensures page.keyTitleText == KeyCharacteristicsTitle ==> |ds| == |page.keyItems|
    ensures forall m :: 0 <= m < |ds| ==> ds[m] == DetailOf(page.keyItems[m])
  {
    if page.keyTitleText == KeyCharacteristicsTitle then Details(page.keyItems) else []
  }

  /** One category per inventory block, in order, with its trimmed title. */
  function Categories(blocks: seq<CategoryBlock>): (cs: seq<Category>)
    ensures |cs| == |blocks|
    ensures forall m :: 0 <= m < |cs| ==>
              cs[m] == Category(Trim(blocks[m].titleText), Details(blocks[m].items))
  {
    if |blocks| == 0 then []
    else [Category(Trim(blocks[0].titleText), Details(blocks[0].items))] + Categories(blocks[1..])
  }

  /** The dealer URL: the site root followed by the href of the single dealer
      link, or empty when there is not exactly one. A missing href is
      concatenated as the text "undefined". */
  function VendorUrl(anchors: seq<Anchor>): string
  {
    if |anchors| == 1 then BaseUrl + ToJsString(ToVal(anchors[0].href)) else ""
  }

  /** The dealer URL is non-empty exactly when there is one dealer link, and
      then it is the site root followed by that link's href. (Kept apart from
      `VendorUrl` so that the long site-root literal stays out of every proof
      that mentions a boat record.) */
  lemma VendorUrlShape(anchors: seq<Anchor>)
    ensures VendorUrl(anchors) != "" <==> |anchors| == 1
    ensures |anchors| == 1 ==>
              var u := VendorUrl(anchors);
              |BaseUrl| <= |u| && u[..|BaseUrl|] == BaseUrl
              && u[|BaseUrl|..] == ToJsString(ToVal(anchors[0].href))
  {
  }

  /** The record built for a row whose page was fetched with status 200. */
  function BuildBoat(i: nat, url: string, page: BoatPage, timestamp: int): Boat
  {
    Boat(i, url, Trim(page.yearText), Trim(page.descriptionText), timestamp,
         KeyCars(page), Categories(page.inventory), VendorUrl(page.dealerAnchors))
  }

  /** The boat record keeps the row's index, link and clock reading, holds
      the trimmed year and description, the key characteristics only under
      the expected title and one detail per key item, one category per
      inventory block with the details of its items, and a dealer URL
      exactly when the page has a single dealer link. */
  lemma BoatRecordShape(i: nat, url: string, page: BoatPage, timestamp: int)
    ensures var b := BuildBoat(i, url, page, timestamp);
            && b.i == i && b.url == url && b.timestamp == timestamp
            && b.yearOfConstruction == Trim(page.yearText)
            && b.description == Trim(page.descriptionText)
            && (page.keyTitleText != KeyCharacteristicsTitle ==> b.keyCars == [])
            && (page.keyTitleText == KeyCharacteristicsTitle ==> |b.keyCars| == |page.keyItems|)
            && (forall m :: 0 <= m < |b.keyCars| ==> b.keyCars[m] == DetailOf(page.keyItems[m]))
            && |b.categories| == |page.inventory|
            && (forall m :: 0 <= m < |b.categories| ==>
                  b.categories[m].titleCategory == Trim(page.inventory[m].titleText)
                  && b.categories[m].details == Details(page.inventory[m].items))
            && (b.vendorUrl != "" <==> |page.dealerAnchors| == 1)
  {
    VendorUrlShape(page.dealerAnchors);
  }

  /** What is left after the colon is not trimmed again. */
  lemma NormalizeKeyKeepsInnerSpace()
    ensures NormalizeKey("Longueur :") == "Longueur "
  {
    var k := "Longueur :";
    assert k[0] == 'L' && k[|k| - 1] == ':';
    assert Trimmed(k);
    assert [] + k + [] == k;
    TrimPadded([], k, []);
  }

  /** Only one trailing colon goes. */
  lemma NormalizeKeyDropsOneColon()
    ensures NormalizeKey(" Moteur:: ") == "Moteur:"
  {
    var k := "Moteur::";
    assert k[0] == 'M' && k[|k| - 1] == ':';
    assert Trimmed(k);
    assert AllSpace(" ");
    assert " " + k + " " == " Moteur:: ";
    TrimPadded(" ", k, " ");
  }
}
