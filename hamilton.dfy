/**
 * The Visit Hamilton County scraper's mapping of one structured `Event` to an event
 * record, and the loop over the page's items that collects the mapped events.
 */
module HamiltonEvents {
  import opened Options
  import opened Text
  import opened Js
  import opened BaseScraper
  import opened LdEvents
  import opened Listings

  const HamiltonUrl: string := "https://www.visithamiltoncounty.com/events/"

  /** The address before trimming: the street address, extended by (or replaced with)
      "locality, region postal" when all three are truthy. */
  function FullAddress(ev: Value): (r: Value)
    ensures var street, locality := AddressPart(ev, "streetAddress"), AddressPart(ev, "addressLocality");
      var region, postal := AddressPart(ev, "addressRegion"), AddressPart(ev, "postalCode");
      var tail := ToStr(locality) + ", " + ToStr(region) + " " + ToStr(postal);
      && (!(Truthy(locality) && Truthy(region) && Truthy(postal)) ==> r == Or(street, Str("")))
      && (Truthy(locality) && Truthy(region) && Truthy(postal) && Truthy(street) ==> r == Str(ToStr(street) + ", " + tail))
      && (Truthy(locality) && Truthy(region) && Truthy(postal) && !Truthy(street) ==> r == Str(tail))
  {
    var street, locality := AddressPart(ev, "streetAddress"), AddressPart(ev, "addressLocality");
    var region, postal := AddressPart(ev, "addressRegion"), AddressPart(ev, "postalCode");
    var fullAddress := Or(street, Str(""));
    if Truthy(locality) && Truthy(region) && Truthy(postal) then
      var tail := ToStr(locality) + ", " + ToStr(region) + " " + ToStr(postal);
      if Truthy(fullAddress) then Str(ToStr(fullAddress) + ", " + tail) else Str(tail)
    else fullAddress
  }

  /** The price text: `''` unless the first offer has a price or a specified price. */
  function HamiltonPriceText(offers: Value): (r: string)
    ensures !Truthy(offers) || OfferPriceText(FirstOffer(offers)).None? ==> r == ""
    ensures Truthy(offers) && OfferPriceText(FirstOffer(offers)).Some? ==> r == OfferPriceText(FirstOffer(offers)).value
  {
    if !Truthy(offers) then ""
    else match OfferPriceText(FirstOffer(offers))
      case Some(text) => text
      case None => ""
  }

  /** One offer's free test, `o.price === 0 || o.price === '0'`, which throws on a
      `null` or `undefined` offer. */
  function OfferPricedZero(o: Value): (r: Eval<bool>)
    ensures r.Throws? <==> IsNullish(o)
    ensures r.Returns? ==> (r.value <==> Get(o, "price") == Num(0) || Get(o, "price") == Str("0"))
  {
    if IsNullish(o) then Throws
    else Returns(Get(o, "price") == Num(0) || Get(o, "price") == Str("0"))
  }

  function HamiltonIsFree(ev: Value, priceText: string): Eval<bool> {
    if Get(ev, "isAccessibleForFree") == Bool(true) then Returns(true)
    else
      var offers := Get(ev, "offers");
      var some := if Truthy(offers) then AnyPasses(OfferList(offers), OfferPricedZero) else Returns(false);
      match some
      case Throws => Throws
      case Returns(b) => Returns(b || ToLower(priceText) == "free")
  }

  /** When the free test does not throw, an event is free exactly when it is marked
      `isAccessibleForFree`, when some offer is priced `0` or `'0'`, or when its price text
      reads `'free'` in any case. */
  lemma HamiltonIsFreeSpec(ev: Value, priceText: string)
    requires HamiltonIsFree(ev, priceText).Returns?
    ensures var offers := Get(ev, "offers");
      HamiltonIsFree(ev, priceText).value <==>
        || Get(ev, "isAccessibleForFree") == Bool(true)
        || (Truthy(offers) && exists k :: 0 <= k < |OfferList(offers)| && OfferPricedZero(OfferList(offers)[k]) == Returns(true))
        || ToLower(priceText) == "free"
  {
    var offers := Get(ev, "offers");
    if Get(ev, "isAccessibleForFree") != Bool(true) && Truthy(offers) {
      var some := AnyPasses(OfferList(offers), OfferPricedZero);
      assert some.Returns?;
      if !some.value {
        assert some == Returns(false);
      }
    }
  }

  /** The price field: `'Free'` for a free event whose price text does not mention
      `'free'`. */
  function HamiltonPriceField(isFree: bool, priceText: string): (r: string)
    ensures !isFree ==> r == priceText
    ensures isFree ==> Contains(ToLower(r), "free")
    ensures isFree && Contains(ToLower(priceText), "free") ==> r == priceText
  {
    if isFree && !Contains(ToLower(priceText), "free") then
      assert OccursAt(ToLower("Free"), "free", 0);
      ContainsIff(ToLower("Free"), "free");
      "Free"
    else priceText
  }

  /** The per-item body: a thrown error, a skipped item, or the event. Trimming the
      address throws when it is not a string. */
  function HamiltonItem(ev: Value, parse: DateParser, now: string): Eval<Option<Record>> {
    if IsNullish(ev) then Throws
    else
      var title, url := Or(Get(ev, "name"), Str("")), Or(Get(ev, "url"), Str(""));
      var start, end := ParseDateField(Get(ev, "startDate"), parse), ParseDateField(Get(ev, "endDate"), parse);
      var priceText := HamiltonPriceText(Get(ev, "offers"));
      match HamiltonIsFree(ev, priceText)
      case Throws => Throws
      case Returns(isFree) =>
        if !(Truthy(title) && Truthy(url) && start.date != "") then Returns(None)
        else
          var address := FullAddress(ev);
          if !address.Str? then Throws
          else Returns(Some(AsRecord(HamiltonListing(ev, title, url, start, end, Trim(address.s), priceText, isFree, now))))
  }

  /** The event literal of an item that is kept. */
  function HamiltonListing(ev: Value, title: Value, url: Value, start: DateField, end: DateField,
                           address: string, priceText: string, isFree: bool, now: string): EventListing {
    EventListing(
      title,
      Or(Get(ev, "description"), Str("")),
      Str(start.date),
      start.time,
      Str(end.date),
      end.time,
      url,
      Or(OptProp(Get(ev, "organizer"), "name"), Str("Visit Hamilton County")),
      Str(HamiltonUrl),
      Or(Get(ev, "eventCategory"), Str("Various")),
      LocationText(ev, "Hamilton County, IN"),
      Or(OptProp(Get(ev, "location"), "name"), Str("Venue not specified")),
      Str(address),
      ImageUrl(Get(ev, "image")),
      Str(Tags(Get(ev, "keywords"))),
      Str(HamiltonPriceField(isFree, priceText)),
      if isFree then Num(1) else Num(0),
      Str(now),
      Str(now))
  }

  /** The kept event carries its title, url and start date, the site as its source, and
      a category, a venue and a location that are never empty. */
  lemma HamiltonListingShape(ev: Value, title: Value, url: Value, start: DateField, end: DateField,
                             address: string, priceText: string, isFree: bool, now: string)
    ensures var e := HamiltonListing(ev, title, url, start, end, address, priceText, isFree, now);
      && e.title == title && e.url == url && e.startDate == Str(start.date) && e.source == Str(HamiltonUrl)
      && Truthy(e.category) && Truthy(e.venue) && Truthy(e.location)
  {
  }

  /** The kept event's address is the text it was given, its free flag is 1
      exactly when it is free, and its price is the price field of the price text (so it
      mentions `'free'` when the event is free, and is the price text otherwise). */
  lemma HamiltonListingPrice(ev: Value, title: Value, url: Value, start: DateField, end: DateField,
                             address: string, priceText: string, isFree: bool, now: string)
    ensures var e := HamiltonListing(ev, title, url, start, end, address, priceText, isFree, now);
      && e.address == Str(address)
      && (e.isFree == Num(1) <==> isFree)
      && e.price == Str(HamiltonPriceField(isFree, priceText))
  {
  }

  /** An item that does not throw is emitted exactly when it has a title, a url and a
      valid start date, and the event is then the item's literal with the address
      trimmed. */
  lemma HamiltonItemEmits(ev: Value, parse: DateParser, now: string)
    requires HamiltonItem(ev, parse, now).Returns?
    ensures var title, url := Or(Get(ev, "name"), Str("")), Or(Get(ev, "url"), Str(""));
      var start := ParseDateField(Get(ev, "startDate"), parse);
      && (HamiltonItem(ev, parse, now).value.Some?
          <==> Truthy(title) && Truthy(url) && Truthy(Get(ev, "startDate")) && parse(Get(ev, "startDate")).Some?)
      && (HamiltonItem(ev, parse, now).value.Some? ==>
          var priceText := HamiltonPriceText(Get(ev, "offers"));
          var isFree := HamiltonIsFree(ev, priceText);
          FullAddress(ev).Str? && isFree.Returns?
          && HamiltonItem(ev, parse, now).value.value
            == AsRecord(HamiltonListing(ev, title, url, start, ParseDateField(Get(ev, "endDate"), parse),
                                        Trim(FullAddress(ev).s), priceText, isFree.value, now)))
  {
    var title, url := Or(Get(ev, "name"), Str("")), Or(Get(ev, "url"), Str(""));
    var start, end := ParseDateField(Get(ev, "startDate"), parse), ParseDateField(Get(ev, "endDate"), parse);
    var priceText := HamiltonPriceText(Get(ev, "offers"));
    var isFree := HamiltonIsFree(ev, priceText);
    assert !IsNullish(ev) && isFree.Returns?;
    if Truthy(title) && Truthy(url) && start.date != "" {
      var address := FullAddress(ev);
      assert address.Str?;
      assert HamiltonItem(ev, parse, now)
        == Returns(Some(AsRecord(HamiltonListing(ev, title, url, start, end, Trim(address.s), priceText, isFree.value, now))));
    } else {
      assert HamiltonItem(ev, parse, now) == Returns(None);
    }
  }

  /** A `null` among the offers, with no earlier offer priced zero, makes the item throw,
      so it is skipped. */
  lemma NullOfferThrows(ev: Value, priceText: string, k: nat)
    requires Get(ev, "isAccessibleForFree") != Bool(true)
    requires Get(ev, "offers").Arr? && k < |Get(ev, "offers").items| && IsNullish(Get(ev, "offers").items[k])
    requires forall j :: 0 <= j < k ==> OfferPricedZero(Get(ev, "offers").items[j]) == Returns(false)
    ensures HamiltonIsFree(ev, priceText).Throws?
  {
    AnyPassesThrows(Get(ev, "offers").items, OfferPricedZero, k);
  }

  /** The events of a page: none when it could not be fetched or was empty, else the
      mapping of its structured `Event` items. */
  function HamiltonEventsOf(page: Option<seq<Option<Value>>>, parse: DateParser, now: string): seq<Record> {
    match page
    case None => []
    case Some(scripts) => Collected(JsonLdItems(scripts, "Event"), ev => HamiltonItem(ev, parse, now))
  }

  /** `scrape()` as intended, returning the `allEvents` it fills: a page that could not
      be fetched gives nothing; otherwise the structured `Event` items are mapped one by
      one. */
  method CollectHamiltonEvents(page: Option<seq<Option<Value>>>, parse: DateParser, now: string) returns (allEvents: seq<Record>)
    ensures allEvents == HamiltonEventsOf(page, parse, now)
  {
    allEvents := [];
    if page.None? {
      return;
    }
    var jsonDataArray := ExtractJsonLd(page.value, "Event");
    if |jsonDataArray| > 0 {
      allEvents := CollectEvents(jsonDataArray, ev => HamiltonItem(ev, parse, now));
    }
  }

  /** Every item that maps to an event contributes it to `allEvents`. */
  lemma MappedEventIsCollected(scripts: seq<Option<Value>>, parse: DateParser, now: string, k: nat)
    requires k < |JsonLdItems(scripts, "Event")|
    requires HamiltonItem(JsonLdItems(scripts, "Event")[k], parse, now).Returns?
    requires HamiltonItem(JsonLdItems(scripts, "Event")[k], parse, now).value.Some?
    ensures HamiltonItem(JsonLdItems(scripts, "Event")[k], parse, now).value.value in HamiltonEventsOf(Some(scripts), parse, now)
  {
    EmittedIsCollected(JsonLdItems(scripts, "Event"), ev => HamiltonItem(ev, parse, now), k);
  }

  /** `scrape()` as written: once the page has been fetched it ends in `return events`,
      a name declared nowhere in scope, so every such call throws a `ReferenceError`
      and only the early `return []` of a failed fetch gets through. */
  function ScrapeAsWritten(page: Option<seq<Option<Value>>>): (r: Eval<seq<Record>>)
    ensures r.Returns? <==> page.None?
    ensures r.Returns? ==> r.value == []
  {
    match page
    case None => Returns([])
    case Some(_) => Throws
  }

  /** A page with one item that maps to an event: the scraper as written throws and
      reports nothing, where the events it collected are not empty. */
  lemma AsWrittenLosesEvents(scripts: seq<Option<Value>>, parse: DateParser, now: string, k: nat)
    requires k < |JsonLdItems(scripts, "Event")|
    requires HamiltonItem(JsonLdItems(scripts, "Event")[k], parse, now).Returns?
    requires HamiltonItem(JsonLdItems(scripts, "Event")[k], parse, now).value.Some?
    ensures ScrapeAsWritten(Some(scripts)).Throws?
    ensures HamiltonEventsOf(Some(scripts), parse, now) != []
  {
    MappedEventIsCollected(scripts, parse, now, k);
  }
}
