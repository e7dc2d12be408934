/**
 * The Eventbrite Indiana scraper: each structured `Event` on the listing page becomes
 * an event record when it has a title, a url and a valid start date.
 */
module EventbriteEvents {
  import opened Options
  import opened Text
  import opened Js
  import opened BaseScraper
  import opened LdEvents
  import opened Listings

  const EventbriteUrl: string := "https://www.eventbrite.com/b/in--indianapolis/"

  /** The price text: `'Check ticket price'` unless the first offer has a price, a
      specified price, or a name other than `'free'`. */
  function EventbritePriceText(offers: Value): (r: string)
    ensures !Truthy(offers) ==> r == "Check ticket price"
    ensures Truthy(offers) && OfferPriceText(FirstOffer(offers)).Some? ==> r == OfferPriceText(FirstOffer(offers)).value
    ensures Truthy(offers) && OfferPriceText(FirstOffer(offers)).None? ==>
      var name := OptProp(FirstOffer(offers), "name");
      r == if name.Str? && ToLower(name.s) != "free" then name.s else "Check ticket price"
  {
    if !Truthy(offers) then "Check ticket price"
    else
      var offer := FirstOffer(offers);
      match OfferPriceText(offer)
      case Some(text) => text
      case None =>
        var name := OptProp(offer, "name");
        if name.Str? && ToLower(name.s) != "free" then name.s else "Check ticket price"
  }

  /** One offer's free test: a price of `0` or `'0'`, the name `'free'`, or a specified
      price of `0`. Reading a property of a `null` offer throws, and so does calling
      `toLowerCase` on a name that is neither a string nor nullish. */
  function OfferIsFree(o: Value): (r: Eval<bool>)
    ensures r.Throws? <==> (IsNullish(o)
      || (Get(o, "price") != Num(0) && Get(o, "price") != Str("0") && !IsNullish(Get(o, "name")) && !Get(o, "name").Str?))
    ensures r.Returns? ==> (r.value <==>
      || Get(o, "price") == Num(0) || Get(o, "price") == Str("0")
      || (Get(o, "name").Str? && ToLower(Get(o, "name").s) == "free")
      || OptProp(Get(o, "priceSpecification"), "price") == Num(0))
  {
    if IsNullish(o) then Throws
    else if Get(o, "price") == Num(0) || Get(o, "price") == Str("0") then Returns(true)
    else
      var name := Get(o, "name");
      if !IsNullish(name) && !name.Str? then Throws
      else if name.Str? && ToLower(name.s) == "free" then Returns(true)
      else Returns(OptProp(Get(o, "priceSpecification"), "price") == Num(0))
  }

  /** `isAccessibleForFree === true || (offers && offers.some(…)) || priceText is 'free'`,
      evaluated left to right. */
  function EventbriteIsFree(ev: Value, priceText: string): Eval<bool> {
    if Get(ev, "isAccessibleForFree") == Bool(true) then Returns(true)
    else
      var offers := Get(ev, "offers");
      var some := if Truthy(offers) then AnyPasses(OfferList(offers), OfferIsFree) else Returns(false);
      match some
      case Throws => Throws
      case Returns(b) => Returns(b || ToLower(priceText) == "free")
  }

  /** The price field: `'Free'` for a free event whose price text is not `'free'`. */
  function PriceField(isFree: bool, priceText: string): (r: string)
    ensures !isFree ==> r == priceText
    ensures isFree ==> ToLower(r) == "free"
  {
    if isFree && ToLower(priceText) != "free" then "Free" else priceText
  }

  /** The per-item body of the loop: a thrown error, a skipped item, or the event;
      `now` stands for `new Date().toISOString()`. */
  function EventbriteItem(ev: Value, parse: DateParser, now: string): Eval<Option<Record>> {
    if IsNullish(ev) then Throws
    else
      var title, url := Or(Get(ev, "name"), Str("")), Or(Get(ev, "url"), Str(""));
      var start, end := ParseDateField(Get(ev, "startDate"), parse), ParseDateField(Get(ev, "endDate"), parse);
      var priceText := EventbritePriceText(Get(ev, "offers"));
      match EventbriteIsFree(ev, priceText)
      case Throws => Throws
      case Returns(isFree) =>
        if !(Truthy(title) && Truthy(url) && start.date != "") then Returns(None)
        else Returns(Some(AsRecord(EventbriteListing(ev, title, url, start, end, priceText, isFree, now))))
  }

  /** The event literal of an item that is kept. */
  function EventbriteListing(ev: Value, title: Value, url: Value, start: DateField, end: DateField,
                             priceText: string, isFree: bool, now: string): EventListing {
    EventListing(
      title,
      Or(Get(ev, "description"), Str("")),
      Str(start.date),
      start.time,
      Str(end.date),
      end.time,
      url,
      Or(OptProp(Get(ev, "organizer"), "name"), Str("Eventbrite")),
      Str(EventbriteUrl),
      Str("Various"),
      LocationText(ev, "Indiana"),
      Or(Or(OptProp(Get(ev, "location"), "name"), AddressPart(ev, "name")), Str("Venue not specified")),
      Or(AddressPart(ev, "streetAddress"), Str("")),
      ImageUrl(Get(ev, "image")),
      Str(Tags(Get(ev, "keywords"))),
      Str(PriceField(isFree, priceText)),
      if isFree then Num(1) else Num(0),
      Str(now),
      Str(now))
  }

  /** The kept event carries its title, url and start date, the site as its source,
      `'Various'` as its category, a location, and a free flag of 1 exactly when it is
      free, in which case its price reads `'free'`. */
  lemma EventbriteListingShape(ev: Value, title: Value, url: Value, start: DateField, end: DateField,
                               priceText: string, isFree: bool, now: string)
    ensures var e := EventbriteListing(ev, title, url, start, end, priceText, isFree, now);
      && e.title == title && e.url == url && e.startDate == Str(start.date)
      && e.source == Str(EventbriteUrl) && e.category == Str("Various")
      && Truthy(e.location)
      && (e.isFree == Num(1) <==> isFree)
      && (isFree ==> e.price.Str? && ToLower(e.price.s) == "free")
      && (!isFree ==> e.price == Str(priceText))
  {
  }

  /** An item that does not throw is emitted exactly when it has a title, a url and a
      valid start date, and the event is then the item's literal. */
  lemma EventbriteItemEmits(ev: Value, parse: DateParser, now: string)
    requires EventbriteItem(ev, parse, now).Returns?
    ensures var title, url := Or(Get(ev, "name"), Str("")), Or(Get(ev, "url"), Str(""));
      var start := ParseDateField(Get(ev, "startDate"), parse);
      && (EventbriteItem(ev, parse, now).value.Some?
          <==> Truthy(title) && Truthy(url) && Truthy(Get(ev, "startDate")) && parse(Get(ev, "startDate")).Some?)
      && (EventbriteItem(ev, parse, now).value.Some? ==>
          var priceText := EventbritePriceText(Get(ev, "offers"));
          var isFree := EventbriteIsFree(ev, priceText);
          isFree.Returns? && EventbriteItem(ev, parse, now).value.value
            == AsRecord(EventbriteListing(ev, title, url, start, ParseDateField(Get(ev, "endDate"), parse), priceText, isFree.value, now)))
  {
    var title, url := Or(Get(ev, "name"), Str("")), Or(Get(ev, "url"), Str(""));
    var start, end := ParseDateField(Get(ev, "startDate"), parse), ParseDateField(Get(ev, "endDate"), parse);
    var priceText := EventbritePriceText(Get(ev, "offers"));
    var isFree := EventbriteIsFree(ev, priceText);
    assert !IsNullish(ev) && isFree.Returns?;
    if Truthy(title) && Truthy(url) && start.date != "" {
      assert EventbriteItem(ev, parse, now)
        == Returns(Some(AsRecord(EventbriteListing(ev, title, url, start, end, priceText, isFree.value, now))));
    } else {
      assert EventbriteItem(ev, parse, now) == Returns(None);
    }
  }

  /** An event marked `isAccessibleForFree` is free whatever its offers say, and its
      offers are not even read. */
  lemma AccessibleForFreeIsFree(ev: Value, priceText: string)
    requires Get(ev, "isAccessibleForFree") == Bool(true)
    ensures EventbriteIsFree(ev, priceText) == Returns(true)
  {
  }

  /** When the free test does not throw, an event is free exactly when it is marked
      `isAccessibleForFree`, when some offer passes the offer test, or when its price text
      reads `'free'` in any case. */
  lemma EventbriteIsFreeSpec(ev: Value, priceText: string)
    requires EventbriteIsFree(ev, priceText).Returns?
    ensures var offers := Get(ev, "offers");
      EventbriteIsFree(ev, priceText).value <==>
        || Get(ev, "isAccessibleForFree") == Bool(true)
        || (Truthy(offers) && exists k :: 0 <= k < |OfferList(offers)| && OfferIsFree(OfferList(offers)[k]) == Returns(true))
        || ToLower(priceText) == "free"
  {
    var offers := Get(ev, "offers");
    if Get(ev, "isAccessibleForFree") != Bool(true) && Truthy(offers) {
      var some := AnyPasses(OfferList(offers), OfferIsFree);
      assert some.Returns?;
      if !some.value {
        assert some == Returns(false);
      }
    }
  }

  /** Any one free offer among several makes the event free, provided no offer before it
      throws. */
  lemma FreeOfferMakesFree(ev: Value, priceText: string, k: nat)
    requires Get(ev, "offers").Arr? && k < |Get(ev, "offers").items|
    requires OfferIsFree(Get(ev, "offers").items[k]) == Returns(true)
    requires forall j :: 0 <= j < k ==> OfferIsFree(Get(ev, "offers").items[j]).Returns?
    ensures EventbriteIsFree(ev, priceText) == Returns(true)
  {
    AnyPassesFinds(Get(ev, "offers").items, OfferIsFree, k);
  }

  /** The events of a page: none when it could not be fetched or was empty, else the
      mapping of its structured `Event` items. */
  function EventbriteEvents(page: Option<seq<Option<Value>>>, parse: DateParser, now: string): seq<Record> {
    match page
    case None => []
    case Some(scripts) => Collected(JsonLdItems(scripts, "Event"), ev => EventbriteItem(ev, parse, now))
  }

  /** Every event the scraper returns has a `start_date`, so the manager's filter keeps
      all of them. */
  lemma EventbriteEventsHaveStartDate(page: Option<seq<Option<Value>>>, parse: DateParser, now: string)
    ensures forall j :: 0 <= j < |EventbriteEvents(page, parse, now)| ==> "start_date" in EventbriteEvents(page, parse, now)[j]
  {
    if page.Some? {
      var map_ := ev => EventbriteItem(ev, parse, now);
      var items := JsonLdItems(page.value, "Event");
      forall k | 0 <= k < |items| && map_(items[k]).Returns? && map_(items[k]).value.Some?
        ensures "start_date" in map_(items[k]).value.value
      {
        EventbriteItemEmits(items[k], parse, now);
        EventKeysPresent();
      }
      CollectedHasKey(items, map_, "start_date");
    }
  }

  /** `scrape()`: `page` is `None` when the fetch failed or returned nothing. */
  method Scrape(page: Option<seq<Option<Value>>>, parse: DateParser, now: string) returns (events: seq<Record>)
    ensures events == EventbriteEvents(page, parse, now)
  {
    if page.None? {
      return [];
    }
    var jsonData := ExtractJsonLd(page.value, "Event");
    events := [];
    if |jsonData| > 0 {
      events := CollectEvents(jsonData, ev => EventbriteItem(ev, parse, now));
    }
  }
}
