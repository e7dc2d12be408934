/**
 * The Noblesville Parks calendar scraper. The calendar page lists events; the links to
 * their detail pages are picked, de-duplicated and capped, and each detail page is read
 * into an event.
 *
 * The HTML documents are not modelled: a page arrives as the results of the selector
 * queries the scraper makes, each the element's text (or attribute) or `None` when no
 * element matched. Fetching is not modelled either: a page that could not be fetched,
 * or came back empty, is `None`. `new URL(href, root)` and `new Date(text)` are
 * parameters.
 */
module NoblesvilleParks {
  import opened Options
  import opened Text
  import opened Js
  import opened Regex
  import opened LdEvents
  import opened EventLinks
  import opened Listings
  import opened Folds

  const ParksUrl: string := "https://www.noblesvilleparks.org/calendar.aspx"
  const ParksRoot: string := "https://www.noblesvilleparks.org"
  const DefaultPlace: string := "Noblesville, IN"

  // ---------------------------------------------------------------------------------
  // The calendar page

  /** An `a[href*="EID="]` anchor: its `href` and its text. */
  datatype Anchor = Anchor(href: string, text: string)

  /** The calendar page: for each `div.item`/`li.item` under the community calendar
      header (none when there is no header), the `href` of its first `EID=` anchor, or
      `None` when it has none; and every `EID=` anchor of the page, in document order. */
  datatype Listing = Listing(items: seq<Option<string>>, anchors: seq<Anchor>)

  /** A link is followed only when it is local and not a CivicRec link. */
  predicate KeepHref(href: string) {
    href != "" && !("http" <= href) && !Contains(href, "secure.rec1.com")
  }

  /** The fallback accepts anchors reading "More Details" in any case. */
  predicate MoreDetails(a: Anchor) {
    ToLower(Trim(a.text)) == "more details"
  }

  /** What one item adds to the structured list: the `href` of its `EID=` anchor, when
      it has one and the link is kept. */
  function ItemLink(linkElement: Option<string>): (r: seq<string>)
    ensures r == [] || (linkElement.Some? && r == [linkElement.value])
  {
    if linkElement.Some? && KeepHref(linkElement.value) then [linkElement.value] else []
  }

  /** What one anchor adds to the fallback scan: its `href` when it reads "More Details"
      and the link is kept. */
  function FallbackLink(a: Anchor): (r: seq<string>)
    ensures r == [] || r == [a.href]
  {
    if MoreDetails(a) && KeepHref(a.href) then [a.href] else []
  }

  /** The links of the structured list, in item order. */
  function ItemLinks(items: seq<Option<string>>): seq<string> {
    Gather(items, ItemLink)
  }

  /** The links of the flat fallback scan, in document order. */
  function FallbackLinks(anchors: seq<Anchor>): seq<string> {
    Gather(anchors, FallbackLink)
  }

  /** `eventLinks`: the fallback runs only when the structured list has no items. */
  function ParkLinks(l: Listing): seq<string> {
    if |l.items| == 0 then FallbackLinks(l.anchors) else ItemLinks(l.items)
  }

  /** A link comes from the structured list exactly when some item carries it and it is
      kept. */
  lemma ItemLinksSpec(items: seq<Option<string>>, x: string)
    ensures x in ItemLinks(items) <==> KeepHref(x) && exists k :: 0 <= k < |items| && items[k] == Some(x)
  {
    GatherFrom(items, ItemLink, x);
    forall k | 0 <= k < |items|
      ensures x in ItemLink(items[k]) <==> KeepHref(x) && items[k] == Some(x)
    {
    }
  }

  /** A link comes from the fallback exactly when some "More Details" anchor carries it
      and it is kept. */
  lemma FallbackLinksSpec(anchors: seq<Anchor>, x: string)
    ensures x in FallbackLinks(anchors) <==>
      KeepHref(x) && exists k :: 0 <= k < |anchors| && MoreDetails(anchors[k]) && anchors[k].href == x
  {
    GatherFrom(anchors, FallbackLink, x);
    forall k | 0 <= k < |anchors|
      ensures x in FallbackLink(anchors[k]) <==> MoreDetails(anchors[k]) && KeepHref(x) && anchors[k].href == x
    {
    }
  }

  /** Every link found is local and not a CivicRec link. */
  lemma ParkLinksKept(l: Listing)
    ensures forall x :: x in ParkLinks(l) ==> KeepHref(x)
  {
    forall x | x in ParkLinks(l) ensures KeepHref(x) {
      if |l.items| == 0 {
        FallbackLinksSpec(l.anchors, x);
      } else {
        ItemLinksSpec(l.items, x);
      }
    }
  }

  /** The loop over the structured list. */
  method CollectItemLinks(items: seq<Option<string>>) returns (eventLinks: seq<string>)
    ensures eventLinks == ItemLinks(items)
  {
    eventLinks := [];
    var i := 0;
    while i < |items|
      invariant 0 <= i <= |items|
      invariant eventLinks == ItemLinks(items[..i])
    {
      GatherStep(items, ItemLink, i);
      var linkElement := items[i];
      if linkElement.Some? && KeepHref(linkElement.value) {
        eventLinks := eventLinks + [linkElement.value];
      }
      i := i + 1;
    }
    assert items[..i] == items;
  }

  /** The fallback loop over every `EID=` anchor. */
  method CollectFallbackLinks(anchors: seq<Anchor>) returns (eventLinks: seq<string>)
    ensures eventLinks == FallbackLinks(anchors)
  {
    eventLinks := [];
    var i := 0;
    while i < |anchors|
      invariant 0 <= i <= |anchors|
      invariant eventLinks == FallbackLinks(anchors[..i])
    {
      GatherStep(anchors, FallbackLink, i);
      var link := anchors[i];
      if MoreDetails(link) && KeepHref(link.href) {
        eventLinks := eventLinks + [link.href];
      }
      i := i + 1;
    }
    assert anchors[..i] == anchors;
  }

  /** The links pushed into `eventLinks`. */
  method CollectParkLinks(l: Listing) returns (eventLinks: seq<string>)
    ensures eventLinks == ParkLinks(l)
  {
    if |l.items| == 0 {
      eventLinks := CollectFallbackLinks(l.anchors);
    } else {
      eventLinks := CollectItemLinks(l.items);
    }
  }

  /** The links followed: at most ten, all different, each one found on the page and
      kept; when fewer than eleven different links were found, all of them. */
  lemma FollowedLinks(l: Listing)
    ensures var f := FirstLinks(Dedupe(ParkLinks(l)));
      |f| <= MaxLinks && NoDuplicates(f) && forall k :: 0 <= k < |f| ==> f[k] in ParkLinks(l) && KeepHref(f[k])
    ensures |Dedupe(ParkLinks(l))| <= MaxLinks ==> forall x :: x in ParkLinks(l) ==> x in FirstLinks(Dedupe(ParkLinks(l)))
  {
    var links := ParkLinks(l);
    DedupeSpec(links);
    ParkLinksKept(l);
    var f := FirstLinks(Dedupe(links));
    assert forall k :: 0 <= k < |f| ==> f[k] == Dedupe(links)[k];
  }

  // ---------------------------------------------------------------------------------
  // A detail page

  /** The detail page: the texts of the title, date, time, location, address and cost
      elements; the text of the description container once the title and the structured
      elements are taken out of it; and the `og:image` content. */
  datatype Page = Page(title: Option<string>, date: Option<string>, time: Option<string>,
                       venue: Option<string>, address: Option<string>, cost: Option<string>,
                       container: Option<string>, image: Option<string>)

  /** The start date: `YYYY-MM-DD` of the date text read without its commas, when that
      is a valid date. */
  function ParkDate(dateText: string, parse: TextDateParser): (r: string)
    ensures r == "" <==> dateText == "" || parse(RemoveAll(dateText, ",")).None?
    ensures r != "" ==> r == DateText(parse(RemoveAll(dateText, ",")).value)
  {
    if dateText != "" && parse(RemoveAll(dateText, ",")).Some? then
      var t := parse(RemoveAll(dateText, ",")).value;
      assert |IntToString(t.year)| >= 1;
      DateText(t)
    else ""
  }

  // A line break with the white space around it: `\s*\n\s*`
  function LineBreakRun(): seq<Node> {
    [Spaces(), One(Exactly('\n')), Spaces()]
  }

  lemma LineBreakRunNeedsNewline()
    ensures Needs(LineBreakRun(), Exactly('\n'))
  {
    assert LineBreakRun()[1..][0] == One(Exactly('\n'));
    assert LeadsWith(LineBreakRun()[1..], Exactly('\n'));
  }

  /** The start and end time from the trimmed time text: none without a text, `'All Day'`
      for an all-day event, else the parts before and after the first hyphen. */
  function ParkTimes(timeText: string): Times {
    if timeText == "" then Times(None, None)
    else if ToLower(timeText) == "all day" then Times(Some("All Day"), None)
    else TimesOf(SplitBy(timeText, Hyphen()))
  }

  /** The parts of a time text without a hyphen. */
  lemma NoHyphenParts(timeText: string)
    requires timeText != "" && Trim(timeText) == timeText
    requires forall j :: 0 <= j < |timeText| ==> timeText[j] != '-'
    ensures TimesOf(SplitBy(timeText, Hyphen())) == Times(Some(timeText), None)
  {
    HyphenNeedsDash();
    forall j | 0 <= j < |timeText|
      ensures !InClass(Exactly('-'), timeText[j])
    {
    }
    NeedsNoSplit(timeText, Hyphen(), Exactly('-'));
    OnePart(timeText);
  }

  /** A single trimmed, non-empty part is the start time, and there is no end time. */
  lemma OnePart(t: string)
    requires t != "" && Trim(t) == t
    ensures TimesOf([t]) == Times(Some(t), None)
  {
    assert [t][0] == t;
  }

  /** An all-day event starts at `'All Day'` and has no end time; without a time text
      neither is set. */
  lemma ParkTimesCases(timeText: string)
    ensures ToLower(timeText) == "all day" ==> ParkTimes(timeText) == Times(Some("All Day"), None)
    ensures timeText == "" ==> ParkTimes(timeText) == Times(None, None)
  {
  }

  /** `'5:30 PM - 7:00 PM'`: a time text made of two trimmed, hyphen-free times around
      `' - '` starts at the first and ends at the second. */
  lemma HyphenTimes(a: string, b: string)
    requires a != "" && Trim(a) == a && forall j :: 0 <= j < |a| ==> a[j] != '-'
    requires b != "" && Trim(b) == b && forall j :: 0 <= j < |b| ==> b[j] != '-'
    ensures ParkTimes(a + " - " + b) == Times(Some(a), Some(b))
  {
    HyphenNotAllDay(a, b);
    SplitAroundHyphen(a, b);
    TwoParts(a, b);
  }

  /** A text with a hyphen is not `'all day'` in any case. */
  lemma HyphenNotAllDay(a: string, b: string)
    ensures ToLower(a + " - " + b) != "all day"
  {
    var t := a + " - " + b;
    assert t[|a| + 1] == '-';
    ToLowerAt(t, |a| + 1);
    assert '-' !in "all day";
    assert ToLower(t)[|a| + 1] in ToLower(t);
  }

  /** Two trimmed, non-empty parts are the start and the end time. */
  lemma TwoParts(a: string, b: string)
    requires a != "" && Trim(a) == a && b != "" && Trim(b) == b
    ensures TimesOf([a, b]) == Times(Some(a), Some(b))
  {
    assert [a, b][0] == a && [a, b][1] == b;
  }

  /** Splitting at `\s*-\s*` cuts `a + ' - ' + b` into `a` and `b` when neither holds a hyphen,
      `a` does not end with white space and `b` does not start with it. */
  lemma SplitAroundHyphen(a: string, b: string)
    requires a != "" && !IsSpace(a[|a| - 1]) && forall j :: 0 <= j < |a| ==> a[j] != '-'
    requires b != "" && !IsSpace(b[0]) && forall j :: 0 <= j < |b| ==> b[j] != '-'
    ensures SplitBy(a + " - " + b, Hyphen()) == [a, b]
  {
    var t := a + " - " + b;
    var e := |a| + 3;
    assert t[|a|] == ' ' && t[|a| + 1] == '-' && t[|a| + 2] == ' ' && t[e] == b[0];
    HyphenAt(t, |a|);
    NoMatchAround(a, b);
    calc {
      SplitBy(t, Hyphen());
      SplitLoop(t, Hyphen(), 0, 0);
      { SplitLoopSkip(t, Hyphen(), 0, 0, |a|); }
      SplitLoop(t, Hyphen(), 0, |a|);
      { SplitLoopCut(t, Hyphen(), 0, |a|); }
      [t[..|a|]] + SplitLoop(t, Hyphen(), e, e);
      { SplitLoopSkip(t, Hyphen(), e, e, |t|); SplitLoopEnd(t, Hyphen(), e); }
      [t[..|a|]] + [t[e..]];
      { assert t[..|a|] == a && t[e..] == b; }
      [a, b];
    }
  }

  /** In `a + ' - ' + b`, the separator matches nowhere inside `a` or inside `b`. */
  lemma NoMatchAround(a: string, b: string)
    requires a != "" && !IsSpace(a[|a| - 1]) && forall j :: 0 <= j < |a| ==> a[j] != '-'
    requires forall j :: 0 <= j < |b| ==> b[j] != '-'
    ensures var t := a + " - " + b;
      && (forall q :: 0 <= q < |a| ==> MatchAt(Hyphen(), t, q, map[]).None?)
      && (forall q :: |a| + 3 <= q < |t| ==> MatchAt(Hyphen(), t, q, map[]).None?)
  {
    var t := a + " - " + b;
    assert forall k :: 0 <= k < |a| ==> t[k] == a[k];
    forall q | 0 <= q < |a| && MatchAt(Hyphen(), t, q, map[]).Some?
      ensures false
    {
      HyphenMatchStart(t, q);
    }
    forall q | |a| + 3 <= q < |t| && MatchAt(Hyphen(), t, q, map[]).Some?
      ensures false
    {
      HyphenMatchStart(t, q);
    }
  }

  /** A time text without a hyphen is the start time as it stands, with no end time. */
  lemma SingleTime(timeText: string)
    requires timeText != "" && Trim(timeText) == timeText && ToLower(timeText) != "all day"
    requires forall j :: 0 <= j < |timeText| ==> timeText[j] != '-'
    ensures ParkTimes(timeText) == Times(Some(timeText), None)
  {
    NoHyphenParts(timeText);
  }

  /** The address text with each line break, and the white space around it, replaced by
      `', '`. */
  function ParkAddress(e: Option<string>): string {
    if e.Some? then ReplaceMatches(Trim(e.value), LineBreakRun(), ", ") else ""
  }

  /** An address on one line is kept as it stands. */
  lemma OneLineAddress(text: string)
    requires forall j :: 0 <= j < |Trim(text)| ==> Trim(text)[j] != '\n'
    ensures ParkAddress(Some(text)) == Trim(text)
  {
    LineBreakRunNeedsNewline();
    NeedsNoReplace(Trim(text), LineBreakRun(), Exactly('\n'), ", ");
  }

  /** The description: the container's text, trimmed, with a leading copy of the title
      taken off. */
  function ParkDescription(container: Option<string>, title: string): (r: string)
    ensures container.None? ==> r == ""
    ensures container.Some? && title <= Trim(container.value) ==> r == Trim(Trim(container.value)[|title|..])
    ensures container.Some? && !(title <= Trim(container.value)) ==> r == Trim(container.value)
  {
    if container.None? then ""
    else
      var description := Trim(container.value);
      if title <= description then Trim(description[|title|..]) else description
  }

  /** `is_free`: the cost mentions `free`, or there is no cost. */
  predicate CostIsFree(cost: string) {
    Contains(ToLower(cost), "free") || cost == ""
  }

  /** The event literal of a page with a title. */
  function ParkListing(eventUrl: string, title: string, description: string, startDate: string, times: Times,
                       venue: string, address: string, cost: string, imageUrl: string, now: string): EventListing {
    EventListing(
      Str(title),
      Str(description),
      Str(startDate),
      OptStr(times.start),
      Str(""),
      OptStr(times.end),
      Str(eventUrl),
      Str("Noblesville Parks"),
      Str(ParksUrl),
      Str("Park Event"),
      Str(if venue != "" then venue else DefaultPlace),
      Str(if venue != "" then venue else "Noblesville Park Location"),
      Str(if address != "" then address else if venue != DefaultPlace then venue else ""),
      Str(imageUrl),
      Str(""),
      Str(cost),
      if CostIsFree(cost) then Num(1) else Num(0),
      Str(now),
      Str(now))
  }

  /** `parseEventPage(eventUrl)` on the page's selector results: no event without a page
      or without a title. */
  function ParkEvent(eventUrl: string, page: Option<Page>, parse: TextDateParser, now: string): Option<Record> {
    if page.None? then None
    else
      var p := page.value;
      var title := ElementText(p.title);
      if title == "" then None
      else
        var imageUrl := if p.image.Some? then p.image.value else "";
        Some(AsRecord(ParkListing(eventUrl, title, ParkDescription(p.container, title),
                                  ParkDate(ElementText(p.date), parse), ParkTimes(ElementText(p.time)),
                                  ElementText(p.venue), ParkAddress(p.address), ElementText(p.cost), imageUrl, now)))
  }

  /** A page yields an event exactly when it was fetched and has a title. */
  lemma ParkEventExists(eventUrl: string, page: Option<Page>, parse: TextDateParser, now: string)
    ensures ParkEvent(eventUrl, page, parse, now).Some? <==> page.Some? && ElementText(page.value.title) != ""
  {
  }

  /** The event keeps its page's url, title and cost. */
  lemma ParkListingPrice(eventUrl: string, title: string, description: string, startDate: string, times: Times,
                         venue: string, address: string, cost: string, imageUrl: string, now: string)
    ensures var e := ParkListing(eventUrl, title, description, startDate, times, venue, address, cost, imageUrl, now);
      e.url == Str(eventUrl) && e.title == Str(title) && e.price == Str(cost)
  {
  }

  /** The event is free exactly when the cost mentions `free` or is missing. */
  lemma ParkListingFree(eventUrl: string, title: string, description: string, startDate: string, times: Times,
                        venue: string, address: string, cost: string, imageUrl: string, now: string)
    ensures var e := ParkListing(eventUrl, title, description, startDate, times, venue, address, cost, imageUrl, now);
      e.isFree == Num(1) <==> CostIsFree(cost)
  {
  }

  /** The location and the venue fall back to the town and to a generic park name; the
      address falls back to the venue unless that is the town. */
  lemma ParkListingPlace(eventUrl: string, title: string, description: string, startDate: string, times: Times,
                         venue: string, address: string, cost: string, imageUrl: string, now: string)
    ensures var e := ParkListing(eventUrl, title, description, startDate, times, venue, address, cost, imageUrl, now);
      && (venue != "" ==> e.location == Str(venue) && e.venue == Str(venue))
      && (venue == "" ==> e.location == Str(DefaultPlace) && e.venue == Str("Noblesville Park Location"))
  {
  }

  lemma ParkListingAddress(eventUrl: string, title: string, description: string, startDate: string, times: Times,
                           venue: string, address: string, cost: string, imageUrl: string, now: string)
    ensures var e := ParkListing(eventUrl, title, description, startDate, times, venue, address, cost, imageUrl, now);
      && (address != "" ==> e.address == Str(address))
      && (address == "" && venue != DefaultPlace ==> e.address == Str(venue))
      && (address == "" && venue == DefaultPlace ==> e.address == Str(""))
  {
  }

  // ---------------------------------------------------------------------------------
  // The scrape

  /** What following one link gives: nothing when its URL does not resolve (the error is
      caught), else the event of the page at the resolved URL. */
  function FollowLink(relativeUrl: string, resolve: UrlResolver, pages: string -> Option<Page>,
                      parse: TextDateParser, now: string): Option<Record> {
    match resolve(relativeUrl)
    case None => None
    case Some(fullEventUrl) => ParkEvent(fullEventUrl, pages(fullEventUrl), parse, now)
  }

  /** The events of the calendar: none when it could not be fetched, else those of the
      followed links, in link order. */
  function ParkEvents(main: Option<Listing>, resolve: UrlResolver, pages: string -> Option<Page>,
                      parse: TextDateParser, now: string): seq<Record> {
    if main.None? then []
    else PageEvents(FirstLinks(Dedupe(ParkLinks(main.value))), rel => FollowLink(rel, resolve, pages, parse, now))
  }

  /** `scrape()`: `main` is the calendar page, `None` when it could not be fetched or was
      empty; `pages` gives the detail page at a URL. */
  method Scrape(main: Option<Listing>, resolve: UrlResolver, pages: string -> Option<Page>,
                parse: TextDateParser, now: string) returns (allEvents: seq<Record>)
    ensures allEvents == ParkEvents(main, resolve, pages, parse, now)
  {
    if main.None? {
      return [];
    }
    var eventLinks := CollectParkLinks(main.value);
    var uniqueEventLinks := Dedupe(eventLinks);
    var linksToProcess := FirstLinks(uniqueEventLinks);
    allEvents := CollectPageEvents(linksToProcess, rel => FollowLink(rel, resolve, pages, parse, now));
  }
}
