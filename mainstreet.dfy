/**
 * The Noblesville Main Street scraper. The events page lists events; the links to their
 * detail pages are picked, resolved against the site, de-duplicated and capped, and each
 * detail page is read into an event.
 *
 * As for the parks calendar, an HTML document is not modelled: a page arrives as the
 * results of the selector queries the scraper makes, each the element's text (or an
 * attribute) or `None` when nothing matched. A page that could not be fetched, or came
 * back empty, is `None`. `new URL(href, root)` and `new Date(text)` are parameters.
 */
module NoblesvilleMainstreet {
  import opened Options
  import opened Text
  import opened Js
  import opened Regex
  import opened LdEvents
  import opened EventLinks
  import opened Listings

  const MainstreetUrl: string := "https://www.noblesvillemainstreet.org/events"
  const Organizer: string := "Noblesville Main Street"
  const DefaultPlace: string := "Noblesville, IN"
  const Downtown: string := "Downtown Noblesville"
  const EnDash: char := '\U{2013}'

  // ---------------------------------------------------------------------------------
  // The events page

  /** The events page: the `href` attribute of each title link of the list (`None` when
      the anchor has none), and of each `a.eventlist-readmore` anchor, in document
      order. */
  datatype Listing = Listing(titleLinks: seq<Option<string>>, readMore: seq<Option<string>>)

  /** The `forEach` over some anchors: every non-empty `href` is resolved against the
      site's root and pushed. A `new URL` that throws is not caught there, so it ends the
      whole scrape. */
  function Resolved(hrefs: seq<Option<string>>, resolve: UrlResolver): Eval<seq<string>> {
    if hrefs == [] then Returns([])
    else match Resolved(hrefs[..|hrefs| - 1], resolve)
      case Throws => Throws
      case Returns(done) =>
        var h := hrefs[|hrefs| - 1];
        if h.None? || h.value == "" then Returns(done)
        else match resolve(h.value)
          case None => Throws
          case Some(fullUrl) => Returns(done + [fullUrl])
  }

  /** An `href` that is set and not empty. */
  predicate Present(h: Option<string>) {
    h.Some? && h.value != ""
  }

  /** The anchors resolve when every present `href` does; the links are then the resolved
      present `href`s and nothing else, and there are as many of them. */
  lemma {:induction false} ResolvedSpec(hrefs: seq<Option<string>>, resolve: UrlResolver)
    ensures Resolved(hrefs, resolve).Returns? <==>
      forall k :: 0 <= k < |hrefs| && Present(hrefs[k]) ==> resolve(hrefs[k].value).Some?
    ensures Resolved(hrefs, resolve).Returns? ==> forall x ::
      x in Resolved(hrefs, resolve).value <==>
      exists k :: 0 <= k < |hrefs| && Present(hrefs[k]) && resolve(hrefs[k].value) == Some(x)
    ensures Resolved(hrefs, resolve).Returns? ==>
      (Resolved(hrefs, resolve).value == [] <==> forall k :: 0 <= k < |hrefs| ==> !Present(hrefs[k]))
  {
    if hrefs != [] {
      var init, h := hrefs[..|hrefs| - 1], hrefs[|hrefs| - 1];
      ResolvedSpec(init, resolve);
      assert forall k :: 0 <= k < |init| ==> init[k] == hrefs[k];
      if Resolved(hrefs, resolve).Returns? {
        var done := Resolved(init, resolve).value;
        forall x
          ensures x in Resolved(hrefs, resolve).value <==>
            exists k :: 0 <= k < |hrefs| && Present(hrefs[k]) && resolve(hrefs[k].value) == Some(x)
        {
          if x in Resolved(hrefs, resolve).value && x !in done {
            assert Present(h) && resolve(h.value) == Some(x);
            assert Present(hrefs[|hrefs| - 1]);
          }
          if exists k :: 0 <= k < |hrefs| && Present(hrefs[k]) && resolve(hrefs[k].value) == Some(x) {
            var k :| 0 <= k < |hrefs| && Present(hrefs[k]) && resolve(hrefs[k].value) == Some(x);
            if k < |init| {
              assert init[k] == hrefs[k];
            }
          }
        }
      }
    }
  }

  /** `eventLinks`: the title links, or, only when they give no link at all, the
      read-more links. */
  function MainLinks(l: Listing, resolve: UrlResolver): Eval<seq<string>> {
    match Resolved(l.titleLinks, resolve)
    case Throws => Throws
    case Returns(links) => if links != [] then Returns(links) else Resolved(l.readMore, resolve)
  }

  /** The read-more anchors are consulted exactly when no title link has an `href`;
      otherwise the links are the resolved title links. */
  lemma MainLinksFallback(l: Listing, resolve: UrlResolver)
    ensures (forall k :: 0 <= k < |l.titleLinks| ==> !Present(l.titleLinks[k])) ==>
      MainLinks(l, resolve) == Resolved(l.readMore, resolve)
    ensures (exists k :: 0 <= k < |l.titleLinks| && Present(l.titleLinks[k])) ==>
      MainLinks(l, resolve) == Resolved(l.titleLinks, resolve)
  {
    ResolvedSpec(l.titleLinks, resolve);
  }

  /** One `forEach` over anchors. */
  method CollectLinks(hrefs: seq<Option<string>>, resolve: UrlResolver) returns (eventLinks: Eval<seq<string>>)
    ensures eventLinks == Resolved(hrefs, resolve)
  {
    var links: seq<string> := [];
    var i := 0;
    while i < |hrefs|
      invariant 0 <= i <= |hrefs|
      invariant Resolved(hrefs[..i], resolve) == Returns(links)
    {
      assert hrefs[..i + 1][..i] == hrefs[..i];
      var relativeUrl := hrefs[i];
      if relativeUrl.Some? && relativeUrl.value != "" {
        var fullUrl := resolve(relativeUrl.value);
        if fullUrl.None? {
          ResolvedThrowsOn(hrefs, resolve, i + 1);
          return Throws;
        }
        links := links + [fullUrl.value];
      }
      i := i + 1;
    }
    assert hrefs[..i] == hrefs;
    eventLinks := Returns(links);
  }

  /** Once a prefix throws, the whole sequence does. */
  lemma {:induction false} ResolvedThrowsOn(hrefs: seq<Option<string>>, resolve: UrlResolver, n: nat)
    requires n <= |hrefs| && Resolved(hrefs[..n], resolve).Throws?
    ensures Resolved(hrefs, resolve).Throws?
    decreases |hrefs| - n
  {
    if n < |hrefs| {
      assert hrefs[..n + 1][..n] == hrefs[..n];
      ResolvedThrowsOn(hrefs, resolve, n + 1);
    } else {
      assert hrefs[..n] == hrefs;
    }
  }

  // ---------------------------------------------------------------------------------
  // The patterns of a detail page

  /** `/[A-Za-z]+\s\d{1,2},\s\d{4}/`: a date such as `May 24, 2025`. */
  function DatePattern(): seq<Node> {
    [Rep(AsciiLetter, 1, None, true), One(Space), Rep(Digit, 1, Some(2), true), One(Exactly(',')),
     One(Space), Rep(Digit, 4, Some(4), true)]
  }

  /** The pattern that cuts the time paragraph into segments: `<br>`, an en dash or a
      hyphen, each with the white space around it. */
  function TimeSplit(): seq<Node> {
    [Alt([Spaces()] + Lit("<br>", false) + [Spaces()],
         [Alt([Spaces(), One(Exactly(EnDash)), Spaces()], [Spaces(), One(Exactly('-')), Spaces()])])]
  }

  /** `/\d{1,2}:\d{2}\s*(?:AM|PM)/i` */
  function TimePattern(): seq<Node> {
    [Rep(Digit, 1, Some(2), true), One(Exactly(':')), Rep(Digit, 2, Some(2), true), Spaces(),
     Alt(Lit("AM", true), Lit("PM", true))]
  }

  /** `/Location:\s*(.*)/i` and `/@\s*(.*)/i`: the rest of the line after the marker. */
  function LocationPattern(): seq<Node> {
    Lit("Location:", true) + [Spaces(), Open(1), Rep(NotLineEnd, 0, None, true), Close(1)]
  }

  function AtPattern(): seq<Node> {
    [One(Folded('@')), Spaces(), Open(1), Rep(NotLineEnd, 0, None, true), Close(1)]
  }

  /** `text.match(re)?.[0]`: the leftmost match. */
  function FirstMatch(text: string, re: seq<Node>): (r: Option<string>)
    ensures r.Some? <==> Search(re, text).Some?
  {
    match Search(re, text)
    case None => None
    case Some(m) => Some(Matched(text, m))
  }

  /** `text.match(re)?.[1]`: capture group 1 of the leftmost match. */
  function FirstCapture(text: string, re: seq<Node>): (r: Option<string>)
    requires Opens(re, 1)
    ensures r.Some? <==> Search(re, text).Some?
  {
    match Search(re, text)
    case None => None
    case Some(m) =>
      SearchHasGroups(re, text, 1);
      Some(Group(text, m, 1).value)
  }

  /** `s.substring(n)` for `n >= 0`. */
  function Substring(s: string, n: nat): (r: string)
    ensures n <= |s| ==> r == s[n..]
    ensures n > |s| ==> r == ""
  {
    if n <= |s| then s[n..] else ""
  }

  /** A time or date variable that reads as false: unset or empty. */
  predicate Falsy(o: Option<string>) {
    o.None? || o.value == ""
  }

  /** `a || b` between texts. */
  function OrElse(a: string, b: string): (r: string)
    ensures a != "" ==> r == a
    ensures a == "" ==> r == b
  {
    if a != "" then a else b
  }

  /** `el?.getAttribute(name) || ''`, where `None` is an absent element or attribute. */
  function AttrText(o: Option<string>): (r: string)
    ensures o.Some? ==> r == o.value
    ensures o.None? ==> r == ""
  {
    if o.Some? then o.value else ""
  }

  // ---------------------------------------------------------------------------------
  // A detail page

  /** The detail page: the title's text; the `datetime` attribute of `time.event-date`;
      the text of `p.event-time`; the texts of the `time.event-time-12hr` elements; the
      texts of `.eventitem-meta-date` and `.eventitem-meta-time`; the two description
      candidates; the `og:image` content and the event image's `src`; the venue link's
      text (`None` when there is no venue link) and the address span's text. */
  datatype Page = Page(
    title: Option<string>, eventDate: Option<string>, eventTime: Option<string>, timeElements: seq<string>,
    metaDate: Option<string>, metaTime: Option<string>,
    description: Option<string>, htmlParagraph: Option<string>,
    ogImage: Option<string>, image: Option<string>,
    venueLink: Option<string>, addressSpan: Option<string>)

  /** A date text read with `new Date`: its `YYYY-MM-DD` form, or `''` when the text is
      empty or not a date. */
  function ParsedDate(text: string, parse: TextDateParser): (r: string)
    ensures r != "" <==> text != "" && parse(text).Some?
    ensures r != "" ==> r == DateText(parse(text).value)
  {
    if text != "" && parse(text).Some? then
      var t := parse(text).value;
      assert |IntToString(t.year)| >= 1;
      DateText(t)
    else ""
  }

  /** The date the time paragraph gives: its first "Month D, YYYY", read as a date. */
  function ParagraphDate(paragraph: string, parse: TextDateParser): string {
    match FirstMatch(paragraph, DatePattern())
    case None => ""
    case Some(d) => ParsedDate(d, parse)
  }

  /** The three sources of the start date, in the order they are tried. */
  function DateCandidates(p: Page, parse: TextDateParser): seq<string> {
    [AttrText(p.eventDate), ParagraphDate(ElementText(p.eventTime), parse), ParsedDate(ElementText(p.metaDate), parse)]
  }

  /** The first candidate that is not empty, or `''`. */
  function FirstNonEmpty(candidates: seq<string>): (r: string)
    ensures r == "" <==> forall k :: 0 <= k < |candidates| ==> candidates[k] == ""
    ensures r != "" ==> exists k :: 0 <= k < |candidates| && candidates[k] == r
                                    && (forall j :: 0 <= j < k ==> candidates[j] == "")
  {
    if candidates == [] then ""
    else if candidates[0] != "" then candidates[0]
    else
      var r := FirstNonEmpty(candidates[1..]);
      assert forall k :: 1 <= k < |candidates| ==> candidates[k] == candidates[1..][k - 1];
      r
  }

  /** The start date: the first source of the three that yields one. */
  function PageStartDate(p: Page, parse: TextDateParser): string {
    FirstNonEmpty(DateCandidates(p, parse))
  }

  /** The time of a segment: its first `H:MM AM/PM`. */
  function SegmentTime(segment: string): Option<string> {
    FirstMatch(segment, TimePattern())
  }

  /** The times the paragraph gives: with two or more segments, the start is the first
      time in the second segment and the end is the first time in the third, or, without
      a third, the first time in the second segment past the start's length; a single
      segment gives a start only. */
  function ParagraphTimes(paragraph: string): Times {
    var parts := SplitBy(paragraph, TimeSplit());
    if |parts| > 1 then
      var start := SegmentTime(parts[1]);
      var end := if |parts| > 2 then SegmentTime(parts[2])
                 else SegmentTime(Substring(parts[1], if start.Some? then |start.value| else 0));
      Times(start, end)
    else if |parts| == 1 then Times(SegmentTime(parts[0]), None)
    else Times(None, None)
  }

  /** The times the `time.event-time-12hr` elements give: the first one's text, and the
      last one's when there are several. */
  function ElementTimes(texts: seq<string>): Times {
    Times(if |texts| > 0 then NonEmpty(Trim(texts[0])) else None,
          if |texts| > 1 then NonEmpty(Trim(texts[|texts| - 1])) else None)
  }

  /** The start and end times: from the paragraph when it has text, else from the time
      elements; when that leaves no start time, both come from the meta time text split
      at its hyphen. */
  function PageTimes(p: Page): Times {
    var paragraph := ElementText(p.eventTime);
    var t := if paragraph != "" then ParagraphTimes(paragraph) else ElementTimes(p.timeElements);
    if Falsy(t.start) then TimesOf(SplitBy(ElementText(p.metaTime), Hyphen())) else t
  }

  /** The description: the event description's text, else the first HTML paragraph's. */
  function PageDescription(p: Page): string {
    OrElse(ElementText(p.description), ElementText(p.htmlParagraph))
  }

  /** The place named in the description after `Location:`, else after `@`: the rest of
      that line up to its first comma, trimmed; `None` when neither marker is followed by
      text. The first marker found decides, even when nothing follows it. */
  function DescribedVenue(description: string): Option<string> {
    assert Opens(LocationPattern(), 1) by { assert LocationPattern()[|Lit("Location:", true)| + 1] == Open(1); }
    assert Opens(AtPattern(), 1) by { assert AtPattern()[2] == Open(1); }
    var captured := match FirstCapture(description, LocationPattern())
      case Some(c) => Some(c)
      case None => FirstCapture(description, AtPattern());
    if captured.Some? && captured.value != "" then Some(Trim(Split(captured.value, ',')[0])) else None
  }

  /** The venue: the venue link's text, else the town; when that is the town and there is
      no address, the place named in the description, if any. */
  function PageVenue(p: Page, description: string): string {
    var venue := OrElse(ElementText(p.venueLink), DefaultPlace);
    var address := PageAddress(p);
    if venue == DefaultPlace && address == "" && DescribedVenue(description).Some? then DescribedVenue(description).value
    else venue
  }

  /** The address: the span's text, read only when there is a venue link. */
  function PageAddress(p: Page): string {
    if p.venueLink.Some? then ElementText(p.addressSpan) else ""
  }

  /** `is_free`: the description or the title mentions `free` in any case. */
  predicate MentionsFree(description: string, title: string) {
    Contains(ToLower(description), "free") || Contains(ToLower(title), "free")
  }

  /** The image URL as written into the event: an absolute URL is kept, a relative one is
      resolved against the site's root, none stays `''`; `None` when resolving throws. */
  function ImageUrl(imageUrl: string, resolve: UrlResolver): (r: Option<string>)
    ensures "http" <= imageUrl ==> r == Some(imageUrl)
    ensures imageUrl == "" ==> r == Some("")
    ensures imageUrl != "" && !("http" <= imageUrl) ==> r == resolve(imageUrl)
  {
    if "http" <= imageUrl then Some(imageUrl)
    else if imageUrl != "" then resolve(imageUrl)
    else Some("")
  }

  /** The event literal of a page with a title. */
  function MainListing(eventUrl: string, title: string, description: string, startDate: string, times: Times,
                       venue: string, address: string, imageUrl: string, now: string): EventListing {
    EventListing(
      Str(title),
      Str(description),
      Str(startDate),
      OptStr(times.start),
      Str(""),
      OptStr(times.end),
      Str(eventUrl),
      Str(Organizer),
      Str(MainstreetUrl),
      Str("Community"),
      Str(venue),
      Str(if venue != DefaultPlace then venue else Downtown),
      Str(address),
      Str(imageUrl),
      Str(""),
      Str(""),
      if MentionsFree(description, title) then Num(1) else Num(0),
      Str(now),
      Str(now))
  }

  /** `parseEventPage(eventUrl)` on the page's selector results: nothing without a page,
      without a title, or when a relative image URL fails to resolve. */
  function MainEvent(eventUrl: string, page: Option<Page>, parse: TextDateParser, resolve: UrlResolver,
                     now: string): Option<Record> {
    if page.None? then None
    else
      var p := page.value;
      var title := ElementText(p.title);
      var description := PageDescription(p);
      var image := ImageUrl(OrElse(AttrText(p.ogImage), AttrText(p.image)), resolve);
      if title == "" || image.None? then None
      else Some(AsRecord(MainListing(eventUrl, title, description, PageStartDate(p, parse), PageTimes(p),
                                     PageVenue(p, description), PageAddress(p), image.value, now)))
  }

  /** The statements that read the times from the time paragraph. */
  method ParagraphTimeStatements(eventTimeParagraph: string) returns (startTime: Option<string>, endTime: Option<string>)
    ensures Times(startTime, endTime) == ParagraphTimes(eventTimeParagraph)
  {
    startTime, endTime := None, None;
    var timeParts := SplitBy(eventTimeParagraph, TimeSplit());
    if |timeParts| > 1 {
      var potentialStartTime := SegmentTime(timeParts[1]);
      if potentialStartTime.Some? {
        startTime := potentialStartTime;
      }
      if |timeParts| > 2 {
        var potentialEndTime := SegmentTime(timeParts[2]);
        if potentialEndTime.Some? {
          endTime := potentialEndTime;
        }
      } else {
        var skip := if potentialStartTime.Some? then |potentialStartTime.value| else 0;
        var endMatch := SegmentTime(Substring(timeParts[1], skip));
        if endMatch.Some? {
          endTime := endMatch;
        }
      }
    } else if |timeParts| == 1 && SegmentTime(timeParts[0]).Some? {
      startTime := SegmentTime(timeParts[0]);
    }
  }

  /** The date and time statements of `parseEventPage`, in the order the source runs
      them. */
  method PageDateAndTimes(p: Page, parse: TextDateParser)
    returns (startDate: string, startTime: Option<string>, endTime: Option<string>)
    ensures startDate == PageStartDate(p, parse)
    ensures Times(startTime, endTime) == PageTimes(p)
  {
    StartDatePrecedence(p, parse);
    EmptyParagraphNoDate(parse);
    startDate := "";
    startTime := None;
    endTime := None;
    if p.eventDate.Some? {
      startDate := AttrText(p.eventDate);
    }
    var eventTimeParagraph := ElementText(p.eventTime);
    if eventTimeParagraph != "" {
      if startDate == "" {
        var dateMatch := FirstMatch(eventTimeParagraph, DatePattern());
        if dateMatch.Some? {
          startDate := ParsedDate(dateMatch.value, parse);
        }
      }
      startTime, endTime := ParagraphTimeStatements(eventTimeParagraph);
    } else {
      var timeElements := p.timeElements;
      startTime := if |timeElements| > 0 then NonEmpty(Trim(timeElements[0])) else None;
      if |timeElements| > 1 {
        endTime := NonEmpty(Trim(timeElements[|timeElements| - 1]));
      }
      if startTime == endTime && |timeElements| == 1 {
        endTime := None;
      }
      assert Times(startTime, endTime) == ElementTimes(timeElements);
    }
    ghost var found := Times(startTime, endTime);
    assert PageTimes(p) == if Falsy(found.start) then TimesOf(SplitBy(ElementText(p.metaTime), Hyphen())) else found;
    if startDate == "" {
      var eventMetaDate := ElementText(p.metaDate);
      if eventMetaDate != "" {
        startDate := ParsedDate(eventMetaDate, parse);
      }
    }
    if Falsy(startTime) {
      var times := SplitBy(ElementText(p.metaTime), Hyphen());
      startTime := if |times| > 0 then NonEmpty(Trim(times[0])) else None;
      endTime := if |times| > 1 then NonEmpty(Trim(times[1])) else None;
      assert Times(startTime, endTime) == TimesOf(times);
    }
  }

  /** `parseEventPage(eventUrl)`: the title check, the dates and times, then the
      description, image, venue and address. */
  method ParseEventPage(eventUrl: string, page: Option<Page>, parse: TextDateParser, resolve: UrlResolver,
                        now: string) returns (event: Option<Record>)
    ensures event == MainEvent(eventUrl, page, parse, resolve, now)
  {
    if page.None? {
      return None;
    }
    var p := page.value;
    var title := ElementText(p.title);
    if title == "" {
      return None;
    }
    var startDate, startTime, endTime := PageDateAndTimes(p, parse);
    var description := OrElse(ElementText(p.description), ElementText(p.htmlParagraph));
    var imageUrl := OrElse(AttrText(p.ogImage), AttrText(p.image));
    var venue := OrElse(ElementText(p.venueLink), DefaultPlace);
    var address := "";
    if p.venueLink.Some? {
      address := ElementText(p.addressSpan);
    }
    if venue == DefaultPlace && address == "" {
      var located := DescribedVenue(description);
      if located.Some? {
        venue := located.value;
      }
    }
    var image := ImageUrl(imageUrl, resolve);
    if image.None? {
      return None;
    }
    event := Some(AsRecord(MainListing(eventUrl, title, description, startDate, Times(startTime, endTime),
                                       venue, address, image.value, now)));
  }

  // ---------------------------------------------------------------------------------
  // What is proved of a detail page

  /** A page yields an event exactly when it was fetched, has a title and its image URL
      resolves. */
  lemma MainEventExists(eventUrl: string, page: Option<Page>, parse: TextDateParser, resolve: UrlResolver, now: string)
    ensures MainEvent(eventUrl, page, parse, resolve, now).Some? <==>
      page.Some? && ElementText(page.value.title) != ""
      && ImageUrl(OrElse(AttrText(page.value.ogImage), AttrText(page.value.image)), resolve).Some?
  {
  }

  /** The start date is the `datetime` attribute when it has one; otherwise the first
      "Month D, YYYY" of the time paragraph when that reads as a date; otherwise the meta
      date when that does; otherwise `''`. */
  lemma {:induction false} StartDatePrecedence(p: Page, parse: TextDateParser)
    ensures AttrText(p.eventDate) != "" ==> PageStartDate(p, parse) == p.eventDate.value
    ensures AttrText(p.eventDate) == "" && ParagraphDate(ElementText(p.eventTime), parse) != "" ==>
      PageStartDate(p, parse) == ParagraphDate(ElementText(p.eventTime), parse)
    ensures AttrText(p.eventDate) == "" && ParagraphDate(ElementText(p.eventTime), parse) == "" ==>
      PageStartDate(p, parse) == ParsedDate(ElementText(p.metaDate), parse)
  {
    var a, b, c := AttrText(p.eventDate), ParagraphDate(ElementText(p.eventTime), parse), ParsedDate(ElementText(p.metaDate), parse);
    assert DateCandidates(p, parse) == [a, b, c];
    FirstOfThree(a, b, c);
  }

  /** The first non-empty of three candidates. */
  lemma FirstOfThree(a: string, b: string, c: string)
    ensures FirstNonEmpty([a, b, c]) == if a != "" then a else if b != "" then b else c
  {
    if a == "" {
      assert [a, b, c][1..] == [b, c];
      if b == "" {
        assert [b, c][1..] == [c];
        assert FirstNonEmpty([c]) == c by {
          assert [c][1..] == [];
        }
      }
    }
  }

  /** The paragraph's date is the first "Month D, YYYY" it holds, in `YYYY-MM-DD` form,
      when that text reads as a date; and `''` otherwise. */
  lemma ParagraphDateSpec(paragraph: string, parse: TextDateParser)
    ensures ParagraphDate(paragraph, parse) != "" <==>
      FirstMatch(paragraph, DatePattern()).Some? && parse(FirstMatch(paragraph, DatePattern()).value).Some?
    ensures ParagraphDate(paragraph, parse) != "" ==>
      ParagraphDate(paragraph, parse) == DateText(parse(FirstMatch(paragraph, DatePattern()).value).value)
  {
    if FirstMatch(paragraph, DatePattern()).Some? {
      var d := FirstMatch(paragraph, DatePattern()).value;
      assert d != "" by {
        var m := Search(DatePattern(), paragraph).value;
        assert LeadsWith(DatePattern(), AsciiLetter);
        LeadingClassMatches(DatePattern(), AsciiLetter, paragraph, m.start, map[]);
      }
    }
  }

  /** An empty paragraph holds no date. */
  lemma EmptyParagraphNoDate(parse: TextDateParser)
    ensures ParagraphDate("", parse) == ""
  {
    ParagraphDateSpec("", parse);
  }

  /** With three or more segments, the start and end times are the first times of the
      second and third segments; the time elements and meta time are not read when that
      gives a start time. */
  lemma ThreeSegmentTimes(p: Page)
    requires ElementText(p.eventTime) != ""
    requires var parts := SplitBy(ElementText(p.eventTime), TimeSplit());
      |parts| > 2 && SegmentTime(parts[1]).Some? && SegmentTime(parts[1]).value != ""
    ensures var parts := SplitBy(ElementText(p.eventTime), TimeSplit());
      PageTimes(p) == Times(SegmentTime(parts[1]), SegmentTime(parts[2]))
  {
  }

  /** A paragraph that is one segment holding a time gives that time as the start and no
      end time. */
  lemma OneSegmentTime(p: Page)
    requires ElementText(p.eventTime) != ""
    requires var parts := SplitBy(ElementText(p.eventTime), TimeSplit());
      |parts| == 1 && SegmentTime(parts[0]).Some? && SegmentTime(parts[0]).value != ""
    ensures PageTimes(p) == Times(SegmentTime(SplitBy(ElementText(p.eventTime), TimeSplit())[0]), None)
  {
  }

  /** When neither the paragraph nor the time elements give a start time, both times come
      from the meta time text, replacing any end time found before. */
  lemma MetaTimeFallback(p: Page)
    requires var paragraph := ElementText(p.eventTime);
      Falsy((if paragraph != "" then ParagraphTimes(paragraph) else ElementTimes(p.timeElements)).start)
    ensures PageTimes(p) == TimesOf(SplitBy(ElementText(p.metaTime), Hyphen()))
  {
  }

  /** A time found in a segment is never empty: the pattern begins with a digit. */
  lemma SegmentTimeNotEmpty(segment: string)
    requires SegmentTime(segment).Some?
    ensures SegmentTime(segment).value != "" && IsDigit(SegmentTime(segment).value[0])
  {
    var m := Search(TimePattern(), segment).value;
    assert LeadsWith(TimePattern(), Digit);
    LeadingClassMatches(TimePattern(), Digit, segment, m.start, map[]);
  }

  /** The venue: a venue link's text when it has one; without it, and without an
      address, the place the description names, if any; else the town. */
  lemma PageVenueSpec(p: Page, description: string)
    ensures var linked := ElementText(p.venueLink);
      && (linked != "" ==> PageVenue(p, description) == linked || (linked == DefaultPlace && PageAddress(p) == ""))
      && (linked != "" && linked != DefaultPlace ==> PageVenue(p, description) == linked)
      && (linked == "" && PageAddress(p) == "" && DescribedVenue(description).Some? ==>
            PageVenue(p, description) == DescribedVenue(description).value)
      && (linked == "" && DescribedVenue(description).None? ==> PageVenue(p, description) == DefaultPlace)
  {
  }

  /** The event's location is the venue; the town itself is written as the venue
      "Downtown Noblesville". */
  lemma MainListingPlace(eventUrl: string, title: string, description: string, startDate: string, times: Times,
                         venue: string, address: string, imageUrl: string, now: string)
    ensures var e := MainListing(eventUrl, title, description, startDate, times, venue, address, imageUrl, now);
      && e.location == Str(venue) && e.address == Str(address)
      && (venue != DefaultPlace ==> e.venue == Str(venue))
      && (venue == DefaultPlace ==> e.venue == Str(Downtown))
  {
  }

  /** The event has no end date, keeps the page's URL and dates, and is free exactly when
      its description or title mentions `free`. */
  lemma MainListingFlags(eventUrl: string, title: string, description: string, startDate: string, times: Times,
                         venue: string, address: string, imageUrl: string, now: string)
    ensures var e := MainListing(eventUrl, title, description, startDate, times, venue, address, imageUrl, now);
      && e.endDate == Str("") && e.url == Str(eventUrl) && e.startDate == Str(startDate)
      && e.imageUrl == Str(imageUrl)
      && (e.isFree == Num(1) <==> MentionsFree(description, title))
  {
  }

  // ---------------------------------------------------------------------------------
  // The scrape

  /** The events of the followed links, in link order, each page read by
      `parseEventPage`. */
  function MainEvents(main: Option<Listing>, resolve: UrlResolver, pages: string -> Option<Page>,
                      parse: TextDateParser, now: string): Eval<seq<Record>> {
    if main.None? then Returns([])
    else match MainLinks(main.value, resolve)
      case Throws => Throws
      case Returns(links) => Returns(PageEvents(FirstLinks(Dedupe(links)), PageReader(resolve, pages, parse, now)))
  }

  /** The event `parseEventPage` reads from the page at a URL. */
  function PageReader(resolve: UrlResolver, pages: string -> Option<Page>, parse: TextDateParser, now: string): PageParser {
    url => MainEvent(url, pages(url), parse, resolve, now)
  }

  /** The links followed are at most ten, all different, each one found on the page. */
  lemma FollowedMainLinks(l: Listing, resolve: UrlResolver)
    requires MainLinks(l, resolve).Returns?
    ensures var links := MainLinks(l, resolve).value; var f := FirstLinks(Dedupe(links));
      |f| <= MaxLinks && NoDuplicates(f) && forall k :: 0 <= k < |f| ==> f[k] in links
  {
    var links := MainLinks(l, resolve).value;
    DedupeSpec(links);
    var f := FirstLinks(Dedupe(links));
    assert forall k :: 0 <= k < |f| ==> f[k] == Dedupe(links)[k];
  }

  /** The two `forEach` loops that fill `eventLinks`: the title links, then the
      read-more anchors only when the title links gave nothing. */
  method CollectMainLinks(l: Listing, resolve: UrlResolver) returns (eventLinks: Eval<seq<string>>)
    ensures eventLinks == MainLinks(l, resolve)
  {
    eventLinks := CollectLinks(l.titleLinks, resolve);
    if eventLinks.Returns? && eventLinks.value == [] {
      eventLinks := CollectLinks(l.readMore, resolve);
    }
  }

  /** `scrape()`: `main` is the events page, `None` when it could not be fetched or was
      empty; `pages` gives the detail page at a URL. */
  method Scrape(main: Option<Listing>, resolve: UrlResolver, pages: string -> Option<Page>,
                parse: TextDateParser, now: string) returns (r: Eval<seq<Record>>)
    ensures r == MainEvents(main, resolve, pages, parse, now)
  {
    if main.None? {
      return Returns([]);
    }
    var eventLinks := CollectMainLinks(main.value, resolve);
    if eventLinks.Throws? {
      return Throws;
    }
    var uniqueEventLinks := Dedupe(eventLinks.value);
    var linksToProcess := FirstLinks(uniqueEventLinks);
    var allEvents := CollectPageEvents(linksToProcess, PageReader(resolve, pages, parse, now));
    r := Returns(allEvents);
  }
}
