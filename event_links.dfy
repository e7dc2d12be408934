/**
 * What the two calendar scrapers of Noblesville share: the links found on the listing
 * page are de-duplicated with `[...new Set(links)]`, at most ten of them are followed,
 * and the detail page behind each one yields an event or nothing. Both read an element's
 * trimmed text the same way and split a time text such as `6:00 PM - 8:00 PM` at its
 * hyphen.
 */
module EventLinks {
  import opened Options
  import opened Text
  import opened Js
  import opened Regex
  import opened LdEvents

  /** `new URL(href, root).toString()`, or `None` when it throws. */
  type UrlResolver = string -> Option<string>

  /** `new Date(text)`: the calendar fields, or `None` for an invalid date. */
  type TextDateParser = string -> Option<Instant>

  /** `el?.textContent?.trim() || ''`, where `None` stands for an element that is absent. */
  function ElementText(e: Option<string>): (r: string)
    ensures e.None? ==> r == ""
    ensures e.Some? ==> r == Trim(e.value)
  {
    if e.Some? then Trim(e.value) else ""
  }

  /** `text || undefined` */
  function NonEmpty(text: string): (r: Option<string>)
    ensures r.None? <==> text == ""
    ensures r.Some? ==> r.value == text
  {
    if text == "" then None else Some(text)
  }

  /** An optional text as the value written into the event literal. */
  function OptStr(o: Option<string>): Value {
    if o.Some? then Str(o.value) else Undefined
  }

  /** The hyphen with the white space around it: `\s*-\s*` */
  function Hyphen(): seq<Node> {
    [Spaces(), One(Exactly('-')), Spaces()]
  }

  lemma HyphenNeedsDash()
    ensures Needs(Hyphen(), Exactly('-'))
  {
    assert Hyphen()[1..][0] == One(Exactly('-'));
    assert LeadsWith(Hyphen()[1..], Exactly('-'));
  }

  /** A match of `\s*-\s*` starts with white space up to a hyphen. */
  lemma HyphenMatchStart(t: string, q: nat)
    requires q <= |t| && MatchAt(Hyphen(), t, q, map[]).Some?
    ensures exists j :: q <= j < |t| && t[j] == '-' && forall m :: q <= m < j ==> IsSpace(t[m])
  {
    var rest := Hyphen()[1..];
    var avail := Run(Space, t, q, None);
    var n := GreedyFindsRest(rest, t, q, 0, avail, map[]);
    assert forall m :: q <= m < q + n ==> InClass(Space, t[m]);
    assert MatchAt(rest, t, q + n, map[]).Some?;
    assert Run(Exactly('-'), t, q + n, Some(1)) >= 1;
    assert t[q + n] == '-';
  }

  /** At `' - '` followed by a non-space or the end, `\s*-\s*` matches the three
      characters. */
  lemma HyphenAt(t: string, i: nat)
    requires i + 3 <= |t| && t[i] == ' ' && t[i + 1] == '-' && t[i + 2] == ' '
    requires i + 3 < |t| ==> !IsSpace(t[i + 3])
    ensures MatchAt(Hyphen(), t, i, map[]).Some? && MatchAt(Hyphen(), t, i, map[]).value.0 == i + 3
  {
    var end: nat, none: Captures := i + 3, map[];
    var tail := [Spaces()];
    assert Run(Space, t, i + 2, None) == 1;
    assert MatchAt([], t, end, none) == Some((end, none));
    assert Greedy([], t, i + 2, 0, 1, none) == Some((end, none));
    assert MatchAt(tail, t, i + 2, none) == Some((end, none));
    assert Run(Exactly('-'), t, i + 1, Some(1)) == 1;
    assert [One(Exactly('-'))] + tail == Hyphen()[1..];
    assert MatchAt(Hyphen()[1..], t, i + 1, none) == Some((end, none));
    assert Run(Space, t, i, None) == 1;
  }

  /** A start time and an end time, each `undefined` when absent. */
  datatype Times = Times(start: Option<string>, end: Option<string>)

  /** `parts[0]?.trim() || undefined` and `parts[1]?.trim() || undefined` */
  function TimesOf(parts: seq<string>): Times {
    Times(if |parts| > 0 then NonEmpty(Trim(parts[0])) else None,
          if |parts| > 1 then NonEmpty(Trim(parts[1])) else None)
  }

  /** `slice(0, 10)` */
  const MaxLinks: nat := 10

  predicate NoDuplicates(s: seq<string>) {
    forall i, j :: 0 <= i < j < |s| ==> s[i] != s[j]
  }

  /** `[...new Set(s)]`: each link once, at the place where it first occurs. */
  function Dedupe(s: seq<string>): (r: seq<string>)
    ensures |r| <= |s|
  {
    if s == [] then []
    else
      var init := s[..|s| - 1];
      Dedupe(init) + (if s[|s| - 1] in init then [] else [s[|s| - 1]])
  }

  /** The de-duplicated links are exactly the links found, each once. */
  lemma {:induction false} DedupeSpec(s: seq<string>)
    ensures NoDuplicates(Dedupe(s))
    ensures forall x :: x in Dedupe(s) <==> x in s
  {
    if s != [] {
      var init, last := s[..|s| - 1], s[|s| - 1];
      DedupeSpec(init);
      assert s == init + [last];
      forall x ensures x in s <==> x in init || x == last {
      }
    }
  }

  /** A list without repetitions is kept as it is. */
  lemma {:induction false} DedupeKeepsDistinct(s: seq<string>)
    requires NoDuplicates(s)
    ensures Dedupe(s) == s
  {
    if s != [] {
      var init := s[..|s| - 1];
      assert NoDuplicates(init);
      DedupeKeepsDistinct(init);
      assert s[|s| - 1] !in init;
    }
  }

  /** Links that occur again later change nothing: the first occurrence fixes the place. */
  lemma DedupeSkipsRepeat(s: seq<string>, x: string)
    requires x in s
    ensures Dedupe(s + [x]) == Dedupe(s)
  {
    assert (s + [x])[..|s|] == s;
  }

  /** The links that are followed. */
  function FirstLinks(s: seq<string>): (r: seq<string>)
    ensures |r| <= MaxLinks && r <= s
    ensures |s| <= MaxLinks ==> r == s
  {
    if |s| <= MaxLinks then s else s[..MaxLinks]
  }

  /** How a detail page turns out: `None` when it was not fetched, had no title, or
      parsing it threw. */
  type PageParser = string -> Option<Record>

  /** The events of the followed links, in link order. */
  function PageEvents(links: seq<string>, page: PageParser): (r: seq<Record>)
    ensures |r| <= |links|
  {
    if links == [] then []
    else (if page(links[0]).Some? then [page(links[0]).value] else []) + PageEvents(links[1..], page)
  }

  /** Every event found on a followed page is among the results. */
  lemma {:induction false} PageEventFound(links: seq<string>, page: PageParser, k: nat)
    requires k < |links| && page(links[k]).Some?
    ensures page(links[k]).value in PageEvents(links, page)
  {
    if k > 0 {
      assert links[1..][k - 1] == links[k];
      PageEventFound(links[1..], page, k - 1);
    }
  }

  /** Pages that yield nothing are skipped without affecting the others. */
  lemma {:induction false} PageEventsAppend(a: seq<string>, b: seq<string>, page: PageParser)
    ensures PageEvents(a + b, page) == PageEvents(a, page) + PageEvents(b, page)
  {
    if a == [] {
      assert a + b == b;
    } else {
      assert (a + b)[0] == a[0] && (a + b)[1..] == a[1..] + b;
      var head := if page(a[0]).Some? then [page(a[0]).value] else [];
      assert PageEvents(a + b, page) == head + PageEvents(a[1..] + b, page);
      PageEventsAppend(a[1..], b, page);
      assert PageEvents(a, page) == head + PageEvents(a[1..], page);
    }
  }

  /** The events from the `i`-th link on: that link's event, then those of the rest. */
  lemma PageEventsFrom(links: seq<string>, i: nat, page: PageParser)
    requires i < |links|
    ensures PageEvents(links[i..], page)
      == (if page(links[i]).Some? then [page(links[i]).value] else []) + PageEvents(links[i + 1..], page)
  {
    assert links[i..][0] == links[i] && links[i..][1..] == links[i + 1..];
  }

  /** The `for … of` loop over the followed links: each page that yields an event adds it. */
  method CollectPageEvents(links: seq<string>, page: PageParser) returns (allEvents: seq<Record>)
    ensures allEvents == PageEvents(links, page)
  {
    allEvents := [];
    var i := 0;
    while i < |links|
      invariant 0 <= i <= |links|
      invariant allEvents + PageEvents(links[i..], page) == PageEvents(links, page)
    {
      PageEventsFrom(links, i, page);
      var event := page(links[i]);
      if event.Some? {
        allEvents := allEvents + [event.value];
      }
      i := i + 1;
    }
  }
}
