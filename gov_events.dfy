/**
 * The City of Noblesville scraper, which reads a Markdown listing of events. The listing
 * is cut into blocks: a block opens at a bold line holding an em dash, collects the
 * lines that follow, and closes at the next such line. A bold line naming a month in
 * capitals is a section header: it discards the open block. Each closed block (and the
 * one still open at the end) becomes an event when it has a date and a title.
 *
 * Fetching the Markdown file is not modelled: its text is an input, `None` when the fetch
 * failed. `currentYear` (from the clock) and `new Date().toISOString()` are parameters.
 */
module NoblesvilleGovEvents {
  import opened Options
  import opened Text
  import opened Js
  import opened Regex
  import opened Folds
  import opened Listings

  const CompanyName: string := "City of Noblesville"
  const GovUrl: string := "https://www.noblesville.in.gov/"
  const Untitled: string := "Untitled Event"
  const EmDash: char := '\U{2014}'

  // ---------------------------------------------------------------------------------
  // The patterns

  /** `/\r?\n/`, which cuts the file into lines. */
  function LineBreak(): seq<Node> {
    [Rep(Exactly('\r'), 0, Some(1), true), One(Exactly('\n'))]
  }

  /** `(?:a\.m\.|p\.m\.|am|pm)` under the `i` flag. */
  function Meridiem(): Node {
    Alt(Lit("a.m.", true), [Alt(Lit("p.m.", true), [Alt(Lit("am", true), Lit("pm", true))])])
  }

  /** `\d{1,2}` and `(?::\d{2})?` */
  function Hour(): Node { Rep(Digit, 1, Some(2), true) }
  function OptMinutes(): Node { Alt([One(Exactly(':')), Rep(Digit, 2, Some(2), true)], []) }

  /** The time pattern: a range such as `6 - 8 p.m.`, or a single time such as `10:30 am`. */
  function TimePattern(): seq<Node> {
    [Open(1), Alt(TimeRange(), SingleTime()), Close(1)]
  }

  function TimeRange(): seq<Node> {
    [Hour(), OptMinutes(), Spaces(), Alt(Lit("to", true), [One(Exactly('-'))]), Spaces(),
     Hour(), OptMinutes(), Spaces(), Meridiem()]
  }

  function SingleTime(): seq<Node> {
    [Open(2), Hour(), One(Exactly(':')), Rep(Digit, 2, Some(2), true), Spaces(), Meridiem(), Close(2)]
  }

  /** `/—\s*(.*?)(?=\n|$)/`: the rest of the line after the first em dash that has one. */
  function TitlePattern(): seq<Node> {
    [One(Exactly(EmDash)), Spaces(), Open(1), Rep(NotLineEnd, 0, None, false), Close(1), AheadLineEnd]
  }

  /** `/\[(.*?)\]\((.*?)\)/`: a Markdown link, its text and its target. */
  function LinkPattern(): seq<Node> {
    [One(Exactly('[')), Open(1), Rep(NotLineEnd, 0, None, false), Close(1), One(Exactly(']')),
     One(Exactly('(')), Open(2), Rep(NotLineEnd, 0, None, false), Close(2), One(Exactly(')'))]
  }

  /** `\*\[.*?\]\(.*?\)\*`, applied with the `g` flag: a Markdown link set in italics. */
  function ItalicLinkPattern(): seq<Node> {
    [One(Exactly('*')), One(Exactly('[')), Rep(NotLineEnd, 0, None, false), One(Exactly(']')),
     One(Exactly('(')), Rep(NotLineEnd, 0, None, false), One(Exactly(')')), One(Exactly('*'))]
  }

  /** `/(\d{2})\/(\d{2})/` matches at `i`. */
  predicate MonthDayAt(s: string, i: nat) {
    i + 5 <= |s| && IsDigit(s[i]) && IsDigit(s[i + 1]) && s[i + 2] == '/' && IsDigit(s[i + 3]) && IsDigit(s[i + 4])
  }

  /** The leftmost match of `/(\d{2})\/(\d{2})/` at or after `from`. */
  function FindMonthDayFrom(s: string, from: nat): (r: Option<nat>)
    ensures r.Some? ==> from <= r.value && MonthDayAt(s, r.value)
    ensures r.Some? ==> forall k :: from <= k < r.value ==> !MonthDayAt(s, k)
    ensures r.None? ==> forall k: nat :: from <= k ==> !MonthDayAt(s, k)
    decreases |s| - from
  {
    if from + 5 > |s| then None
    else if MonthDayAt(s, from) then Some(from)
    else FindMonthDayFrom(s, from + 1)
  }

  function FindMonthDay(s: string): Option<nat> {
    FindMonthDayFrom(s, 0)
  }

  // ---------------------------------------------------------------------------------
  // `parseDateTime`

  /** The start date: `` `${year}-${MM}-${DD}` `` from the first `NN/NN` of the first line,
      read as month and day and padded back to two digits; `''` when there is none. */
  function StartDateOf(dateLine: string, year: int): string {
    match FindMonthDay(dateLine)
    case None => ""
    case Some(i) =>
      var month, day := DigitsValue(dateLine[i..i + 2]), DigitsValue(dateLine[i + 3..i + 5]);
      IntToString(year) + "-" + PadStart(NatToString(month), 2, '0') + "-" + PadStart(NatToString(day), 2, '0')
  }

  /** The start date is empty exactly when the first line has no `NN/NN`, and otherwise
      carries that month and day as written. */
  lemma StartDateDigits(dateLine: string, year: int)
    ensures StartDateOf(dateLine, year) == "" <==> FindMonthDay(dateLine).None?
    ensures FindMonthDay(dateLine).Some? ==>
      var i := FindMonthDay(dateLine).value;
      StartDateOf(dateLine, year) == IntToString(year) + "-" + dateLine[i..i + 2] + "-" + dateLine[i + 3..i + 5]
  {
    if FindMonthDay(dateLine).Some? {
      var i := FindMonthDay(dateLine).value;
      var mm, dd := dateLine[i..i + 2], dateLine[i + 3..i + 5];
      assert AllDigits(mm) && AllDigits(dd);
      TwoDigitsRoundTrip(mm);
      TwoDigitsRoundTrip(dd);
      var m2, d2 := PadStart(NatToString(DigitsValue(mm)), 2, '0'), PadStart(NatToString(DigitsValue(dd)), 2, '0');
      assert m2 == mm && d2 == dd;
      assert StartDateOf(dateLine, year) == IntToString(year) + "-" + m2 + "-" + d2;
    }
  }

  /** The time of a line, `line.match(timeRegex)[0].trim()`, when the pattern matches. */
  function LineTime(line: string): Option<string> {
    match Search(TimePattern(), line)
    case None => None
    case Some(m) => Some(Trim(Matched(line, m)))
  }

  /** One line of the scan: a time found replaces a start time that is unset or empty. */
  function TimeStep(before: Option<string>, here: Option<string>): Option<string> {
    if here.Some? && (before.None? || before == Some("")) then here else before
  }

  /** The start time after scanning `lines`: the first time found, kept while it is set. */
  function FirstTime(lines: seq<string>): Option<string> {
    if lines == [] then None
    else TimeStep(FirstTime(lines[..|lines| - 1]), LineTime(lines[|lines| - 1]))
  }

  /** Both alternatives of the time pattern begin with `\d{1,2}`. */
  lemma TimePatternLeadsWithDigit()
    ensures LeadsWith(TimePattern(), Digit)
  {
    var single := SingleTime();
    assert single[0] == Open(2) && single[1..][0] == Hour();
    assert LeadsWith(single[1..], Digit);
    assert LeadsWith(TimeRange(), Digit);
    assert TimePattern()[0] == Open(1) && TimePattern()[1..][0] == Alt(TimeRange(), single);
  }

  /** A match of the time pattern starts with a digit. */
  lemma TimeMatchLeadsWithDigit(line: string)
    requires Search(TimePattern(), line).Some?
    ensures var m := Search(TimePattern(), line).value;
      m.start < m.end && IsDigit(line[m.start])
  {
    var m := Search(TimePattern(), line).value;
    assert MatchAt(TimePattern(), line, m.start, map[]) == Some((m.end, m.groups));
    TimePatternLeadsWithDigit();
    LeadingClassMatches(TimePattern(), Digit, line, m.start, map[]);
  }

  /** A time found is never empty: both alternatives of the pattern begin with a digit. */
  lemma LineTimeNotEmpty(line: string)
    requires LineTime(line).Some?
    ensures LineTime(line).value != "" && IsDigit(LineTime(line).value[0])
  {
    var m := Search(TimePattern(), line).value;
    TimeMatchLeadsWithDigit(line);
    var t := Matched(line, m);
    assert t[0] == line[m.start];
    TrimKeepsHead(t);
  }

  /** The start time is the time of the first line that has one. */
  lemma {:induction false} FirstTimeIsFirstMatch(lines: seq<string>, k: nat)
    requires k < |lines| && LineTime(lines[k]).Some?
    requires forall j :: 0 <= j < k ==> LineTime(lines[j]).None?
    ensures FirstTime(lines) == LineTime(lines[k])
    decreases |lines|
  {
    var n := |lines|;
    var init := lines[..n - 1];
    var before, here := FirstTime(init), LineTime(lines[n - 1]);
    assert FirstTime(lines) == TimeStep(before, here);
    if k == n - 1 {
      NoTimeBefore(init);
    } else {
      assert init[k] == lines[k];
      FirstTimeIsFirstMatch(init, k);
      LineTimeNotEmpty(lines[k]);
      assert before.Some? && before != Some("");
    }
  }

  lemma {:induction false} NoTimeBefore(lines: seq<string>)
    requires forall j :: 0 <= j < |lines| ==> LineTime(lines[j]).None?
    ensures FirstTime(lines).None?
  {
    if lines != [] {
      var init := lines[..|lines| - 1];
      assert forall j :: 0 <= j < |init| ==> init[j] == lines[j];
      NoTimeBefore(init);
    }
  }

  /** A line stays in the description unless it is a bold line with an `NN/NN`. */
  predicate KeptInDescription(line: string) {
    FindMonthDay(line).None? || !("**" <= line)
  }

  /** What one line adds to the description: nothing, or the line without italic links,
      trimmed. */
  function DescriptionStep(line: string): seq<string> {
    if KeptInDescription(line) then [Trim(RemoveMatches(line, ItalicLinkPattern()))] else []
  }

  /** The description lines: the kept lines, with italic links removed, trimmed. */
  function DescriptionLines(lines: seq<string>): (r: seq<string>)
    ensures |r| <= |lines|
  {
    if lines == [] then []
    else DescriptionLines(lines[..|lines| - 1]) + DescriptionStep(lines[|lines| - 1])
  }

  /** Every line that is kept contributes, in order; the others contribute nothing. */
  lemma {:induction false} DescriptionLinesAppend(a: seq<string>, line: string)
    ensures DescriptionLines(a + [line]) == DescriptionLines(a) + DescriptionStep(line)
  {
    assert (a + [line])[..|a|] == a;
  }

  /** When no line of the block may be dropped, every line reaches the description. */
  lemma {:induction false} AllLinesKept(lines: seq<string>)
    requires forall j :: 0 <= j < |lines| ==> KeptInDescription(lines[j])
    ensures |DescriptionLines(lines)| == |lines|
  {
    if lines != [] {
      var init := lines[..|lines| - 1];
      assert forall j :: 0 <= j < |init| ==> init[j] == lines[j];
      AllLinesKept(init);
    }
  }

  /** One more line for the loop of `parseDateTime`. */
  lemma PrefixStep(lines: seq<string>, i: nat)
    requires i < |lines|
    ensures FirstTime(lines[..i + 1]) == TimeStep(FirstTime(lines[..i]), LineTime(lines[i]))
    ensures DescriptionLines(lines[..i + 1]) == DescriptionLines(lines[..i]) + DescriptionStep(lines[i])
  {
    assert lines[..i + 1][..i] == lines[..i] && lines[..i + 1][i] == lines[i];
  }

  /** `parseDateTime(text, currentYear, currentMonthStr)`; the month is not read. */
  method ParseDateTime(text: string, currentYear: int, currentMonthStr: string)
    returns (startDate: string, startTime: Option<string>, descriptionLines: seq<string>)
    ensures startDate == StartDateOf(Split(text, '\n')[0], currentYear)
    ensures startTime == FirstTime(Split(text, '\n'))
    ensures descriptionLines == DescriptionLines(Split(text, '\n'))
  {
    var lines := Split(text, '\n');
    var dateLine := lines[0];
    startDate := StartDateOf(dateLine, currentYear);
    startTime := None;
    descriptionLines := [];
    var i := 0;
    while i < |lines|
      invariant 0 <= i <= |lines|
      invariant startTime == FirstTime(lines[..i])
      invariant descriptionLines == DescriptionLines(lines[..i])
    {
      var line := lines[i];
      var timeMatch := LineTime(line);
      PrefixStep(lines, i);
      if timeMatch.Some? && (startTime.None? || startTime == Some("")) {
        startTime := timeMatch;
      }
      if KeptInDescription(line) {
        descriptionLines := descriptionLines + [Trim(RemoveMatches(line, ItalicLinkPattern()))];
      }
      i := i + 1;
    }
    assert lines[..i] == lines;
  }

  // ---------------------------------------------------------------------------------
  // One block

  /** The title: the text after the first em dash up to the end of its line, with bold
      markers removed and trimmed; `'Untitled Event'` without an em dash. */
  function TitleOf(text: string): string {
    match Search(TitlePattern(), text)
    case None => Untitled
    case Some(m) =>
      assert Opens(TitlePattern(), 1) by { assert TitlePattern()[2] == Open(1); }
      SearchHasGroups(TitlePattern(), text, 1);
      Trim(RemoveAll(Group(text, m, 1).value, "**"))
  }

  /** A title holds no bold marker and has no white space at either end. */
  lemma TitleIsClean(text: string)
    ensures !Contains(TitleOf(text), "**")
    ensures Trim(TitleOf(text)) == TitleOf(text)
  {
    if Search(TitlePattern(), text).Some? {
      FoundTitleIsClean(text);
    } else {
      UntitledIsClean();
    }
  }

  lemma UntitledIsClean()
    ensures !Contains(Untitled, "**") && Trim(Untitled) == Untitled
  {
    UntitledHasNoStars();
    UntitledIsTrimmed();
  }

  lemma UntitledIsTrimmed()
    ensures Trim(Untitled) == Untitled
  {
    assert Untitled[0] == 'U' && Untitled[|Untitled| - 1] == 't';
    TrimOfTrimmed(Untitled);
  }

  lemma UntitledHasNoStars()
    ensures !Contains(Untitled, "**")
  {
    assert forall k :: 0 <= k < |Untitled| ==> Untitled[k] != '*';
    AbsentWithoutHead(Untitled, "**");
  }

  lemma FoundTitleIsClean(text: string)
    requires Search(TitlePattern(), text).Some?
    ensures !Contains(TitleOf(text), "**")
    ensures Trim(TitleOf(text)) == TitleOf(text)
  {
    var m := Search(TitlePattern(), text).value;
    assert Opens(TitlePattern(), 1) by { assert TitlePattern()[2] == Open(1); }
    SearchHasGroups(TitlePattern(), text, 1);
    CleanedTitle(Group(text, m, 1).value);
  }

  /** What becomes of the captured text: bold markers removed, then trimmed. */
  lemma CleanedTitle(captured: string)
    ensures !Contains(Trim(RemoveAll(captured, "**")), "**")
    ensures Trim(Trim(RemoveAll(captured, "**"))) == Trim(RemoveAll(captured, "**"))
  {
    var raw := RemoveAll(captured, "**");
    RemoveAllStarsLeavesNone(captured);
    TrimKeepsAbsence(raw, "**");
    TrimOfTrimmed(Trim(raw));
  }

  /** The first Markdown link: its target and its text. */
  datatype Link = Link(target: string, text: string)

  function LinkOf(text: string): Option<Link> {
    match Search(LinkPattern(), text)
    case None => None
    case Some(m) =>
      assert Opens(LinkPattern(), 1) by { assert LinkPattern()[1] == Open(1); }
      assert Opens(LinkPattern(), 2) by { assert LinkPattern()[6] == Open(2); }
      SearchHasGroups(LinkPattern(), text, 1);
      SearchHasGroups(LinkPattern(), text, 2);
      Some(Link(Group(text, m, 2).value, Group(text, m, 1).value))
  }

  /** The description: the kept lines joined by spaces and trimmed, with the first
      occurrence of the title taken out and trimmed again. */
  function DescriptionOf(lines: seq<string>, title: string): string {
    Trim(RemoveFirst(Trim(Join(DescriptionLines(lines), " ")), title))
  }

  /** `is_free` is set when the description mentions `free` in any case. */
  predicate MentionsFree(description: string) {
    description != "" && Contains(ToLower(description), "free")
  }

  /** The event literal of a block that is kept. */
  function GovListing(title: string, description: string, startDate: string, startTime: Option<string>,
                      link: Option<Link>, now: string): EventListing {
    EventListing(
      Str(title),
      Str(description),
      Str(startDate),
      if startTime.Some? then Str(startTime.value) else Undefined,
      Str(""),
      Str(""),
      if link.Some? then Str(link.value.target) else Str(""),
      if link.Some? then Str(link.value.text) else Str(CompanyName),
      Str(GovUrl),
      Str("Community"),
      Str("Noblesville, IN"),
      Str(""),
      Str(""),
      Str(""),
      Str(""),
      Str(""),
      if MentionsFree(description) then Num(1) else Num(0),
      Str(now),
      Str(now))
  }

  /** The event a block yields, or `None` when it has no date or no title. */
  function GovEvent(block: seq<string>, year: int, now: string): Option<Record> {
    var text := Join(block, "\n");
    var lines := Split(text, '\n');
    var title := TitleOf(text);
    Kept(title, StartDateOf(lines[0], year), DescriptionOf(lines, title), FirstTime(lines), LinkOf(text), now)
  }

  /** A block with a date and a real title is kept as its literal; the others are dropped. */
  function Kept(title: string, startDate: string, description: string, startTime: Option<string>,
                link: Option<Link>, now: string): Option<Record> {
    if startDate != "" && title != Untitled then Some(AsRecord(GovListing(title, description, startDate, startTime, link, now)))
    else None
  }

  /** A block becomes an event exactly when its first line has an `NN/NN` and its title is
      not `'Untitled Event'`. */
  lemma GovEventShape(block: seq<string>, year: int, now: string)
    ensures var text := Join(block, "\n");
      (GovEvent(block, year, now).Some? <==> FindMonthDay(Split(text, '\n')[0]).Some? && TitleOf(text) != Untitled)
  {
    var text := Join(block, "\n");
    StartDateDigits(Split(text, '\n')[0], year);
  }

  /** The literal carries the title and the date it was given, the city's site as its
      source, `'Community'` as its category, the town as its location, and no end date or
      end time. */
  lemma GovListingShape(title: string, description: string, startDate: string, startTime: Option<string>,
                        link: Option<Link>, now: string)
    ensures var e := GovListing(title, description, startDate, startTime, link, now);
      e.title == Str(title) && e.startDate == Str(startDate) && e.source == Str(GovUrl)
      && e.endDate == Str("") && e.endTime == Str("")
      && e.category == Str("Community") && e.location == Str("Noblesville, IN")
  {
  }

  /** Its free flag is 1 exactly when the description mentions `free`, and its start time
      is the first time found, `undefined` when there was none. */
  lemma GovListingFreeAndTime(title: string, description: string, startDate: string, startTime: Option<string>,
                              link: Option<Link>, now: string)
    ensures var e := GovListing(title, description, startDate, startTime, link, now);
      (e.isFree == Num(1) <==> MentionsFree(description))
      && (startTime.Some? ==> e.startTime == Str(startTime.value))
      && (startTime.None? ==> e.startTime == Undefined)
  {
  }

  /** Its url and organizer are the link's target and text, or `''` and the city without
      a link. */
  lemma GovListingLink(title: string, description: string, startDate: string, startTime: Option<string>,
                       link: Option<Link>, now: string)
    ensures var e := GovListing(title, description, startDate, startTime, link, now);
      && (link.None? ==> e.organizer == Str(CompanyName) && e.url == Str(""))
      && (link.Some? ==> e.organizer == Str(link.value.text) && e.url == Str(link.value.target))
  {
  }

  /** The block's event, the processing at `:76-117` and `:125-164`. */
  method ProcessBlock(currentEventBuffer: seq<string>, currentYear: int, currentMonthStr: string, now: string)
    returns (event: Option<Record>)
    ensures event == GovEvent(currentEventBuffer, currentYear, now)
  {
    var eventText := Join(currentEventBuffer, "\n");
    var title := TitleOf(eventText);
    var link := LinkOf(eventText);
    var startDate, startTime, descriptionLines := ParseDateTime(eventText, currentYear, currentMonthStr);
    var description := Trim(Join(descriptionLines, " "));
    description := Trim(RemoveFirst(description, title));
    if startDate != "" && title != Untitled {
      event := Some(AsRecord(GovListing(title, description, startDate, startTime, link, now)));
    } else {
      event := None;
    }
  }

  // ---------------------------------------------------------------------------------
  // Grouping lines into blocks

  /** `line.startsWith('**')` and one of the month names in capitals. */
  predicate IsMonthHeader(line: string) {
    "**" <= line
    && (Contains(line, "JANUARY") || Contains(line, "FEBRUARY") || Contains(line, "MARCH") || Contains(line, "APRIL")
        || Contains(line, "MAY") || Contains(line, "JUNE") || Contains(line, "JULY") || Contains(line, "AUGUST")
        || Contains(line, "SEPTEMBER") || Contains(line, "OCTOBER") || Contains(line, "NOVEMBER") || Contains(line, "DECEMBER"))
  }

  /** `line.startsWith('**') && line.includes('—')` */
  predicate IsBlockStart(line: string) {
    "**" <= line && Contains(line, [EmDash])
  }

  /** The loop's state: the open block, the current month header, and the blocks closed
      so far (each of which the loop has handed to `ProcessBlock`). */
  datatype Scan = Scan(buffer: seq<string>, month: string, closed: seq<seq<string>>)

  /** One line of the loop. A header is checked first: it discards the open block. */
  function Step(st: Scan, line: string): Scan {
    if IsMonthHeader(line) then Scan([], Trim(RemoveAll(line, "**")), st.closed)
    else if IsBlockStart(line) then Scan([line], st.month, if |st.buffer| > 0 then st.closed + [st.buffer] else st.closed)
    else if |st.buffer| > 0 then Scan(st.buffer + [line], st.month, st.closed)
    else st
  }

  function ScanFrom(st: Scan, lines: seq<string>): Scan {
    if lines == [] then st else Step(ScanFrom(st, lines[..|lines| - 1]), lines[|lines| - 1])
  }

  const Start: Scan := Scan([], "", [])

  /** The blocks of a listing: those closed by the loop, then the one left open. */
  function Flush(st: Scan): seq<seq<string>> {
    if |st.buffer| > 0 then st.closed + [st.buffer] else st.closed
  }

  function Blocks(lines: seq<string>): seq<seq<string>> {
    Flush(ScanFrom(Start, lines))
  }

  lemma {:induction false} ScanFromAppend(st: Scan, a: seq<string>, b: seq<string>)
    ensures ScanFrom(st, a + b) == ScanFrom(ScanFrom(st, a), b)
    decreases |b|
  {
    if b == [] {
      assert a + b == a;
    } else {
      var b' := b[..|b| - 1];
      assert (a + b)[..|a + b| - 1] == a + b' && (a + b)[|a + b| - 1] == b[|b| - 1];
      ScanFromAppend(st, a, b');
    }
  }

  /** A well-formed block: a block-opening line that is not a header, then lines that
      neither open a block nor are headers. */
  predicate WellFormed(b: seq<string>) {
    |b| > 0 && IsBlockStart(b[0]) && !IsMonthHeader(b[0])
    && forall j :: 1 <= j < |b| ==> !IsBlockStart(b[j]) && !IsMonthHeader(b[j])
  }

  predicate ScanValid(st: Scan) {
    (|st.buffer| > 0 ==> WellFormed(st.buffer)) && forall k :: 0 <= k < |st.closed| ==> WellFormed(st.closed[k])
  }

  lemma {:induction false} ScanStaysValid(st: Scan, lines: seq<string>)
    requires ScanValid(st)
    ensures ScanValid(ScanFrom(st, lines))
  {
    if lines != [] {
      ScanStaysValid(st, lines[..|lines| - 1]);
      StepKeepsValid(ScanFrom(st, lines[..|lines| - 1]), lines[|lines| - 1]);
    }
  }

  lemma StepKeepsValid(st: Scan, line: string)
    requires ScanValid(st)
    ensures ScanValid(Step(st, line))
  {
    if !IsMonthHeader(line) && IsBlockStart(line) && |st.buffer| > 0 {
      var c := st.closed + [st.buffer];
      assert forall k :: 0 <= k < |c| ==> c[k] == if k < |st.closed| then st.closed[k] else st.buffer;
    } else if !IsMonthHeader(line) && !IsBlockStart(line) && |st.buffer| > 0 {
      var b := st.buffer + [line];
      assert forall j :: 1 <= j < |b| ==> b[j] == if j < |st.buffer| then st.buffer[j] else line;
    }
  }

  /** Every block the listing yields is well formed. */
  lemma BlocksWellFormed(lines: seq<string>)
    ensures forall k :: 0 <= k < |Blocks(lines)| ==> WellFormed(Blocks(lines)[k])
  {
    ScanStaysValid(Start, lines);
  }

  /** A block-opening line followed by ordinary lines to the end of the listing is the last
      block, and the blocks before it are those of the listing up to it. */
  lemma LastBlockFlushed(pre: seq<string>, start: string, post: seq<string>)
    requires IsBlockStart(start) && !IsMonthHeader(start)
    requires forall j :: 0 <= j < |post| ==> !IsBlockStart(post[j]) && !IsMonthHeader(post[j])
    ensures Blocks(pre + [start] + post) == Blocks(pre) + [[start] + post]
  {
    var st := ScanFrom(Start, pre + [start]);
    assert (pre + [start])[..|pre|] == pre;
    assert st == Scan([start], ScanFrom(Start, pre).month, Blocks(pre));
    ScanFromAppend(Start, pre + [start], post);
    OrdinaryLinesExtend(st, post);
  }

  lemma {:induction false} OrdinaryLinesExtend(st: Scan, post: seq<string>)
    requires |st.buffer| > 0
    requires forall j :: 0 <= j < |post| ==> !IsBlockStart(post[j]) && !IsMonthHeader(post[j])
    ensures ScanFrom(st, post) == Scan(st.buffer + post, st.month, st.closed)
  {
    if post == [] {
      assert st.buffer + post == st.buffer;
    } else {
      var init := post[..|post| - 1];
      assert forall j :: 0 <= j < |init| ==> init[j] == post[j];
      OrdinaryLinesExtend(st, init);
      assert st.buffer + init + [post[|post| - 1]] == st.buffer + post;
    }
  }

  /** A month header discards the block open before it: that block is among the blocks of
      the listing up to the line before the header, but not of the listing up to the
      header. */
  lemma HeaderDropsOpenBlock(pre: seq<string>, header: string)
    requires IsMonthHeader(header)
    ensures Blocks(pre + [header]) == ScanFrom(Start, pre).closed
    ensures |ScanFrom(Start, pre).buffer| > 0 ==>
      Blocks(pre) == Blocks(pre + [header]) + [ScanFrom(Start, pre).buffer]
  {
    assert (pre + [header])[..|pre|] == pre;
  }

  /** Lines before the first block-opening line are ignored, headers included. */
  lemma PreambleIgnored(pre: seq<string>, rest: seq<string>)
    requires forall j :: 0 <= j < |pre| ==> !IsBlockStart(pre[j]) || IsMonthHeader(pre[j])
    ensures Blocks(pre + rest) == Blocks(rest)
  {
    var st := ScanFrom(Start, pre);
    PreambleLeavesNothing(pre);
    ScanFromAppend(Start, pre, rest);
    MonthIsNotRead(st, Start, rest);
  }

  lemma {:induction false} PreambleLeavesNothing(pre: seq<string>)
    requires forall j :: 0 <= j < |pre| ==> !IsBlockStart(pre[j]) || IsMonthHeader(pre[j])
    ensures ScanFrom(Start, pre).buffer == [] && ScanFrom(Start, pre).closed == []
  {
    if pre != [] {
      var init := pre[..|pre| - 1];
      assert forall j :: 0 <= j < |init| ==> init[j] == pre[j];
      PreambleLeavesNothing(init);
    }
  }

  /** The month header never decides how lines are grouped. */
  lemma {:induction false} MonthIsNotRead(a: Scan, b: Scan, lines: seq<string>)
    requires a.buffer == b.buffer && a.closed == b.closed
    ensures ScanFrom(a, lines).buffer == ScanFrom(b, lines).buffer
    ensures ScanFrom(a, lines).closed == ScanFrom(b, lines).closed
  {
    if lines != [] {
      MonthIsNotRead(a, b, lines[..|lines| - 1]);
    }
  }

  // ---------------------------------------------------------------------------------
  // The scrape

  /** What one closed block contributes: its event, if it yields one. */
  function BlockEvent(year: int, now: string): seq<string> -> seq<Record> {
    block => var e := GovEvent(block, year, now); if e.Some? then [e.value] else []
  }

  /** The events of the blocks, in order. */
  function EventsOf(blocks: seq<seq<string>>, year: int, now: string): seq<Record> {
    Gather(blocks, BlockEvent(year, now))
  }

  /** The events of a listing: none when the file could not be read or was empty. */
  function GovEvents(content: Option<string>, year: int, now: string): seq<Record> {
    if content.None? || content.value == "" then []
    else EventsOf(Blocks(SplitBy(content.value, LineBreak())), year, now)
  }

  /** Every event the scraper returns has a `start_date`, so the manager's filter keeps
      all of them. */
  lemma EventsHaveStartDate(blocks: seq<seq<string>>, year: int, now: string)
    ensures forall j :: 0 <= j < |EventsOf(blocks, year, now)| ==> "start_date" in EventsOf(blocks, year, now)[j]
  {
    var f := BlockEvent(year, now);
    forall j | 0 <= j < |EventsOf(blocks, year, now)|
      ensures "start_date" in EventsOf(blocks, year, now)[j]
    {
      var x := EventsOf(blocks, year, now)[j];
      GatherFrom(blocks, f, x);
      var k :| 0 <= k < |blocks| && x in f(blocks[k]);
      BlockEventHasStartDate(blocks[k], year, now, x);
    }
  }

  lemma BlockEventHasStartDate(block: seq<string>, year: int, now: string, x: Record)
    requires x in BlockEvent(year, now)(block)
    ensures "start_date" in x
  {
    var e := GovEvent(block, year, now);
    assert BlockEvent(year, now)(block) == if e.Some? then [e.value] else [];
    assert e.Some?;
    InSingleton(x, e.value);
    GovEventHasStartDate(block, year, now);
  }

  lemma GovEventHasStartDate(block: seq<string>, year: int, now: string)
    ensures GovEvent(block, year, now).Some? ==> "start_date" in GovEvent(block, year, now).value
  {
    var text := Join(block, "\n");
    var lines := Split(text, '\n');
    var title, startDate := TitleOf(text), StartDateOf(lines[0], year);
    var description, startTime, link := DescriptionOf(lines, title), FirstTime(lines), LinkOf(text);
    assert GovEvent(block, year, now) == Kept(title, startDate, description, startTime, link, now);
    KeptHasStartDate(title, startDate, description, startTime, link, now);
  }

  lemma KeptHasStartDate(title: string, startDate: string, description: string, startTime: Option<string>,
                         link: Option<Link>, now: string)
    ensures var e := Kept(title, startDate, description, startTime, link, now);
      e.Some? ==> "start_date" in e.value
  {
    AsRecordKeys(GovListing(title, description, startDate, startTime, link, now));
  }

  lemma ScanStep(lines: seq<string>, i: nat)
    requires i < |lines|
    ensures ScanFrom(Start, lines[..i + 1]) == Step(ScanFrom(Start, lines[..i]), lines[i])
  {
    assert lines[..i + 1][..i] == lines[..i] && lines[..i + 1][i] == lines[i];
  }

  lemma EventsOfAppend(blocks: seq<seq<string>>, b: seq<string>, year: int, now: string)
    ensures var e := GovEvent(b, year, now);
      EventsOf(blocks + [b], year, now) == EventsOf(blocks, year, now) + (if e.Some? then [e.value] else [])
  {
    var f := BlockEvent(year, now);
    GatherSnoc(blocks, b, f);
    assert f(b) == var e := GovEvent(b, year, now); if e.Some? then [e.value] else [];
  }

  /** The open block, when there is one, goes to `ProcessBlock` and its event, if any,
      joins the events. */
  method CloseBlock(currentEventBuffer: seq<string>, currentMonthStr: string, events: seq<Record>,
                    ghost closed: seq<seq<string>>, currentYear: int, now: string)
    returns (events': seq<Record>, ghost closed': seq<seq<string>>)
    requires events == EventsOf(closed, currentYear, now)
    ensures closed' == Flush(Scan(currentEventBuffer, currentMonthStr, closed))
    ensures events' == EventsOf(closed', currentYear, now)
  {
    events', closed' := events, closed;
    if |currentEventBuffer| > 0 {
      var event := ProcessBlock(currentEventBuffer, currentYear, currentMonthStr, now);
      EventsOfAppend(closed, currentEventBuffer, currentYear, now);
      closed' := closed + [currentEventBuffer];
      if event.Some? {
        events' := events + [event.value];
      }
    }
  }

  /** One line of the loop of `scrape()`: a header resets the open block, a block-opening
      line hands the open block to `ProcessBlock` and opens a new one, any other line
      joins the open block. */
  method ScanLine(line: string, currentEventBuffer: seq<string>, currentMonthStr: string, events: seq<Record>,
                  ghost closed: seq<seq<string>>, currentYear: int, now: string)
    returns (buffer': seq<string>, month': string, events': seq<Record>, ghost closed': seq<seq<string>>)
    requires events == EventsOf(closed, currentYear, now)
    ensures Scan(buffer', month', closed') == Step(Scan(currentEventBuffer, currentMonthStr, closed), line)
    ensures events' == EventsOf(closed', currentYear, now)
  {
    buffer', month', events', closed' := currentEventBuffer, currentMonthStr, events, closed;
    if IsMonthHeader(line) {
      month' := Trim(RemoveAll(line, "**"));
      buffer' := [];
    } else if IsBlockStart(line) {
      events', closed' := CloseBlock(currentEventBuffer, currentMonthStr, events, closed, currentYear, now);
      buffer' := [line];
    } else if |currentEventBuffer| > 0 {
      buffer' := currentEventBuffer + [line];
    }
  }

  /** `scrape()`: `content` is the Markdown file's text, `None` when the fetch failed. */
  method Scrape(content: Option<string>, currentYear: int, now: string) returns (events: seq<Record>)
    ensures events == GovEvents(content, currentYear, now)
  {
    events := [];
    if content.None? || content.value == "" {
      return;
    }
    var contentLines := SplitBy(content.value, LineBreak());
    var currentMonthStr := "";
    var currentEventBuffer: seq<string> := [];
    ghost var closed: seq<seq<string>> := [];
    var i := 0;
    while i < |contentLines|
      invariant 0 <= i <= |contentLines|
      invariant ScanFrom(Start, contentLines[..i]) == Scan(currentEventBuffer, currentMonthStr, closed)
      invariant events == EventsOf(closed, currentYear, now)
    {
      ScanStep(contentLines, i);
      currentEventBuffer, currentMonthStr, events, closed :=
        ScanLine(contentLines[i], currentEventBuffer, currentMonthStr, events, closed, currentYear, now);
      i := i + 1;
    }
    assert contentLines[..i] == contentLines;
    events, closed := CloseBlock(currentEventBuffer, currentMonthStr, events, closed, currentYear, now);
    ListingEvents(content.value, contentLines, closed, currentYear, now);
  }

  /** The events of a listing are those of the blocks its lines flush to. */
  lemma ListingEvents(content: string, lines: seq<string>, blocks: seq<seq<string>>, year: int, now: string)
    requires content != "" && lines == SplitBy(content, LineBreak()) && blocks == Blocks(lines)
    ensures GovEvents(Some(content), year, now) == EventsOf(blocks, year, now)
  {
  }
}
