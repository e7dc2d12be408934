/**
 * What the two JSON-LD event scrapers share: the date and time texts built from a
 * parsed `startDate`/`endDate`, the location and offer rules that read a structured
 * `Event`, and the loop that maps each item and skips the ones whose mapping throws.
 *
 * `new Date(raw)` and its local-time getters are not modelled: a `DateParser` gives,
 * for a raw value, the calendar fields of the instant it denotes, or `None` when the
 * date is invalid (`NaN`).
 */
module LdEvents {
  import opened Options
  import opened Text
  import opened Js

  /** `getFullYear()`, `getMonth() + 1`, `getDate()`, `getHours()`, `getMinutes()`. */
  datatype Instant = Instant(year: int, month: nat, day: nat, hours: nat, minutes: nat)

  type DateParser = Value -> Option<Instant>

  /** `String(n).padStart(2, '0')` */
  function Two(n: nat): string {
    PadStart(NatToString(n), 2, '0')
  }

  /** A number below 100 becomes exactly two digits that read back as it. */
  lemma TwoDigits(n: nat)
    requires n < 100
    ensures |Two(n)| == 2 && AllDigits(Two(n)) && DigitsValue(Two(n)) == n
  {
    var t := Two(n);
    if n < 10 {
      assert NatToString(n) == [DigitChar(n)];
      assert t == ['0', DigitChar(n)];
      assert t[..1] == ['0'];
      assert DigitsValue(t[..1]) == 0 by {
        assert t[..1][..0] == [];
      }
    } else {
      assert n / 10 < 10;
      assert NatToString(n / 10) == [DigitChar(n / 10)];
      assert NatToString(n) == [DigitChar(n / 10), DigitChar(n % 10)];
      assert t == NatToString(n);
      assert t[..1] == [DigitChar(n / 10)];
      assert DigitsValue(t[..1]) == n / 10 by {
        assert t[..1][..0] == [];
      }
    }
  }

  /** `` `${y}-${mm}-${dd}` `` */
  function DateText(t: Instant): string {
    IntToString(t.year) + "-" + Two(t.month) + "-" + Two(t.day)
  }

  /** `` `${hh}:${mm}` `` */
  function TimeText(t: Instant): string {
    Two(t.hours) + ":" + Two(t.minutes)
  }

  /** The date text is never empty and ends in the month and day, two digits each. */
  lemma DateTextRoundTrip(t: Instant)
    requires t.month < 100 && t.day < 100
    ensures var d := DateText(t);
      |d| >= 7 && d[|d| - 3] == '-' && d[|d| - 6] == '-'
      && AllDigits(d[|d| - 5..|d| - 3]) && DigitsValue(d[|d| - 5..|d| - 3]) == t.month
      && AllDigits(d[|d| - 2..]) && DigitsValue(d[|d| - 2..]) == t.day
  {
    TwoDigits(t.month);
    TwoDigits(t.day);
    var y, mm, dd := IntToString(t.year), Two(t.month), Two(t.day);
    assert |y| >= 1;
    assert DateText(t) == y + "-" + mm + "-" + dd;
    DateSlices(y, mm, dd);
  }

  lemma DateSlices(y: string, mm: string, dd: string)
    requires |y| >= 1 && |mm| == 2 && |dd| == 2
    ensures var d := y + "-" + mm + "-" + dd;
      |d| >= 7 && d[|d| - 3] == '-' && d[|d| - 6] == '-' && d[|d| - 5..|d| - 3] == mm && d[|d| - 2..] == dd
  {
    var d := y + "-" + mm + "-" + dd;
    assert d[|d| - 5..|d| - 3] == mm;
    assert d[|d| - 2..] == dd;
  }

  /** The hour and minute read back from the time text. */
  lemma TimeTextRoundTrip(t: Instant)
    requires t.hours < 100 && t.minutes < 100
    ensures |TimeText(t)| == 5 && TimeText(t)[2] == ':'
    ensures AllDigits(TimeText(t)[..2]) && DigitsValue(TimeText(t)[..2]) == t.hours
    ensures AllDigits(TimeText(t)[3..]) && DigitsValue(TimeText(t)[3..]) == t.minutes
  {
    var h, m := Two(t.hours), Two(t.minutes);
    TwoDigits(t.hours);
    TwoDigits(t.minutes);
    Slices(h, ":", m);
    assert TimeText(t)[..2] == h;
    assert TimeText(t)[3..] == m;
  }

  lemma Slices(a: string, b: string, c: string)
    ensures (a + b + c)[..|a|] == a && (a + b + c)[|a| + |b|..] == c
  {
  }

  /** A date field: the date text and the time text when the raw value is truthy and a
      valid date, else `''` and `undefined`. */
  datatype DateField = DateField(date: string, time: Value)

  function ParseDateField(raw: Value, parse: DateParser): (r: DateField)
    ensures r.date != "" <==> Truthy(raw) && parse(raw).Some?
    ensures r.date == "" ==> r.time == Undefined
    ensures r.date != "" ==> r.date == DateText(parse(raw).value) && r.time == Str(TimeText(parse(raw).value))
  {
    if Truthy(raw) && parse(raw).Some? then
      var t := parse(raw).value;
      assert |IntToString(t.year)| >= 1;
      DateField(DateText(t), Str(TimeText(t)))
    else DateField("", Undefined)
  }

  /** `ev.location?.address?.<k>` */
  function AddressPart(ev: Value, k: string): Value {
    OptProp(OptProp(Get(ev, "location"), "address"), k)
  }

  /** The location: the place's name, else "locality, region", else the locality, else
      the scraper's default. It is never falsy when the default is not empty. */
  function LocationText(ev: Value, default: string): (r: Value)
    requires default != ""
    ensures Truthy(r)
    ensures var name := OptProp(Get(ev, "location"), "name");
      var locality, region := AddressPart(ev, "addressLocality"), AddressPart(ev, "addressRegion");
      && (Truthy(name) ==> r == name)
      && (!Truthy(name) && Truthy(locality) && Truthy(region) ==> r == Str(ToStr(locality) + ", " + ToStr(region)))
      && (!Truthy(name) && Truthy(locality) && !Truthy(region) ==> r == locality)
      && (!Truthy(name) && !Truthy(locality) ==> r == Str(default))
  {
    var name := OptProp(Get(ev, "location"), "name");
    var locality, region := AddressPart(ev, "addressLocality"), AddressPart(ev, "addressRegion");
    if Truthy(name) then name
    else if Truthy(locality) && Truthy(region) then Str(ToStr(locality) + ", " + ToStr(region))
    else if Truthy(locality) then locality
    else Str(default)
  }

  /** `Array.isArray(offers) ? offers[0] : offers`: only the first offer sets the price. */
  function FirstOffer(offers: Value): Value {
    if offers.Arr? then First(offers.items) else offers
  }

  /** `(Array.isArray(offers) ? offers : [offers])`: every offer is examined for a free one. */
  function OfferList(offers: Value): seq<Value> {
    if offers.Arr? then offers.items else [offers]
  }

  /** `` `${amount} ${currency || ''}`.trim() `` */
  function PriceWithCurrency(amount: Value, currency: Value): string {
    Trim(ToStr(amount) + " " + ToStr(Or(currency, Str(""))))
  }

  /** The price text read from an offer's `price`, else from its
      `priceSpecification.price`; `None` when neither is truthy. */
  function OfferPriceText(offer: Value): (r: Option<string>)
    ensures r.None? <==> !Truthy(OptProp(offer, "price")) && !Truthy(OptProp(OptProp(offer, "priceSpecification"), "price"))
    ensures Truthy(OptProp(offer, "price")) ==> r == Some(PriceWithCurrency(Get(offer, "price"), Get(offer, "priceCurrency")))
    ensures !Truthy(OptProp(offer, "price")) && Truthy(OptProp(OptProp(offer, "priceSpecification"), "price")) ==>
      var spec := OptProp(offer, "priceSpecification");
      r == Some(PriceWithCurrency(Get(spec, "price"), Get(spec, "priceCurrency")))
  {
    if Truthy(OptProp(offer, "price")) then Some(PriceWithCurrency(Get(offer, "price"), Get(offer, "priceCurrency")))
    else
      var spec := OptProp(offer, "priceSpecification");
      if Truthy(OptProp(spec, "price")) then Some(PriceWithCurrency(Get(spec, "price"), Get(spec, "priceCurrency")))
      else None
  }

  /** `Array.isArray(image) ? image[0] : image || ''` */
  function ImageUrl(image: Value): Value {
    if image.Arr? then First(image.items) else Or(image, Str(""))
  }

  /** The tags: an array of keywords joined with `', '`, a string as it is, else `''`. */
  function Tags(keywords: Value): (r: string)
    ensures keywords.Arr? ==> r == JoinElements(keywords.items, ", ")
    ensures keywords.Str? ==> r == keywords.s
    ensures !keywords.Str? && !keywords.Arr? ==> r == ""
  {
    if keywords.Arr? then JoinElements(keywords.items, ", ")
    else if keywords.Str? then keywords.s
    else ""
  }

  /** The items' mapping, keeping the emitted events in item order; an item whose
      mapping throws, or that is rejected, adds nothing. */
  function Collected(items: seq<Value>, map_: Value -> Eval<Option<Record>>): (r: seq<Record>)
    ensures |r| <= |items|
  {
    if items == [] then []
    else
      var rest := Collected(items[1..], map_);
      match map_(items[0])
      case Returns(Some(ev)) => [ev] + rest
      case _ => rest
  }

  lemma {:induction false} CollectedAppend(a: seq<Value>, b: seq<Value>, map_: Value -> Eval<Option<Record>>)
    ensures Collected(a + b, map_) == Collected(a, map_) + Collected(b, map_)
  {
    if a == [] {
      assert a + b == b;
    } else {
      assert (a + b)[0] == a[0] && (a + b)[1..] == a[1..] + b;
      CollectedAppend(a[1..], b, map_);
    }
  }

  /** An item whose mapping throws is skipped alone: the others give what they would
      without it. */
  lemma FailingItemSkipped(before: seq<Value>, bad: Value, after: seq<Value>, map_: Value -> Eval<Option<Record>>)
    requires map_(bad).Throws?
    ensures Collected(before + [bad] + after, map_) == Collected(before + after, map_)
  {
    CollectedAppend(before + [bad], after, map_);
    CollectedAppend(before, [bad], map_);
    assert [bad][1..] == [];
    CollectedAppend(before, after, map_);
  }

  /** What an item's mapping emits is among the collected events. */
  lemma {:induction false} EmittedIsCollected(items: seq<Value>, map_: Value -> Eval<Option<Record>>, k: nat)
    requires k < |items| && map_(items[k]).Returns? && map_(items[k]).value.Some?
    ensures map_(items[k]).value.value in Collected(items, map_)
  {
    if k > 0 {
      assert items[1..][k - 1] == items[k];
      EmittedIsCollected(items[1..], map_, k - 1);
    }
  }

  /** When every emitted event has `key`, so does everything collected. */
  lemma {:induction false} CollectedHasKey(items: seq<Value>, map_: Value -> Eval<Option<Record>>, key: string)
    requires forall k :: 0 <= k < |items| && map_(items[k]).Returns? && map_(items[k]).value.Some? ==> key in map_(items[k]).value.value
    ensures forall j :: 0 <= j < |Collected(items, map_)| ==> key in Collected(items, map_)[j]
  {
    if items != [] {
      assert forall k :: 1 <= k < |items| ==> items[1..][k - 1] == items[k];
      CollectedHasKey(items[1..], map_, key);
    }
  }

  /** The `for … of` loop with its per-item `try`/`catch`. */
  method CollectEvents(items: seq<Value>, map_: Value -> Eval<Option<Record>>) returns (events: seq<Record>)
    ensures events == Collected(items, map_)
  {
    events := [];
    var i := 0;
    while i < |items|
      invariant 0 <= i <= |items|
      invariant events + Collected(items[i..], map_) == Collected(items, map_)
    {
      assert items[i..][0] == items[i] && items[i..][1..] == items[i + 1..];
      var rest := Collected(items[i + 1..], map_);
      match map_(items[i]) {
        case Returns(Some(ev)) =>
          assert Collected(items[i..], map_) == [ev] + rest;
          events := events + [ev];
        case Returns(None) =>
        case Throws =>
      }
      i := i + 1;
    }
  }
}
