/**
 * What every scraper inherits: collecting structured-data (JSON-LD) items of one
 * `@type` from a page, and the default normalisation of a job posting.
 *
 * The page's `<script type="application/ld+json">` contents are given already
 * parsed, in document order: `None` is a text `JSON.parse` rejects (an empty text is
 * parsed as `{}`, so it arrives as `Some(Obj([]))`).
 */
module BaseScraper {
  import opened Options
  import opened Text
  import opened Js

  const JobPosting: string := "JobPosting"

  /** `item['@type'] === type` on an item that is not `null` or `undefined`. */
  predicate HasType(item: Value, typ: string) {
    Get(item, "@type") == Str(typ)
  }

  /** `items.forEach(item => { if (item['@type'] === type) results.push(item) })`:
      the items of the type, up to the first `null` or `undefined` element, where reading
      `'@type'` throws and ends the walk. */
  function MatchingPrefix(items: seq<Value>, typ: string): (r: seq<Value>)
    ensures |r| <= |items|
    ensures forall k :: 0 <= k < |r| ==> HasType(r[k], typ)
  {
    if items == [] || IsNullish(items[0]) then []
    else (if HasType(items[0], typ) then [items[0]] else []) + MatchingPrefix(items[1..], typ)
  }

  /** What one script contributes: an array's items of the type; a single item of the
      type; else the items of the type in a truthy `itemListElement`, which must be an
      array (any other value has no `forEach`, so the call throws). A script that fails to
      parse, or parses to `null`, is caught and contributes nothing. */
  function ScriptItems(content: Option<Value>, typ: string): (r: seq<Value>)
    ensures forall k :: 0 <= k < |r| ==> HasType(r[k], typ)
  {
    match content
    case None => []
    case Some(v) =>
      if v.Arr? then MatchingPrefix(v.items, typ)
      else if IsNullish(v) then []
      else if HasType(v, typ) then [v]
      else
        var list := Get(v, "itemListElement");
        if Truthy(list) && list.Arr? then MatchingPrefix(list.items, typ) else []
  }

  /** The results of `extractJsonLd`: each script's items, in document order. */
  function JsonLdItems(scripts: seq<Option<Value>>, typ: string): (r: seq<Value>)
    ensures forall k :: 0 <= k < |r| ==> HasType(r[k], typ)
  {
    if scripts == [] then []
    else ScriptItems(scripts[0], typ) + JsonLdItems(scripts[1..], typ)
  }

  lemma {:induction false} JsonLdItemsAppend(a: seq<Option<Value>>, b: seq<Option<Value>>, typ: string)
    ensures JsonLdItems(a + b, typ) == JsonLdItems(a, typ) + JsonLdItems(b, typ)
  {
    if a == [] {
      assert a + b == b;
    } else {
      assert (a + b)[0] == a[0] && (a + b)[1..] == a[1..] + b;
      JsonLdItemsAppend(a[1..], b, typ);
    }
  }

  /** A script that does not parse does not disturb the others: the results are those of
      the page without it. */
  lemma UnparsableScriptIsSkipped(before: seq<Option<Value>>, after: seq<Option<Value>>, typ: string)
    ensures JsonLdItems(before + [None] + after, typ) == JsonLdItems(before + after, typ)
  {
    var none: Option<Value> := None;
    JsonLdItemsAppend(before + [none], after, typ);
    JsonLdItemsAppend(before, [none], typ);
    JsonLdItemsOne(none, typ);
    assert JsonLdItems(before + [none], typ) == JsonLdItems(before, typ);
    JsonLdItemsAppend(before, after, typ);
  }

  /** A page of one script has that script's items. */
  lemma JsonLdItemsOne(content: Option<Value>, typ: string)
    ensures JsonLdItems([content], typ) == ScriptItems(content, typ)
  {
    assert [content][1..] == [];
  }

  /** One more script for the loop of `extractJsonLd`. */
  lemma JsonLdItemsStep(scripts: seq<Option<Value>>, i: nat, typ: string)
    requires i < |scripts|
    ensures JsonLdItems(scripts[..i + 1], typ) == JsonLdItems(scripts[..i], typ) + ScriptItems(scripts[i], typ)
  {
    assert scripts[..i + 1] == scripts[..i] + [scripts[i]];
    JsonLdItemsAppend(scripts[..i], [scripts[i]], typ);
    JsonLdItemsOne(scripts[i], typ);
  }

  /** An array element that is `null` ends that script's walk, but what was collected
      before it stays. */
  lemma NullItemEndsTheWalk(before: seq<Value>, bad: Value, after: seq<Value>, typ: string)
    requires IsNullish(bad)
    requires forall k :: 0 <= k < |before| ==> !IsNullish(before[k])
    ensures ScriptItems(Some(Arr(before + [bad] + after)), typ) == ScriptItems(Some(Arr(before)), typ)
  {
    MatchingPrefixStops(before, bad, after, typ);
  }

  lemma {:induction false} MatchingPrefixStops(before: seq<Value>, bad: Value, after: seq<Value>, typ: string)
    requires IsNullish(bad)
    requires forall k :: 0 <= k < |before| ==> !IsNullish(before[k])
    ensures MatchingPrefix(before + [bad] + after, typ) == MatchingPrefix(before, typ)
  {
    if before == [] {
      assert (before + [bad] + after)[0] == bad;
    } else {
      var all := before + [bad] + after;
      assert all[0] == before[0] && all[1..] == before[1..] + [bad] + after;
      MatchingPrefixStops(before[1..], bad, after, typ);
    }
  }

  /** Items that come before the first nullish element. */
  predicate BeforeNullish(items: seq<Value>, k: nat)
    requires k <= |items|
  {
    forall j :: 0 <= j < k ==> !IsNullish(items[j])
  }

  /** The walk misses nothing before it stops: every item of the type that comes before
      the first `null` or `undefined` element is pushed. */
  lemma {:induction false} MatchingPrefixComplete(items: seq<Value>, typ: string, k: nat)
    requires k < |items| && HasType(items[k], typ)
    requires BeforeNullish(items, k)
    ensures items[k] in MatchingPrefix(items, typ)
  {
    if k > 0 {
      assert forall j :: 0 <= j < |items| - 1 ==> items[1..][j] == items[j + 1];
      MatchingPrefixComplete(items[1..], typ, k - 1);
    }
  }

  /** And it pushes nothing else: each pushed item is an element of the type with no
      nullish element before it. */
  lemma {:induction false} MatchingPrefixSound(items: seq<Value>, typ: string, x: Value)
    requires x in MatchingPrefix(items, typ)
    ensures exists k :: 0 <= k < |items| && items[k] == x && HasType(x, typ) && BeforeNullish(items, k)
  {
    if HasType(items[0], typ) && x == items[0] {
      assert BeforeNullish(items, 0);
    } else {
      MatchingPrefixSound(items[1..], typ, x);
      var k :| 0 <= k < |items| - 1 && items[1..][k] == x && HasType(x, typ) && BeforeNullish(items[1..], k);
      assert items[k + 1] == x;
      forall j | 0 <= j < k + 1
        ensures !IsNullish(items[j])
      {
        if j > 0 {
          assert items[j] == items[1..][j - 1];
        }
      }
      assert BeforeNullish(items, k + 1);
    }
  }

  /** An array script, or an item not of the type whose `itemListElement` is an array,
      contributes every item of the type before the array's first nullish element. */
  lemma ScriptItemsComplete(v: Value, typ: string, items: seq<Value>, k: nat)
    requires v == Arr(items) || (v.Obj? && !HasType(v, typ) && Get(v, "itemListElement") == Arr(items))
    requires k < |items| && HasType(items[k], typ)
    requires BeforeNullish(items, k)
    ensures items[k] in ScriptItems(Some(v), typ)
  {
    MatchingPrefixComplete(items, typ, k);
  }

  /** Whatever one script contributes is among the page's results. */
  lemma {:induction false} ScriptItemsInResults(scripts: seq<Option<Value>>, typ: string, i: nat, x: Value)
    requires i < |scripts| && x in ScriptItems(scripts[i], typ)
    ensures x in JsonLdItems(scripts, typ)
  {
    if i > 0 {
      assert scripts[1..][i - 1] == scripts[i];
      ScriptItemsInResults(scripts[1..], typ, i - 1, x);
    }
  }

  /** `extractJsonLd` returns every item of the type that an array script (or an
      `itemListElement` array) holds before its first nullish element. */
  lemma JsonLdItemsComplete(scripts: seq<Option<Value>>, typ: string, i: nat, items: seq<Value>, k: nat)
    requires i < |scripts| && scripts[i].Some?
    requires var v := scripts[i].value;
      v == Arr(items) || (v.Obj? && !HasType(v, typ) && Get(v, "itemListElement") == Arr(items))
    requires k < |items| && HasType(items[k], typ)
    requires BeforeNullish(items, k)
    ensures items[k] in JsonLdItems(scripts, typ)
  {
    ScriptItemsComplete(scripts[i].value, typ, items, k);
    ScriptItemsInResults(scripts, typ, i, items[k]);
  }

  /** A single structured item is reported as itself exactly when its `@type` is the one
      asked for. */
  lemma SingleItem(v: Value, typ: string)
    requires v.Obj?
    ensures HasType(v, typ) ==> ScriptItems(Some(v), typ) == [v]
    ensures !HasType(v, typ) && !Truthy(Get(v, "itemListElement")) ==> ScriptItems(Some(v), typ) == []
  {
  }

  /** `extractJsonLd(html, type)`: walks the scripts, and the items of each, pushing the
      items of the type; a throw inside one script's walk abandons that script only. */
  method ExtractJsonLd(scripts: seq<Option<Value>>, typ: string) returns (results: seq<Value>)
    ensures results == JsonLdItems(scripts, typ)
  {
    results := [];
    var i := 0;
    while i < |scripts|
      invariant 0 <= i <= |scripts|
      invariant results == JsonLdItems(scripts[..i], typ)
    {
      results := PushScript(results, scripts[i], typ);
      JsonLdItemsStep(scripts, i, typ);
      i := i + 1;
    }
    assert scripts[..i] == scripts;
  }

  /** The body of the guarded block for one script. */
  method PushScript(results: seq<Value>, content: Option<Value>, typ: string) returns (out: seq<Value>)
    ensures out == results + ScriptItems(content, typ)
  {
    out := results;
    match content {
      case None =>
      case Some(jsonContent) =>
        if jsonContent.Arr? {
          out := PushMatching(results, jsonContent.items, typ);
        } else if IsNullish(jsonContent) {
        } else if HasType(jsonContent, typ) {
          out := results + [jsonContent];
        } else {
          var list := Get(jsonContent, "itemListElement");
          if Truthy(list) && list.Arr? {
            out := PushMatching(results, list.items, typ);
          }
        }
    }
  }

  /** The inner `forEach`, which stops where reading `'@type'` throws. */
  method PushMatching(results: seq<Value>, items: seq<Value>, typ: string) returns (out: seq<Value>)
    ensures out == results + MatchingPrefix(items, typ)
  {
    out := results;
    var j := 0;
    while j < |items|
      invariant 0 <= j <= |items|
      invariant out + MatchingPrefix(items[j..], typ) == results + MatchingPrefix(items, typ)
    {
      var item := items[j];
      assert items[j..][0] == item && items[j..][1..] == items[j + 1..];
      if IsNullish(item) {
        return;
      }
      if HasType(item, typ) {
        out := out + [item];
      }
      j := j + 1;
    }
  }

  /** The keys of a normalised job. */
  const JobColumns: set<string> := {"title", "company", "description", "location", "url", "salary", "job_type",
                                    "date_posted", "external_id", "is_remote", "skills", "source", "status"}

  const DefaultLocation: string := "Indianapolis, IN"

  /** The `location` of a posting: `typeof job.jobLocation === 'object'` holds for
      objects, arrays and `null`; for `null` the next property read throws. */
  function JobLocation(loc: Value): (r: Eval<Value>)
    ensures r.Throws? <==> loc.Null?
    ensures loc.Obj? ==> r == Returns(Or(OptProp(Get(loc, "address"), "addressLocality"), Str(DefaultLocation)))
    ensures !(loc.Obj? || loc.Arr? || loc.Null?) ==> r == Returns(Or(loc, Str(DefaultLocation)))
  {
    if loc.Null? then Throws
    else if loc.Obj? || loc.Arr? then Returns(Or(OptProp(Get(loc, "address"), "addressLocality"), Str(DefaultLocation)))
    else Returns(Or(loc, Str(DefaultLocation)))
  }

  /** `normalizeJob(job)` for a scraper of `companyName` at `baseUrl`; `now` stands for
      `new Date().toISOString()`. Reading a property of a `null` or `undefined` posting
      throws, and so does a `null` job location. */
  function NormalizeJob(job: Value, companyName: string, baseUrl: string, now: string): Eval<Record> {
    if IsNullish(job) then Throws
    else match JobLocation(Get(job, "jobLocation"))
      case Throws => Throws
      case Returns(location) =>
        var skills := Get(job, "skills");
        Returns(map[
          "title" := Or(Get(job, "title"), Str("")),
          "company" := Str(companyName),
          "description" := Or(Get(job, "description"), Str("")),
          "location" := location,
          "url" := Or(Get(job, "url"), Str("")),
          "salary" := Or(Or(OptProp(Get(job, "baseSalary"), "value"), OptProp(Get(job, "estimatedSalary"), "value")), Str("")),
          "job_type" := Or(Get(job, "employmentType"), Str("FULL_TIME")),
          "date_posted" := Or(Get(job, "datePosted"), Str(now)),
          "external_id" := Or(Or(Get(job, "identifier"), Get(job, "url")), Str("")),
          "is_remote" := Bool(Get(job, "jobLocationType") == Str("TELECOMMUTE")),
          "skills" := if skills.Arr? then Str(JoinElements(skills.items, ",")) else Str(""),
          "source" := Str(baseUrl),
          "status" := Str("active")])
  }

  /** Normalisation fails exactly on a nullish posting or a `null` location; otherwise the
      record names the scraper's company and site, is `active`, and carries every column
      the store writes. */
  lemma NormalizeJobShape(job: Value, companyName: string, baseUrl: string, now: string)
    ensures NormalizeJob(job, companyName, baseUrl, now).Throws?
      <==> IsNullish(job) || Get(job, "jobLocation").Null?
    ensures NormalizeJob(job, companyName, baseUrl, now).Returns? ==>
      var r := NormalizeJob(job, companyName, baseUrl, now).value;
      r["company"] == Str(companyName) && r["source"] == Str(baseUrl) && r["status"] == Str("active")
      && JobColumns <= r.Keys
  {
  }

  /** `is_remote` is a boolean that holds exactly for a `TELECOMMUTE` posting; `skills` is
      an array of skills joined with `','`, else `''`; `job_type` is the employment type,
      `'FULL_TIME'` without one; the external id is the identifier, else the url, else `''`;
      and `date_posted` is empty only when the posting has none and the clock reads `''`. */
  lemma NormalizeJobFlags(job: Value, companyName: string, baseUrl: string, now: string)
    requires NormalizeJob(job, companyName, baseUrl, now).Returns?
    ensures var r := NormalizeJob(job, companyName, baseUrl, now).value;
      && r["is_remote"].Bool? && r["skills"].Str?
      && (r["is_remote"] == Bool(true) <==> Get(job, "jobLocationType") == Str("TELECOMMUTE"))
      && Truthy(r["job_type"]) && Truthy(r["date_posted"]) == (Truthy(Get(job, "datePosted")) || now != "")
    ensures var r := NormalizeJob(job, companyName, baseUrl, now).value;
      && r["job_type"] == Or(Get(job, "employmentType"), Str("FULL_TIME"))
      && r["external_id"] == Or(Or(Get(job, "identifier"), Get(job, "url")), Str(""))
      && (Get(job, "skills").Arr? ==> r["skills"] == Str(JoinElements(Get(job, "skills").items, ",")))
      && (!Get(job, "skills").Arr? ==> r["skills"] == Str(""))
  {
  }

  /** The external id falls back to the url: a posting with a url but no identifier is
      stored under its url twice over. */
  lemma ExternalIdFallsBackToUrl(job: Value, companyName: string, baseUrl: string, now: string)
    requires NormalizeJob(job, companyName, baseUrl, now).Returns?
    requires !Truthy(Get(job, "identifier"))
    ensures var r := NormalizeJob(job, companyName, baseUrl, now).value;
      r["external_id"] == r["url"]
  {
  }
}
