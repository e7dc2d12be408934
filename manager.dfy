/**
 * The scraper manager: the registry of job and event scrapers, the aggregate and
 * single-scraper runs with their `scraper_runs` bookkeeping, and the two stores.
 *
 * A scraper's `scrape()` is not modelled; each registered scraper's behaviour on the
 * run is given as an `Outcome`. Timestamps are one `now` per call; whether a start
 * insert throws is given as a set of scraper positions (or one flag), and whether a
 * record's store statements throw as a set of record positions.
 */
module ScraperManager {
  import opened Options
  import opened Text
  import opened Js
  import opened Tables
  import opened RunLedger
  import opened JobStore
  import opened EventStore
  import opened Folds
  import BaseScraper

  /** The class names of the registered scrapers, in registration order. */
  const JobScraperNames: seq<string> := [
    "LillyScraper", "AnthemScraper", "RocheScraper", "CortevaScraper",
    "CommunityHealthScraper", "CumminsScraper", "IUHealthScraper",
    "RollsRoyceScraper", "AngiScraper", "FinishLineScraper"]

  const EventScraperNames: seq<string> := [
    "NoblesvilleGovEventsScraper", "NoblesvilleMainstreetEventsScraper",
    "NoblesvilleParksCalendarScraper", "VisitHamiltonCountyEventsScraper",
    "EventbriteIndianaEventsScraper"]

  /** What one call of a scraper's `scrape()` did: threw `error`, or returned `items`. */
  datatype Outcome = Fail(error: Value) | Ok(items: seq<Record>)

  /** The end of a single-scraper run: its items, the "not found" error thrown before
      anything runs, or the scraper's own error thrown again. */
  datatype RunResult = Found(items: seq<Record>) | NotFound(message: string) | Rethrown(error: Value)

  /** The end of a store call: the missing-database error, or the two counts. */
  datatype StoreResult = StoreError(message: string) | Stored(added: nat, updated: nat)

  const NoDatabase: string := "Database connection not available"

  /** `results.filter(x => key in x)`: the items that have `key`, in order. */
  function WithKey(items: seq<Record>, key: string): (r: seq<Record>)
    ensures |r| <= |items|
    ensures forall k :: 0 <= k < |r| ==> key in r[k] && r[k] in items
    ensures forall k :: 0 <= k < |items| && key in items[k] ==> items[k] in r
  {
    if items == [] then []
    else (if key in items[0] then [items[0]] else []) + WithKey(items[1..], key)
  }

  lemma {:induction false} WithKeyAppend(a: seq<Record>, b: seq<Record>, key: string)
    ensures WithKey(a + b, key) == WithKey(a, key) + WithKey(b, key)
  {
    if a == [] {
      assert a + b == b;
    } else {
      assert (a + b)[0] == a[0] && (a + b)[1..] == a[1..] + b;
      WithKeyAppend(a[1..], b, key);
    }
  }

  /** Items that all have the key pass through unchanged, so filtering twice is
      filtering once. */
  lemma {:induction false} WithKeyKeepsKeyed(items: seq<Record>, key: string)
    requires forall k :: 0 <= k < |items| ==> key in items[k]
    ensures WithKey(items, key) == items
  {
    if items != [] {
      WithKeyKeepsKeyed(items[1..], key);
    }
  }

  /** The aggregate of a run: each scraper that returned contributes its filtered items,
      in registration order; a scraper that threw contributes nothing. */
  function Aggregate(outcomes: seq<Outcome>, key: string): seq<Record> {
    Gather(outcomes, ContributionOf(key))
  }

  function ContributionOf(key: string): Outcome -> seq<Record> {
    outcome => Contribution(outcome, key)
  }

  /** What one scraper adds to the aggregate. */
  function Contribution(outcome: Outcome, key: string): seq<Record> {
    match outcome
    case Ok(items) => WithKey(items, key)
    case Fail(_) => []
  }

  lemma AggregateAppend(a: seq<Outcome>, b: seq<Outcome>, key: string)
    ensures Aggregate(a + b, key) == Aggregate(a, key) + Aggregate(b, key)
  {
    GatherAppend(a, b, ContributionOf(key));
  }

  /** A scraper that throws is as if it were not registered: the others' items and their
      order are unaffected. */
  lemma FailureContributesNothing(before: seq<Outcome>, error: Value, after: seq<Outcome>, key: string)
    ensures Aggregate(before + [Fail(error)] + after, key) == Aggregate(before + after, key)
  {
    var m := before + [Fail(error)];
    AggregateAppend(m, after, key);
    AggregateAppend(before, [Fail(error)], key);
    AggregateOne(Fail(error), key);
    AggregateAppend(before, after, key);
  }

  /** One more scraper adds its contribution. */
  lemma AggregateStep(outcomes: seq<Outcome>, key: string, i: nat)
    requires i < |outcomes|
    ensures Aggregate(outcomes[..i + 1], key) == Aggregate(outcomes[..i], key) + Contribution(outcomes[i], key)
  {
    GatherStep(outcomes, ContributionOf(key), i);
  }

  /** A single scraper's aggregate is its contribution. */
  lemma AggregateOne(outcome: Outcome, key: string)
    ensures Aggregate([outcome], key) == Contribution(outcome, key)
  {
    var f := ContributionOf(key);
    assert [outcome][..0] == [];
    assert Gather([outcome], f) == Gather([], f) + f(outcome);
  }

  /** Everything in the aggregate has the key. */
  lemma {:induction false} AggregateHasKey(outcomes: seq<Outcome>, key: string)
    ensures forall k :: 0 <= k < |Aggregate(outcomes, key)| ==> key in Aggregate(outcomes, key)[k]
  {
    if outcomes != [] {
      var init := outcomes[..|outcomes| - 1];
      AggregateHasKey(init, key);
      assert Aggregate(outcomes, key) == Aggregate(init, key) + Contribution(outcomes[|outcomes| - 1], key);
    }
  }

  /** What one scraper's turn does to `scraper_runs`: a start row unless the start insert
      throws (its id is then 0, which is falsy); on success the row by that id is
      completed, on failure the failure statements run. */
  function LedgerStep(runs: seq<RunRow>, name: string, outcome: Outcome, key: string, startFails: bool, now: string): (r: seq<RunRow>)
    requires RunIdsDense(runs)
    ensures RunIdsDense(r)
  {
    if startFails then
      match outcome
      case Ok(_) => runs
      case Fail(e) => FailRun(runs, name, e, now)
    else
      var started := StartRun(runs, name, now);
      match outcome
      case Ok(items) => CompleteRun(started, |runs| + 1, |WithKey(items, key)|, now)
      case Fail(e) => FailRun(started, name, e, now)
  }

  /** `scraper_runs` after the first `n` scrapers' turns. */
  function LedgerAfter(runs: seq<RunRow>, names: seq<string>, outcomes: seq<Outcome>, key: string, startFaults: set<nat>, now: string, n: nat): (r: seq<RunRow>)
    requires RunIdsDense(runs) && n <= |names| == |outcomes|
    ensures RunIdsDense(r)
  {
    if n == 0 then runs
    else LedgerStep(LedgerAfter(runs, names, outcomes, key, startFaults, now, n - 1),
                    names[n - 1], outcomes[n - 1], key, n - 1 in startFaults, now)
  }

  /** The row a scraper's turn leaves behind when nothing around it goes wrong. */
  function FinalRow(id: nat, name: string, outcome: Outcome, key: string, now: string): RunRow {
    match outcome
    case Ok(items) => RunRow(id, name, now, Some(now), Success, Some(|WithKey(items, key)|), None, now)
    case Fail(e) => RunRow(id, name, now, Some(now), Failed, None, Some(ErrorText(e)), now)
  }

  predicate NoneRunning(runs: seq<RunRow>) {
    forall j :: 0 <= j < |runs| ==> runs[j].status != Running
  }

  /** The rows `n` undisturbed turns leave behind, numbered on from `base`. */
  function FinalRows(base: nat, names: seq<string>, outcomes: seq<Outcome>, key: string, now: string, n: nat): (r: seq<RunRow>)
    requires n <= |names| == |outcomes|
    ensures |r| == n
  {
    if n == 0 then []
    else FinalRows(base, names, outcomes, key, now, n - 1) + [FinalRow(base + n, names[n - 1], outcomes[n - 1], key, now)]
  }

  /** One undisturbed turn after which no row is left running appends its final row. */
  lemma LedgerStepAppends(runs: seq<RunRow>, name: string, outcome: Outcome, key: string, now: string)
    requires RunIdsDense(runs) && NoneRunning(runs)
    requires outcome.Fail? ==> !IsNullish(outcome.error)
    ensures LedgerStep(runs, name, outcome, key, false, now) == runs + [FinalRow(|runs| + 1, name, outcome, key, now)]
  {
    match outcome {
      case Ok(items) =>
        StartThenComplete(runs, name, |WithKey(items, key)|, now, now);
      case Fail(e) =>
        StartThenFail(runs, name, e, now);
    }
  }

  /** When no row is running, no start insert throws and every thrown error is an
      object, each scraper's turn adds exactly one row, `success` with its item count or
      `failed` with its message, and leaves no row running. */
  lemma {:induction false} LedgerAddsOneRowPerScraper(runs: seq<RunRow>, names: seq<string>, outcomes: seq<Outcome>, key: string, now: string, n: nat)
    requires RunIdsDense(runs) && NoneRunning(runs) && n <= |names| == |outcomes|
    requires forall k :: 0 <= k < |outcomes| && outcomes[k].Fail? ==> !IsNullish(outcomes[k].error)
    ensures LedgerAfter(runs, names, outcomes, key, {}, now, n) == runs + FinalRows(|runs|, names, outcomes, key, now, n)
    ensures NoneRunning(LedgerAfter(runs, names, outcomes, key, {}, now, n))
  {
    if n > 0 {
      LedgerAddsOneRowPerScraper(runs, names, outcomes, key, now, n - 1);
      LedgerAddsStep(runs, names, outcomes, key, now, n);
    }
  }

  /** The step of the previous lemma: the `n`-th turn appends the `n`-th final row. */
  lemma LedgerAddsStep(runs: seq<RunRow>, names: seq<string>, outcomes: seq<Outcome>, key: string, now: string, n: nat)
    requires RunIdsDense(runs) && 0 < n <= |names| == |outcomes|
    requires outcomes[n - 1].Fail? ==> !IsNullish(outcomes[n - 1].error)
    requires LedgerAfter(runs, names, outcomes, key, {}, now, n - 1) == runs + FinalRows(|runs|, names, outcomes, key, now, n - 1)
    requires NoneRunning(LedgerAfter(runs, names, outcomes, key, {}, now, n - 1))
    ensures LedgerAfter(runs, names, outcomes, key, {}, now, n) == runs + FinalRows(|runs|, names, outcomes, key, now, n)
    ensures NoneRunning(LedgerAfter(runs, names, outcomes, key, {}, now, n))
  {
    var prev := LedgerAfter(runs, names, outcomes, key, {}, now, n - 1);
    var before := FinalRows(|runs|, names, outcomes, key, now, n - 1);
    var x := FinalRow(|runs| + n, names[n - 1], outcomes[n - 1], key, now);
    assert |prev| == |runs| + (n - 1);
    LedgerStepAppends(prev, names[n - 1], outcomes[n - 1], key, now);
    assert LedgerStep(prev, names[n - 1], outcomes[n - 1], key, false, now) == prev + [x];
    NoFaultStep(runs, names, outcomes, key, now, n);
    assert FinalRows(|runs|, names, outcomes, key, now, n) == before + [x];
    assert runs + (before + [x]) == (runs + before) + [x];
    NoneRunningAppend(prev, x);
  }

  /** Without start faults, the `n`-th turn is an undisturbed one. */
  lemma NoFaultStep(runs: seq<RunRow>, names: seq<string>, outcomes: seq<Outcome>, key: string, now: string, n: nat)
    requires RunIdsDense(runs) && 0 < n <= |names| == |outcomes|
    ensures LedgerAfter(runs, names, outcomes, key, {}, now, n)
      == LedgerStep(LedgerAfter(runs, names, outcomes, key, {}, now, n - 1), names[n - 1], outcomes[n - 1], key, false, now)
  {
  }

  /** A row that is not running keeps a ledger with no running row so. */
  lemma NoneRunningAppend(rs: seq<RunRow>, x: RunRow)
    requires NoneRunning(rs) && x.status != Running
    ensures NoneRunning(rs + [x])
  {
  }

  /** Three scrapers where the first returns two jobs, the second throws and the third
      returns one: the run yields the three jobs in that order, and `scraper_runs` gains
      a `success` row for the first and third and a `failed` row for the second. */
  lemma ThreeScraperScenario(runs: seq<RunRow>, a: string, b: string, c: string,
                             j1: Record, j2: Record, j3: Record, error: Value, now: string)
    requires RunIdsDense(runs) && NoneRunning(runs) && !IsNullish(error)
    requires "company" in j1 && "company" in j2 && "company" in j3
    ensures var outcomes := [Ok([j1, j2]), Fail(error), Ok([j3])];
      Aggregate(outcomes, "company") == [j1, j2, j3]
      && LedgerAfter(runs, [a, b, c], outcomes, "company", {}, now, 3) == runs + [
           RunRow(|runs| + 1, a, now, Some(now), Success, Some(2), None, now),
           RunRow(|runs| + 2, b, now, Some(now), Failed, None, Some(ErrorText(error)), now),
           RunRow(|runs| + 3, c, now, Some(now), Success, Some(1), None, now)]
  {
    var outcomes := [Ok([j1, j2]), Fail(error), Ok([j3])];
    ThreeScraperItems(j1, j2, j3, error);
    LedgerAddsOneRowPerScraper(runs, [a, b, c], outcomes, "company", now, 3);
    ThreeScraperRows(|runs|, a, b, c, j1, j2, j3, error, now);
  }

  lemma ThreeScraperItems(j1: Record, j2: Record, j3: Record, error: Value)
    requires "company" in j1 && "company" in j2 && "company" in j3
    ensures Aggregate([Ok([j1, j2]), Fail(error), Ok([j3])], "company") == [j1, j2, j3]
  {
    var o1, o2, o3 := Ok([j1, j2]), Fail(error), Ok([j3]);
    var outcomes := [o1, o2, o3];
    WithKeyKeepsKeyed([j1, j2], "company");
    WithKeyKeepsKeyed([j3], "company");
    assert outcomes == [o1] + [o2] + [o3];
    AggregateAppend([o1] + [o2], [o3], "company");
    AggregateAppend([o1], [o2], "company");
    AggregateOne(o1, "company");
    AggregateOne(o2, "company");
    AggregateOne(o3, "company");
  }

  lemma ThreeScraperRows(base: nat, a: string, b: string, c: string,
                         j1: Record, j2: Record, j3: Record, error: Value, now: string)
    requires "company" in j1 && "company" in j2 && "company" in j3
    ensures FinalRows(base, [a, b, c], [Ok([j1, j2]), Fail(error), Ok([j3])], "company", now, 3) == [
      RunRow(base + 1, a, now, Some(now), Success, Some(2), None, now),
      RunRow(base + 2, b, now, Some(now), Failed, None, Some(ErrorText(error)), now),
      RunRow(base + 3, c, now, Some(now), Success, Some(1), None, now)]
  {
    var o1, o2, o3 := Ok([j1, j2]), Fail(error), Ok([j3]);
    var outcomes, names := [o1, o2, o3], [a, b, c];
    WithKeyKeepsKeyed([j1, j2], "company");
    WithKeyKeepsKeyed([j3], "company");
    var r1 := FinalRow(base + 1, a, o1, "company", now);
    var r2 := FinalRow(base + 2, b, o2, "company", now);
    var r3 := FinalRow(base + 3, c, o3, "company", now);
    assert r1 == RunRow(base + 1, a, now, Some(now), Success, Some(2), None, now);
    assert r3 == RunRow(base + 3, c, now, Some(now), Success, Some(1), None, now);
    assert FinalRows(base, names, outcomes, "company", now, 1) == [r1];
    assert FinalRows(base, names, outcomes, "company", now, 2) == [r1, r2];
    assert FinalRows(base, names, outcomes, "company", now, 3) == [r1, r2, r3];
  }

  /** The look-up test: the lower-cased class name equals, or contains, the lower-cased
      query. */
  predicate NameMatches(name: string, query: string) {
    ToLower(name) == ToLower(query) || Contains(ToLower(name), ToLower(query))
  }

  /** `scrapers.find(…)`: the first registered name the query matches. */
  function FindScraper(names: seq<string>, query: string): (r: Option<nat>)
    ensures r.None? <==> forall j :: 0 <= j < |names| ==> !NameMatches(names[j], query)
    ensures r.Some? ==> r.value < |names| && NameMatches(names[r.value], query)
    ensures r.Some? ==> forall j :: 0 <= j < r.value ==> !NameMatches(names[j], query)
  {
    if names == [] then None
    else if NameMatches(names[0], query) then Some(0)
    else
      var r := FindScraper(names[1..], query);
      assert forall j :: 1 <= j < |names| ==> names[j] == names[1..][j - 1];
      if r.None? then None else Some(r.value + 1)
  }

  /** The equality test adds nothing: a name matches exactly when its lower-cased form
      contains the lower-cased query. */
  lemma NameMatchesIsContainment(name: string, query: string)
    ensures NameMatches(name, query) <==> Contains(ToLower(name), ToLower(query))
  {
    var s := ToLower(name);
    if s == ToLower(query) {
      assert OccursAt(s, s, 0);
      ContainsIff(s, s);
    }
  }

  /** There is no exact-match pass: a registered name that merely contains the query
      wins over a later name equal to it, and the empty query selects the first. */
  lemma FirstContainingNameWins(names: seq<string>, query: string, j: nat, k: nat)
    requires j < k < |names| && Contains(ToLower(names[j]), ToLower(query))
    ensures FindScraper(names, query).Some? && FindScraper(names, query).value <= j
    ensures FindScraper(names, query) != Some(k)
  {
    assert NameMatches(names[j], query);
  }

  lemma EmptyQuerySelectsFirst(names: seq<string>)
    requires names != []
    ensures FindScraper(names, "") == Some(0)
  {
    assert OccursAt(ToLower(names[0]), "", 0);
    ContainsIff(ToLower(names[0]), "");
  }

  class ScraperManager {
    const jobScrapers: seq<string>
    const eventScrapers: seq<string>

    /** The registry: ten job scrapers and five event scrapers, in this order. */
    constructor()
      ensures jobScrapers == JobScraperNames && eventScrapers == EventScraperNames
    {
      jobScrapers := JobScraperNames;
      eventScrapers := EventScraperNames;
    }

    /** Inserts the `running` row and returns its id; a throwing insert returns 0. */
    method RecordScraperRunStart(scraperName: string, env: Database, insertFails: bool, now: string) returns (runId: nat)
      requires env.Valid()
      modifies env
      ensures env.Valid() && env.jobListings == old(env.jobListings) && env.events == old(env.events)
      ensures insertFails ==> runId == 0 && env.scraperRuns == old(env.scraperRuns)
      ensures !insertFails ==> runId == |old(env.scraperRuns)| + 1
      ensures !insertFails ==> env.scraperRuns == StartRun(old(env.scraperRuns), scraperName, now)
    {
      if insertFails {
        runId := 0;
      } else {
        runId := |env.scraperRuns| + 1;
        env.scraperRuns := StartRun(env.scraperRuns, scraperName, now);
      }
    }

    method RecordScraperRunSuccess(runId: nat, jobsFound: nat, env: Database, now: string)
      requires env.Valid()
      modifies env
      ensures env.Valid() && env.jobListings == old(env.jobListings) && env.events == old(env.events)
      ensures env.scraperRuns == CompleteRun(old(env.scraperRuns), runId, jobsFound, now)
    {
      env.scraperRuns := CompleteRun(env.scraperRuns, runId, jobsFound, now);
    }

    method RecordScraperRunFailure(scraperName: string, error: Value, env: Database, now: string)
      requires env.Valid()
      modifies env
      ensures env.Valid() && env.jobListings == old(env.jobListings) && env.events == old(env.events)
      ensures env.scraperRuns == FailRun(old(env.scraperRuns), scraperName, error, now)
    {
      env.scraperRuns := FailRun(env.scraperRuns, scraperName, error, now);
    }

    /** One scraper's turn: the start row, the scrape, then the success or failure
        statements; a throwing scrape yields nothing here and is handled by the caller. */
    method RunTurn(scraperName: string, outcome: Outcome, key: string, env: Database?, startFails: bool, now: string)
      returns (found: seq<Record>)
      requires env != null ==> env.Valid()
      modifies env
      ensures found == Contribution(outcome, key)
      ensures env != null ==> (env.Valid()
        && env.scraperRuns == LedgerStep(old(env.scraperRuns), scraperName, outcome, key, startFails, now)
        && env.jobListings == old(env.jobListings) && env.events == old(env.events))
    {
      var runId: nat := 0;
      if env != null {
        runId := RecordScraperRunStart(scraperName, env, startFails, now);
      }
      match outcome {
        case Ok(results) =>
          found := WithKey(results, key);
          if env != null && runId != 0 {
            RecordScraperRunSuccess(runId, |found|, env, now);
          }
        case Fail(error) =>
          found := [];
          if env != null {
            RecordScraperRunFailure(scraperName, error, env, now);
          }
      }
    }

    /** The loop shared by `runAllScrapers` and `runAllEventScrapers`. */
    method RunAllOf(scrapers: seq<string>, outcomes: seq<Outcome>, key: string, env: Database?, startFaults: set<nat>, now: string)
      returns (all: seq<Record>)
      requires |outcomes| == |scrapers|
      requires env != null ==> env.Valid()
      modifies env
      ensures all == Aggregate(outcomes, key)
      ensures env != null ==> (env.Valid()
        && env.scraperRuns == LedgerAfter(old(env.scraperRuns), scrapers, outcomes, key, startFaults, now, |scrapers|)
        && env.jobListings == old(env.jobListings) && env.events == old(env.events))
    {
      all := [];
      var i := 0;
      while i < |scrapers|
        invariant 0 <= i <= |scrapers|
        invariant all == Aggregate(outcomes[..i], key)
        invariant env != null ==> (env.Valid()
          && env.scraperRuns == LedgerAfter(old(env.scraperRuns), scrapers, outcomes, key, startFaults, now, i)
          && env.jobListings == old(env.jobListings) && env.events == old(env.events))
        decreases |scrapers| - i
      {
        var found := RunTurn(scrapers[i], outcomes[i], key, env, i in startFaults, now);
        all := all + found;
        AggregateStep(outcomes, key, i);
        i := i + 1;
      }
      assert outcomes[..i] == outcomes;
    }

    method RunAllScrapers(outcomes: seq<Outcome>, env: Database?, startFaults: set<nat>, now: string)
      returns (allJobs: seq<Record>)
      requires |outcomes| == |jobScrapers|
      requires env != null ==> env.Valid()
      modifies env
      ensures allJobs == Aggregate(outcomes, "company")
      ensures env != null ==> (env.Valid()
        && env.scraperRuns == LedgerAfter(old(env.scraperRuns), jobScrapers, outcomes, "company", startFaults, now, |jobScrapers|)
        && env.jobListings == old(env.jobListings) && env.events == old(env.events))
    {
      allJobs := RunAllOf(jobScrapers, outcomes, "company", env, startFaults, now);
    }

    method RunAllEventScrapers(outcomes: seq<Outcome>, env: Database?, startFaults: set<nat>, now: string)
      returns (allEvents: seq<Record>)
      requires |outcomes| == |eventScrapers|
      requires env != null ==> env.Valid()
      modifies env
      ensures allEvents == Aggregate(outcomes, "start_date")
      ensures env != null ==> (env.Valid()
        && env.scraperRuns == LedgerAfter(old(env.scraperRuns), eventScrapers, outcomes, "start_date", startFaults, now, |eventScrapers|)
        && env.jobListings == old(env.jobListings) && env.events == old(env.events))
    {
      allEvents := RunAllOf(eventScrapers, outcomes, "start_date", env, startFaults, now);
    }

    /** The body shared by `runScraper` and `runEventScraper`; `kind` is "Job" or "Event". */
    method RunOneOf(scrapers: seq<string>, kind: string, scraperName: string, outcomes: seq<Outcome>, key: string,
                    env: Database?, startFails: bool, now: string)
      returns (r: RunResult)
      requires |outcomes| == |scrapers|
      requires env != null ==> env.Valid()
      modifies env
      ensures env != null ==> env.Valid() && env.jobListings == old(env.jobListings) && env.events == old(env.events)
      ensures FindScraper(scrapers, scraperName).None? ==>
        r == NotFound(kind + " scraper \"" + scraperName + "\" not found")
        && (env != null ==> env.scraperRuns == old(env.scraperRuns))
      ensures FindScraper(scrapers, scraperName).Some? ==>
        var i := FindScraper(scrapers, scraperName).value;
        r == (match outcomes[i] case Ok(items) => Found(WithKey(items, key)) case Fail(e) => Rethrown(e))
        && (env != null ==> env.scraperRuns == LedgerStep(old(env.scraperRuns), scrapers[i], outcomes[i], key, startFails, now))
    {
      var found := FindScraper(scrapers, scraperName);
      if found.None? {
        return NotFound(kind + " scraper \"" + scraperName + "\" not found");
      }
      var i := found.value;
      var items := RunTurn(scrapers[i], outcomes[i], key, env, startFails, now);
      r := match outcomes[i] case Ok(_) => Found(items) case Fail(error) => Rethrown(error);
    }

    method RunScraper(scraperName: string, outcomes: seq<Outcome>, env: Database?, startFails: bool, now: string)
      returns (r: RunResult)
      requires |outcomes| == |jobScrapers|
      requires env != null ==> env.Valid()
      modifies env
      ensures env != null ==> env.Valid() && env.jobListings == old(env.jobListings) && env.events == old(env.events)
      ensures FindScraper(jobScrapers, scraperName).None? ==>
        r == NotFound("Job scraper \"" + scraperName + "\" not found")
        && (env != null ==> env.scraperRuns == old(env.scraperRuns))
      ensures FindScraper(jobScrapers, scraperName).Some? ==>
        var i := FindScraper(jobScrapers, scraperName).value;
        r == (match outcomes[i] case Ok(items) => Found(WithKey(items, "company")) case Fail(e) => Rethrown(e))
        && (env != null ==> env.scraperRuns == LedgerStep(old(env.scraperRuns), jobScrapers[i], outcomes[i], "company", startFails, now))
    {
      r := RunOneOf(jobScrapers, "Job", scraperName, outcomes, "company", env, startFails, now);
    }

    method RunEventScraper(scraperName: string, outcomes: seq<Outcome>, env: Database?, startFails: bool, now: string)
      returns (r: RunResult)
      requires |outcomes| == |eventScrapers|
      requires env != null ==> env.Valid()
      modifies env
      ensures env != null ==> env.Valid() && env.jobListings == old(env.jobListings) && env.events == old(env.events)
      ensures FindScraper(eventScrapers, scraperName).None? ==>
        r == NotFound("Event scraper \"" + scraperName + "\" not found")
        && (env != null ==> env.scraperRuns == old(env.scraperRuns))
      ensures FindScraper(eventScrapers, scraperName).Some? ==>
        var i := FindScraper(eventScrapers, scraperName).value;
        r == (match outcomes[i] case Ok(items) => Found(WithKey(items, "start_date")) case Fail(e) => Rethrown(e))
        && (env != null ==> env.scraperRuns == LedgerStep(old(env.scraperRuns), eventScrapers[i], outcomes[i], "start_date", startFails, now))
    {
      r := RunOneOf(eventScrapers, "Event", scraperName, outcomes, "start_date", env, startFails, now);
    }

    /** One statement pair per job; `failing` holds the positions of the jobs whose
        statements throw. */
    method StoreJobs(jobs: seq<Record>, env: Database?, failing: set<nat>, now: string) returns (r: StoreResult)
      requires env != null ==> env.Valid()
      modifies env
      ensures env == null ==> r == StoreError(NoDatabase)
      ensures env != null ==>
        var spec := StoreJobsSpec(old(env.jobListings), jobs, failing, now);
        r == Stored(spec.added, spec.updated) && env.jobListings == spec.rows
        && env.Valid() && env.events == old(env.events) && env.scraperRuns == old(env.scraperRuns)
    {
      if env == null {
        return StoreError(NoDatabase);
      }
      var addedCount, updatedCount := 0, 0;
      var i := 0;
      while i < |jobs|
        invariant 0 <= i <= |jobs|
        invariant StoreJobsPrefix(old(env.jobListings), jobs, failing + Unbindable(jobs), now, i)
          == JobStoreState(env.jobListings, addedCount, updatedCount)
        invariant env.events == old(env.events) && env.scraperRuns == old(env.scraperRuns)
      {
        addedCount, updatedCount := StoreOneJob(jobs[i], env, i in failing, now, addedCount, updatedCount);
        StoreJobsPrefixStep(old(env.jobListings), jobs, failing + Unbindable(jobs), now, i + 1);
        i := i + 1;
      }
      StoreJobsPreserves(old(env.jobListings), jobs, failing + Unbindable(jobs), now, |jobs|);
      r := Stored(addedCount, updatedCount);
    }

    /** One statement pair per event; `ids[k]` is the id generated for event `k`. */
    method StoreEvents(events: seq<Record>, ids: seq<string>, env: Database?, failing: set<nat>, now: string) returns (r: StoreResult)
      requires |ids| == |events|
      requires env != null ==> env.Valid()
      modifies env
      ensures env == null ==> r == StoreError(NoDatabase)
      ensures env != null ==>
        var spec := StoreEventsSpec(old(env.events), events, ids, failing, now);
        r == Stored(spec.added, spec.updated) && env.events == spec.rows
        && env.Valid() && env.jobListings == old(env.jobListings) && env.scraperRuns == old(env.scraperRuns)
    {
      if env == null {
        return StoreError(NoDatabase);
      }
      var addedCount, updatedCount := 0, 0;
      var i := 0;
      while i < |events|
        invariant 0 <= i <= |events|
        invariant StoreEventsPrefix(old(env.events), events, ids, failing + UnbindableEvents(events), now, i)
          == EventStoreState(env.events, addedCount, updatedCount)
        invariant env.jobListings == old(env.jobListings) && env.scraperRuns == old(env.scraperRuns)
      {
        addedCount, updatedCount := StoreOneEvent(events[i], ids[i], env, i in failing, now, addedCount, updatedCount);
        StoreEventsPrefixStep(old(env.events), events, ids, failing + UnbindableEvents(events), now, i + 1);
        i := i + 1;
      }
      StoreEventsPreserves(old(env.events), events, ids, failing + UnbindableEvents(events), now, |events|);
      r := Stored(addedCount, updatedCount);
    }
  }

  /** The statements for one job: the look-up, then the update of the first match or the
      insert; nothing changes when one of them throws, because of a fault of the database
      or a bound value D1 refuses. */
  method StoreOneJob(job: Record, env: Database, fails: bool, now: string, added: nat, updated: nat)
    returns (added': nat, updated': nat)
    modifies env
    ensures JobStoreState(env.jobListings, added', updated')
      == StoreJob(JobStoreState(old(env.jobListings), added, updated), job, fails || !JobBinds(job), now)
    ensures env.events == old(env.events) && env.scraperRuns == old(env.scraperRuns)
  {
    added', updated' := added, updated;
    if !fails && LookupBinds(job) {
      var existing := FindJob(env.jobListings, job);
      if !WriteBinds(job) {
        return;
      }
      if existing.Some? {
        var k := existing.value;
        env.jobListings := env.jobListings[k := UpdatedJob(env.jobListings[k], job, now)];
        updated' := updated + 1;
      } else {
        env.jobListings := env.jobListings + [InsertedJob(|env.jobListings| + 1, job, now)];
        added' := added + 1;
      }
    }
  }

  /** The statements for one event: the look-up, then the update of the first match or,
      when the generated id is free, the insert; nothing changes when one of them throws,
      because of a fault of the database or a bound value D1 refuses. */
  method StoreOneEvent(event: Record, id: string, env: Database, fails: bool, now: string, added: nat, updated: nat)
    returns (added': nat, updated': nat)
    modifies env
    ensures EventStoreState(env.events, added', updated')
      == StoreEvent(EventStoreState(old(env.events), added, updated), event, id, fails || !EventBinds(event), now)
    ensures env.jobListings == old(env.jobListings) && env.scraperRuns == old(env.scraperRuns)
  {
    added', updated' := added, updated;
    if !fails && EventLookupBinds(event) {
      var existing := FindEvent(env.events, event);
      if !EventWriteBinds(event) {
        return;
      }
      if existing.Some? {
        var k := existing.value;
        env.events := env.events[k := UpdatedEvent(env.events[k], event, now)];
        updated' := updated + 1;
      } else if !HasEventId(env.events, id) {
        env.events := env.events + [InsertedEvent(id, event, now)];
        added' := added + 1;
      }
    }
  }

  /** A posting whose `identifier` is an object (a schema.org `PropertyValue`) normalises
      to a job whose external id is that object. D1 refuses to bind it, so wherever that
      job stands in a batch, the store skips it and counts it nowhere. */
  lemma ObjectIdentifierIsSkipped(posting: Value, companyName: string, baseUrl: string, rows: seq<JobRow>,
                                  jobs: seq<Record>, failing: set<nat>, now: string, n: nat)
    requires BaseScraper.NormalizeJob(posting, companyName, baseUrl, now).Returns?
    requires Get(posting, "identifier").Obj?
    requires n < |jobs| && jobs[n] == BaseScraper.NormalizeJob(posting, companyName, baseUrl, now).value
    ensures StoreJobsPrefix(rows, jobs, failing + Unbindable(jobs), now, n + 1)
      == StoreJobsPrefix(rows, jobs, failing + Unbindable(jobs), now, n)
  {
    ObjectIdentifierRefused(posting, companyName, baseUrl, now);
    UnbindableJobSkipped(rows, jobs, failing, now, n);
  }

  /** The external id of such a posting is the object itself, which the look-up cannot bind. */
  lemma ObjectIdentifierRefused(posting: Value, companyName: string, baseUrl: string, now: string)
    requires BaseScraper.NormalizeJob(posting, companyName, baseUrl, now).Returns?
    requires Get(posting, "identifier").Obj?
    ensures !JobBinds(BaseScraper.NormalizeJob(posting, companyName, baseUrl, now).value)
  {
    BaseScraper.NormalizeJobFlags(posting, companyName, baseUrl, now);
    var job := BaseScraper.NormalizeJob(posting, companyName, baseUrl, now).value;
    assert Field(job, "external_id") == Get(posting, "identifier");
  }
}
