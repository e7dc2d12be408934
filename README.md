# scraper_hub core, modelled in Dafny

This project models the core of scraper_hub, a Cloudflare Worker that scrapes job postings and local events around Noblesville, Indiana, and keeps them in a D1 (SQLite) database:

- the `ScraperManager`: its two registries, the run-all and run-one operations, the `scraper_runs` ledger they keep, and the `storeJobs` / `storeEvents` upserts;
- the two helpers of `BaseScraper` that the scrapers share: `extractJsonLd` and `normalizeJob`;
- five event scrapers: the city's Markdown listing (Noblesville gov), Eventbrite and Visit Hamilton County (structured `Event` items), Noblesville Parks and Noblesville Main Street (a calendar page whose links lead to detail pages);
- the scheduled job `expirePremiumJobs`, which switches off featured, urgent and spotlight promotions whose end date has passed.

Code that changes things step by step is modelled the same way here. The manager is a class. The database is a `Database` class whose three tables are `seq` fields. The loops are methods with invariants. Each method is proved equal to a specification function, and the lemmas state the properties of those functions.

Everything outside the process is a parameter of the model:
- the clock is one `now` string per call;
- the network is the fetched page (`None` when the fetch failed);
- the DOM is the selector results a page yields;
- `new Date(...)` is a parser function;
- `new URL(...)` is a resolver function;
- a throwing SQL statement is a set of failing positions.

Shared modules:
- `Text`: JavaScript string operations.
- `Js`: JavaScript values, truthiness, `||` and property reads that may throw.
- `Regex`: a backtracking matcher with JavaScript's leftmost, priority-ordered semantics, for the scrapers' regular expressions.
- `Folds`: concatenating maps over sequences.
- `Tables`: the rows of the three tables.
- `Listings`: the nineteen-field event literal every event scraper builds, and the record the manager receives.

## Model

| member | source | states |
|---|---|---|
| ScraperManager.ScraperManager.constructor | scrapers/scraper_manager.ts:23-44 | The job registry holds the ten job scrapers and the event registry the five event scrapers, each in registration order. |
| ScraperManager.WithKey | scrapers/scraper_manager.ts:65 | The filter `key in item` keeps only items that have the key, drops none that do, and never lengthens the list. |
| ScraperManager.WithKeyAppend | scrapers/scraper_manager.ts:65-68 | Filtering distributes over concatenation, so the aggregate equals the per-scraper filtered lists concatenated. |
| ScraperManager.WithKeyKeepsKeyed | scrapers/scraper_manager.ts:65 | Items that all have the key pass the filter unchanged. |
| ScraperManager.AggregateAppend | scrapers/scraper_manager.ts:54-83 | The aggregate of two runs of scrapers back to back is the concatenation of their aggregates. |
| ScraperManager.FailureContributesNothing | scrapers/scraper_manager.ts:74-81 | A scraper that throws is caught, and the others' items and their order are as if it were not registered. |
| ScraperManager.AggregateOne | scrapers/scraper_manager.ts:62-68 | One scraper contributes its filtered items when it returns, and nothing when it throws. |
| ScraperManager.AggregateHasKey | scrapers/scraper_manager.ts:65-68 | Every item in `allJobs` has `company`, and every item in `allEvents` has `start_date`. |
| ScraperManager.LedgerStep | scrapers/scraper_manager.ts:56-81 | One scraper's turn keeps the ledger's ids equal to index + 1. The turn writes a start row unless that insert throws, then completes the row by its id, or runs the failure statements. |
| ScraperManager.LedgerAfter | scrapers/scraper_manager.ts:54-83 | The ledger after any number of turns keeps its ids dense. |
| ScraperManager.FinalRows | scrapers/scraper_manager.ts:54-83 | The rows that n undisturbed turns leave are exactly n rows. |
| ScraperManager.LedgerStepAppends | scrapers/scraper_manager.ts:56-81 | With no row running, an undisturbed turn appends exactly one final row: `success` with the item count, or `failed` with the error message. |
| ScraperManager.LedgerAddsOneRowPerScraper | scrapers/scraper_manager.ts:54-83 | When no row is running and no start insert throws, a run adds exactly one row per registered scraper, in order, each `success` or `failed`, and leaves no row running. |
| ScraperManager.ThreeScraperScenario | scrapers/scraper_manager.ts:54-85 | Scrapers returning two jobs, throwing, and returning one job give the three jobs in order, plus success(2), failed and success(1) ledger rows. |
| ScraperManager.ThreeScraperItems | scrapers/scraper_manager.ts:54-85 | The items of that scenario are the three jobs, in order. |
| ScraperManager.ThreeScraperRows | scrapers/scraper_manager.ts:54-85 | The ledger rows of that scenario, with their statuses, counts and messages. |
| ScraperManager.FindScraper | scrapers/scraper_manager.ts:92-95 | The look-up returns the first registered name that the query matches, case-insensitively, and nothing exactly when no name matches. |
| ScraperManager.NameMatchesIsContainment | scrapers/scraper_manager.ts:93-94 | The equality test is subsumed: a name matches exactly when its lower-cased form contains the lower-cased query. |
| ScraperManager.FirstContainingNameWins | scrapers/scraper_manager.ts:92-95 | There is no exact-match pass. An earlier name that merely contains the query wins over a later name equal to it. |
| ScraperManager.EmptyQuerySelectsFirst | scrapers/scraper_manager.ts:92-95 | The empty query selects the first registered scraper. |
| ScraperManager.ScraperManager.RecordScraperRunStart | scrapers/scraper_manager.ts:431-454 | Inserts a `running` row with the next id and returns that id. A throwing insert returns 0 and changes nothing. The other tables are untouched. |
| ScraperManager.ScraperManager.RecordScraperRunSuccess | scrapers/scraper_manager.ts:459-478 | Exactly the row with that id becomes `success`, with its end time and count. |
| ScraperManager.ScraperManager.RecordScraperRunFailure | scrapers/scraper_manager.ts:483-538 | The latest running row of the scraper becomes `failed`, or else a `failed` row is inserted; the message is `error.message` or 'Unknown error'. |
| ScraperManager.ScraperManager.RunTurn | scrapers/scraper_manager.ts:55-81 | One turn returns the scraper's contribution. With a database, the turn changes the ledger as `LedgerStep` says and leaves the other tables untouched. |
| ScraperManager.ScraperManager.RunAllOf | scrapers/scraper_manager.ts:54-83 | The loop returns the aggregate of all scrapers and leaves the ledger as `LedgerAfter` over every scraper. |
| ScraperManager.ScraperManager.RunAllScrapers | scrapers/scraper_manager.ts:49-86 | `runAllScrapers`: the aggregate of the job scrapers, filtered on `company`, together with its ledger effect. |
| ScraperManager.ScraperManager.RunAllEventScrapers | scrapers/scraper_manager.ts:140-178 | `runAllEventScrapers`: the aggregate of the event scrapers, filtered on `start_date`, together with its ledger effect. |
| ScraperManager.ScraperManager.RunOneOf | scrapers/scraper_manager.ts:91-135 | An unknown name throws "not found" and touches nothing. Otherwise the scraper's filtered items are returned, or its error is rethrown, with the same ledger effect as one turn. |
| ScraperManager.ScraperManager.RunScraper | scrapers/scraper_manager.ts:91-135 | `runScraper` over the job registry, filtered on `company`. |
| ScraperManager.ScraperManager.RunEventScraper | scrapers/scraper_manager.ts:183-227 | `runEventScraper` over the event registry, filtered on `start_date`. |
| ScraperManager.ScraperManager.StoreJobs | scrapers/scraper_manager.ts:338-426 | Without a database it throws. Otherwise the table and the two counts equal `StoreJobsSpec`, and the other tables are unchanged. A job that faults, or that binds a value D1 refuses, is skipped and counted nowhere. |
| ScraperManager.ScraperManager.StoreEvents | scrapers/scraper_manager.ts:229-333 | Without a database it throws. Otherwise the table and the two counts equal `StoreEventsSpec`, and the other tables are unchanged. An event that faults, or that binds a value D1 refuses, is skipped and counted nowhere. |
| ScraperManager.StoreOneJob | scrapers/scraper_manager.ts:347-421 | One job's statements: the look-up binds the key values, and the update or insert binds the rest. The new table and counts are `StoreJob` of the old ones, with the job skipped when it faults or when `JobBinds` fails. |
| ScraperManager.StoreOneEvent | scrapers/scraper_manager.ts:238-328 | One event's statements: the look-up binds url and title, and the update or insert binds the rest. The new table and counts are `StoreEvent` of the old ones, with the event skipped when it faults or when `EventBinds` fails. |
| RunLedger.StartRun | scrapers/scraper_manager.ts:433-449 | The start insert appends one `running` row for the scraper, with no end time, count or message, and keeps every earlier row. |
| RunLedger.CompleteRun | scrapers/scraper_manager.ts:461-474 | The success update changes only the row with the given id, to `success` with its end time and count, and leaves the rest of that row as it was. |
| RunLedger.FailRun | scrapers/scraper_manager.ts:485-534 | The failure statements keep the ledger's ids dense. |
| RunLedger.LatestRunning | scrapers/scraper_manager.ts:486-497 | Computes the position of the running row the failure path updates. LatestRunningIsMostRecent states which row that is. |
| RunLedger.LatestRunningIsMostRecent | scrapers/scraper_manager.ts:486-497 | The `ORDER BY start_time DESC LIMIT 1` query finds nothing exactly when no row of the scraper is running. Otherwise it finds a running row with no later start time, and ties go to the earliest row. |
| RunLedger.StartThenComplete | scrapers/scraper_manager.ts:431-478 | Starting and then completing a run leaves exactly one new row, in state `success`. |
| RunLedger.StartThenFail | scrapers/scraper_manager.ts:431-538 | Starting a run and then failing it, with no other running row of the scraper started as late, leaves exactly one new row, in state `failed`. |
| RunLedger.FailRunShape | scrapers/scraper_manager.ts:485-534 | A failure with no running row inserts one `failed` row whose start and end are now. Otherwise it marks the latest running row `failed` and adds nothing. |
| JobStore.FindJob | scrapers/scraper_manager.ts:350-358 | The look-up's result, when present, is an index into the table. |
| JobStore.FindJobSpec | scrapers/scraper_manager.ts:350-358 | The look-up finds nothing exactly when no row matches on (external_id, company) or (url, company). Otherwise it finds a matching row, the first one in table order. |
| JobStore.RemoteFlag | scrapers/scraper_manager.ts:376 | `is_remote` is written as 1 exactly when the value is truthy, and 0 otherwise. |
| JobStore.StoreJob | scrapers/scraper_manager.ts:347-421 | Computes the table and counters after one job's look-up and its UPDATE or INSERT. A job is skipped when one of its statements throws. StoreJobsSpec adds to the faulting positions every job that binds a value D1 refuses (`undefined`, an array or an object, bound raw or after its `\|\|` default). StoreJobKeeps, StoreJobFindsIt, StoreJobStep and StoreJobWritesDefaults state its effect. |
| JobStore.StoreJobKeeps | scrapers/scraper_manager.ts:360-417 | Storing one job removes no row and keeps every existing row's key columns. |
| JobStore.KeptStillMatches | scrapers/scraper_manager.ts:360-384 | The update leaves the key columns alone, so a row that matched a job still matches it. |
| JobStore.StoreJobFindsIt | scrapers/scraper_manager.ts:350-417 | After a keyed job is stored, the look-up finds it. A keyed job binds every value and has a url and a company that are not null. |
| ScraperManager.ObjectIdentifierRefused | scrapers/base_scraper.ts:98 | A normalised posting whose `identifier` is an object fails `JobBinds`, because its external id is that object. |
| ScraperManager.ObjectIdentifierIsSkipped | scrapers/scraper_manager.ts:355-356 | A normalised posting whose `identifier` is an object has that object as its external id. D1 refuses to bind it, so storing the job changes nothing and counts nothing. |
| JobStore.Unbindable | scrapers/scraper_manager.ts:355-415 | The refused positions are exactly the jobs that bind `undefined`, an array or an object in the look-up, or in the update or insert after the `\|\|` defaults. |
| JobStore.UnbindableJobSkipped | scrapers/scraper_manager.ts:419-421 | A job with a refused value leaves the table and both counts as the jobs before it left them. |
| JobStore.StoreJobKeepsFound | scrapers/scraper_manager.ts:350-417 | A job found before another job is stored is still found afterwards. |
| JobStore.StoreJobsPreserves | scrapers/scraper_manager.ts:338-426 | No row is deleted. Existing rows keep their key, creation time and promotion state. Ids stay index + 1. Every job outside the given failing set is counted exactly once, as added or as updated; StoreJobsSpec passes the faulting and the refused positions. |
| JobStore.StoreJobStep | scrapers/scraper_manager.ts:347-421 | One job keeps the ids dense, adds at most one row, and is counted once unless its statements throw. |
| JobStore.StoredJobStaysFound | scrapers/scraper_manager.ts:347-421 | Once stored, a keyed job stays findable after every later job in the batch. |
| JobStore.RestoringJobsOnlyUpdates | scrapers/scraper_manager.ts:338-426 | Storing the same batch of keyed jobs again adds no row and counts every job as updated. |
| JobStore.FoundJobsOnlyUpdate | scrapers/scraper_manager.ts:347-421 | A batch whose jobs are all found already, with none of them throwing, only updates. |
| JobStore.RestoreStep | scrapers/scraper_manager.ts:347-421 | Storing the next job of such a batch adds no row, counts it as updated, and leaves every job of the batch findable. |
| JobStore.StoreJobWritesDefaults | scrapers/scraper_manager.ts:366-416 | Both branches write the job's title, `job_type` defaulting to 'FULL_TIME', `status` defaulting to 'active', and `is_remote` as 1 or 0. |
| EventStore.FindEvent | scrapers/scraper_manager.ts:241-248 | The look-up on (url, title) finds nothing exactly when no row matches. Otherwise it finds a matching row, the first one in table order. |
| EventStore.StoreEvent | scrapers/scraper_manager.ts:238-328 | Computes the table and counters after one event's look-up and its UPDATE or INSERT. An event is skipped when one of its statements throws. StoreEventsSpec adds to the faulting positions every event that binds a value D1 refuses. StoreEventKeeps and StoreEventStep state its effect. |
| EventStore.StoreEventKeeps | scrapers/scraper_manager.ts:250-324 | Storing one event removes no row and keeps each row's id and url, and its title as D1 compares it. |
| EventStore.UnbindableEvents | scrapers/scraper_manager.ts:245-323 | The refused positions are exactly the events that bind `undefined`, an array or an object in the look-up, or in the update or insert after the `\|\|` defaults. |
| EventStore.UnbindableEventSkipped | scrapers/scraper_manager.ts:326-328 | An event with a refused value leaves the table and both counts as the events before it left them. |
| EventStore.StoreEventsPreserves | scrapers/scraper_manager.ts:229-333 | No row is deleted. Existing rows keep id, url, title and creation time. Ids stay distinct. The two counts together never exceed the number of events. |
| EventStore.StoreEventStep | scrapers/scraper_manager.ts:238-328 | One event keeps the ids distinct, adds at most one row, and is counted at most once. |
| BaseScraper.MatchingPrefix | scrapers/base_scraper.ts:56-60 | The walk over an array pushes only items of the requested `@type`. It stops at the first nullish element, where reading `@type` throws. |
| BaseScraper.ScriptItems | scrapers/base_scraper.ts:51-76 | Everything one script contributes has the requested `@type`; ScriptItemsComplete gives the converse. |
| BaseScraper.JsonLdItems | scrapers/base_scraper.ts:45-80 | Everything `extractJsonLd` returns has the requested `@type`; JsonLdItemsComplete gives the converse. |
| BaseScraper.JsonLdItemsAppend | scrapers/base_scraper.ts:50-77 | The results for two runs of scripts are the results of each run, concatenated in document order. |
| BaseScraper.UnparsableScriptIsSkipped | scrapers/base_scraper.ts:51-76 | A script whose JSON does not parse is caught, and the results are those of the page without it. |
| BaseScraper.NullItemEndsTheWalk | scrapers/base_scraper.ts:56-60 | A `null` array element ends that script's walk, and the items pushed before it stay. |
| BaseScraper.MatchingPrefixComplete | scrapers/base_scraper.ts:56-60 | Every item of the type that comes before the first nullish element is pushed. |
| BaseScraper.MatchingPrefixSound | scrapers/base_scraper.ts:56-60 | Every pushed item is an element of the type with no nullish element before it. With MatchingPrefixComplete this characterises the walk in both directions. |
| BaseScraper.ScriptItemsComplete | scrapers/base_scraper.ts:55-73 | An array script, or an item not of the type whose `itemListElement` is an array, contributes every item of the type before that array's first nullish element. |
| BaseScraper.ScriptItemsInResults | scrapers/base_scraper.ts:50-79 | Whatever one script contributes is among the page's results. |
| BaseScraper.JsonLdItemsComplete | scrapers/base_scraper.ts:45-80 | `extractJsonLd` returns every item of the type that an array script, or an `itemListElement` array, holds before its first nullish element. |
| BaseScraper.MatchingPrefixStops | scrapers/base_scraper.ts:56-60 | The walk over items up to and including a nullish element gives what the items before it give. |
| BaseScraper.SingleItem | scrapers/base_scraper.ts:63-73 | A single object is reported as itself exactly when its `@type` matches. Otherwise, without a truthy `itemListElement`, the object contributes nothing. |
| BaseScraper.ExtractJsonLd | scrapers/base_scraper.ts:45-80 | The nested loops return exactly `JsonLdItems`. |
| BaseScraper.PushScript | scrapers/base_scraper.ts:51-76 | One script's guarded block appends exactly that script's items. |
| BaseScraper.PushMatching | scrapers/base_scraper.ts:56-60 | The inner `forEach` appends exactly the matching prefix. |
| BaseScraper.JobLocation | scrapers/base_scraper.ts:91-93 | The location throws exactly for a `null` `jobLocation`. An object gives its locality or 'Indianapolis, IN'. A non-object gives itself or 'Indianapolis, IN'. |
| BaseScraper.NormalizeJob | scrapers/base_scraper.ts:85-104 | Computes the normalised record. NormalizeJobShape, NormalizeJobFlags and ExternalIdFallsBackToUrl state its fields. |
| BaseScraper.NormalizeJobShape | scrapers/base_scraper.ts:85-104 | Normalisation throws exactly on a nullish posting or a `null` location. Otherwise the record names the scraper's company and site, is `active`, and has every column the store writes. |
| BaseScraper.NormalizeJobFlags | scrapers/base_scraper.ts:85-104 | A normalised posting is remote exactly when its location type is `TELECOMMUTE`. The job type is the employment type, else 'FULL_TIME'. The external id is the identifier, else the url, else ''. The skills are an array's elements joined with ',', else ''. The posting date is set unless the posting has none and no clock value is given. |
| BaseScraper.ExternalIdFallsBackToUrl | scrapers/base_scraper.ts:94-98 | A posting with a url and no identifier has that url as its external id. |
| Listings.AsRecordKeys | scrapers/noblesville_gov_events_scraper.ts:92-112 | The event literal every scraper builds has exactly its nineteen keys, `start_date` among them. |
| NoblesvilleGovEvents.FindMonthDayFrom | scrapers/noblesville_gov_events_scraper.ts:7-17 | The search for `NN/NN` finds the leftmost occurrence at or after the start, and finds none exactly when there is none. |
| NoblesvilleGovEvents.StartDateDigits | scrapers/noblesville_gov_events_scraper.ts:15-26 | The start date is empty exactly when the first line has no `NN/NN`. Otherwise it is `year-MM-DD` with the month and day as written. |
| NoblesvilleGovEvents.LineTimeNotEmpty | scrapers/noblesville_gov_events_scraper.ts:8-31 | A time the pattern finds is never empty after trimming, so a found time is kept. |
| NoblesvilleGovEvents.FirstTimeIsFirstMatch | scrapers/noblesville_gov_events_scraper.ts:28-32 | The start time is the time of the first line that has one. |
| NoblesvilleGovEvents.NoTimeBefore | scrapers/noblesville_gov_events_scraper.ts:28-32 | Lines with no time leave the start time unset. |
| NoblesvilleGovEvents.DescriptionLines | scrapers/noblesville_gov_events_scraper.ts:33-36 | The description has at most one entry per line. |
| NoblesvilleGovEvents.DescriptionLinesAppend | scrapers/noblesville_gov_events_scraper.ts:33-36 | A line contributes its cleaned text when it is kept, and nothing when it is a bold line with an `NN/NN`. |
| NoblesvilleGovEvents.AllLinesKept | scrapers/noblesville_gov_events_scraper.ts:33-36 | When no line is a bold dated line, every line reaches the description. |
| NoblesvilleGovEvents.ParseDateTime | scrapers/noblesville_gov_events_scraper.ts:6-40 | `parseDateTime` returns the start date of the first line, the first time found and the description lines. The month argument is never read. |
| NoblesvilleGovEvents.TitleIsClean | scrapers/noblesville_gov_events_scraper.ts:79-80 | A title holds no `**` and has no white space at either end. |
| NoblesvilleGovEvents.UntitledIsClean | scrapers/noblesville_gov_events_scraper.ts:80 | The placeholder 'Untitled Event' is itself clean. |
| NoblesvilleGovEvents.UntitledIsTrimmed | scrapers/noblesville_gov_events_scraper.ts:80 | The placeholder is unchanged by trimming. |
| NoblesvilleGovEvents.UntitledHasNoStars | scrapers/noblesville_gov_events_scraper.ts:80 | The placeholder holds no `**`. |
| NoblesvilleGovEvents.FoundTitleIsClean | scrapers/noblesville_gov_events_scraper.ts:79-80 | A title captured after the em dash holds no `**` and is trimmed. |
| NoblesvilleGovEvents.CleanedTitle | scrapers/noblesville_gov_events_scraper.ts:80 | Removing every `**` and then trimming leaves no `**` and a trimmed text. |
| NoblesvilleGovEvents.GovEvent | scrapers/noblesville_gov_events_scraper.ts:76-117 | Computes the event of one block, or none. GovEventShape and GovEventHasStartDate state it. |
| NoblesvilleGovEvents.GovListing | scrapers/noblesville_gov_events_scraper.ts:92-112 | Builds a block's event literal. GovListingShape, GovListingFreeAndTime and GovListingLink state its fields. |
| NoblesvilleGovEvents.GovEventShape | scrapers/noblesville_gov_events_scraper.ts:76-117 | A block becomes an event exactly when its first line has an `NN/NN` and its title is not 'Untitled Event'. |
| NoblesvilleGovEvents.GovListingShape | scrapers/noblesville_gov_events_scraper.ts:92-112 | The event has its title and date, the city's site as its source, 'Community' and 'Noblesville, IN', and no end date or end time. |
| NoblesvilleGovEvents.GovListingFreeAndTime | scrapers/noblesville_gov_events_scraper.ts:96-115 | `is_free` is 1 exactly when the description mentions 'free' in any case. The start time is the first time found. |
| NoblesvilleGovEvents.GovListingLink | scrapers/noblesville_gov_events_scraper.ts:82-100 | The url and organizer are the first link's target and text. Without a link they are '' and the city. |
| NoblesvilleGovEvents.ProcessBlock | scrapers/noblesville_gov_events_scraper.ts:76-117 | The statements for one block compute exactly `GovEvent` of that block. |
| NoblesvilleGovEvents.ScanFromAppend | scrapers/noblesville_gov_events_scraper.ts:64-123 | Scanning two runs of lines is scanning the first, then the second. |
| NoblesvilleGovEvents.ScanStaysValid | scrapers/noblesville_gov_events_scraper.ts:64-123 | The loop keeps its buffer and its closed blocks well formed. |
| NoblesvilleGovEvents.BlocksWellFormed | scrapers/noblesville_gov_events_scraper.ts:64-165 | Every block processed opens with a bold em-dash line that is not a month header, and holds no other block-opening line and no month header. |
| NoblesvilleGovEvents.LastBlockFlushed | scrapers/noblesville_gov_events_scraper.ts:119-126 | A block-opening line followed by ordinary lines to the end of the file is processed last, as one block, after the loop. |
| NoblesvilleGovEvents.OrdinaryLinesExtend | scrapers/noblesville_gov_events_scraper.ts:120-122 | Ordinary lines join the open block. |
| NoblesvilleGovEvents.HeaderDropsOpenBlock | scrapers/noblesville_gov_events_scraper.ts:65-72 | A month header discards the open block without processing it. |
| NoblesvilleGovEvents.PreambleIgnored | scrapers/noblesville_gov_events_scraper.ts:64-123 | Lines before the first block-opening line, month headers included, do not change how the rest is grouped. |
| NoblesvilleGovEvents.PreambleLeavesNothing | scrapers/noblesville_gov_events_scraper.ts:64-123 | Such lines leave no open block and no closed block. |
| NoblesvilleGovEvents.MonthIsNotRead | scrapers/noblesville_gov_events_scraper.ts:66-87 | The month header never decides how lines are grouped. |
| NoblesvilleGovEvents.EventsHaveStartDate | scrapers/noblesville_gov_events_scraper.ts:91-116 | Every event the scraper returns has a `start_date`, so the manager's filter keeps all of them. |
| NoblesvilleGovEvents.ScanLine | scrapers/noblesville_gov_events_scraper.ts:64-123 | One pass of the loop performs exactly one scan `Step`, and keeps `events` equal to the events of the closed blocks. |
| NoblesvilleGovEvents.CloseBlock | scrapers/noblesville_gov_events_scraper.ts:76-118 | Processing the open block when a new one starts, or after the loop, closes exactly that block and appends exactly its event. |
| NoblesvilleGovEvents.Scrape | scrapers/noblesville_gov_events_scraper.ts:47-174 | `scrape()` returns exactly `GovEvents`: nothing for a missing or empty file, and otherwise the events of the flushed blocks in order. |
| NoblesvilleGovEvents.ListingEvents | scrapers/noblesville_gov_events_scraper.ts:61-165 | The events of a non-empty file are those of the blocks its lines are grouped into. |
| LdEvents.TwoDigits | scrapers/eventbrite_indiana_events_scraper.ts:45-46 | `padStart(2, '0')` turns a number below 100 into exactly two digits that read back as that number. |
| LdEvents.DateTextRoundTrip | scrapers/eventbrite_indiana_events_scraper.ts:45 | The date text is never empty and ends in the month and the day, two digits each, which read back as them. |
| LdEvents.TimeTextRoundTrip | scrapers/eventbrite_indiana_events_scraper.ts:46 | The time text is `HH:MM`, and the hour and minute read back from it. |
| LdEvents.ParseDateField | scrapers/eventbrite_indiana_events_scraper.ts:37-58 | A date field has a date text and a time text exactly when the raw value is truthy and a valid date. Otherwise it has '' and `undefined`. |
| LdEvents.LocationText | scrapers/eventbrite_indiana_events_scraper.ts:60-70 | The location is the place's name, else 'locality, region', else the locality, else the default, and never falsy when the default is not empty. |
| LdEvents.OfferPriceText | scrapers/eventbrite_indiana_events_scraper.ts:81-84 | The offer gives no price text exactly when neither its `price` nor its `priceSpecification.price` is truthy. Otherwise the text is `` `${price} ${priceCurrency \|\| ''}`.trim() `` of the offer when its `price` is truthy, and of its `priceSpecification` otherwise. |
| LdEvents.Tags | scrapers/eventbrite_indiana_events_scraper.ts:96-97 | An array of keywords is joined with ', ', a string of keywords is kept as it is, and any other value gives ''. |
| LdEvents.Collected | scrapers/eventbrite_indiana_events_scraper.ts:33-128 | The collected events are at most one per item, in item order. |
| LdEvents.CollectedAppend | scrapers/eventbrite_indiana_events_scraper.ts:33-128 | Collecting over two runs of items concatenates their events. |
| LdEvents.FailingItemSkipped | scrapers/eventbrite_indiana_events_scraper.ts:125-127 | An item whose mapping throws is caught and skipped, and the others give what they would without it. |
| LdEvents.EmittedIsCollected | scrapers/eventbrite_indiana_events_scraper.ts:99-121 | Every event an item's mapping emits is among the collected events. |
| LdEvents.CollectedHasKey | scrapers/eventbrite_indiana_events_scraper.ts:99-121 | When every emitted event has a key, so does everything collected. |
| LdEvents.CollectEvents | scrapers/eventbrite_indiana_events_scraper.ts:33-128 | The `for … of` loop with its per-item `try` returns exactly `Collected`. |
| EventbriteEvents.EventbritePriceText | scrapers/eventbrite_indiana_events_scraper.ts:78-88 | With no offers the price is 'Check ticket price'. When the first offer has a price or a specified price, the price is that offer's price text. Otherwise it is the offer's name when that is a string other than 'free' in any case, and 'Check ticket price' when it is not. |
| EventbriteEvents.OfferIsFree | scrapers/eventbrite_indiana_events_scraper.ts:91 | The free test throws exactly for a nullish offer, or for one whose price is not 0 or '0' and whose name is neither a string nor nullish. Otherwise the offer is free exactly when its price is 0 or '0', its name is 'free' in any case, or its `priceSpecification.price` is 0. |
| EventbriteEvents.PriceField | scrapers/eventbrite_indiana_events_scraper.ts:116 | A free event's price field reads 'free' in any case. A paid event's price field is the price text. |
| EventbriteEvents.EventbriteListingShape | scrapers/eventbrite_indiana_events_scraper.ts:99-120 | The event carries its title, url and start date, the site as source, 'Various' as category and a truthy location. `is_free` is 1 exactly when it is free. Its price then reads 'free', and otherwise it is the price text. |
| EventbriteEvents.EventbriteItem | scrapers/eventbrite_indiana_events_scraper.ts:35-124 | Computes one item's outcome: a throw, a skipped item or the event literal. EventbriteItemEmits and EventbriteListingShape state it. |
| EventbriteEvents.EventbriteItemEmits | scrapers/eventbrite_indiana_events_scraper.ts:35-124 | An item that does not throw is emitted exactly when it has a title, a url and a valid start date. Its event is then the literal built from its price text and free flag. |
| EventbriteEvents.EventbriteIsFree | scrapers/eventbrite_indiana_events_scraper.ts:90-92 | Computes the free test left to right. AccessibleForFreeIsFree, FreeOfferMakesFree and EventbriteIsFreeSpec state what it decides. |
| EventbriteEvents.AccessibleForFreeIsFree | scrapers/eventbrite_indiana_events_scraper.ts:90-92 | `isAccessibleForFree === true` makes the event free, and its offers are not read. |
| EventbriteEvents.EventbriteIsFreeSpec | scrapers/eventbrite_indiana_events_scraper.ts:90-92 | When the free test does not throw, the event is free exactly when it is marked `isAccessibleForFree`, when some offer passes the offer test, or when its price text is 'free' in any case. |
| EventbriteEvents.FreeOfferMakesFree | scrapers/eventbrite_indiana_events_scraper.ts:91 | Any free offer among several makes the event free, provided no offer before it throws. |
| EventbriteEvents.EventbriteEventsHaveStartDate | scrapers/eventbrite_indiana_events_scraper.ts:99-121 | Every event the scraper returns has a `start_date`. |
| EventbriteEvents.Scrape | scrapers/eventbrite_indiana_events_scraper.ts:14-135 | `scrape()` returns nothing for a failed or empty fetch, and otherwise exactly the collected events of the page's `Event` items. |
| HamiltonEvents.FullAddress | scrapers/visit_hamilton_county_events_scraper.ts:77-81 | The address is the street address or ''. When locality, region and postal code are all truthy, 'locality, region postal' is appended after a comma, or stands alone when there is no street address. |
| HamiltonEvents.HamiltonPriceText | scrapers/visit_hamilton_county_events_scraper.ts:88-97 | The price is '' unless the first offer has a price or a specified price, and then it is that offer's price text. |
| HamiltonEvents.HamiltonIsFree | scrapers/visit_hamilton_county_events_scraper.ts:99-101 | Computes the free test left to right. HamiltonIsFreeSpec states what it decides. |
| HamiltonEvents.HamiltonIsFreeSpec | scrapers/visit_hamilton_county_events_scraper.ts:99-101 | When the free test does not throw, the event is free exactly when it is marked `isAccessibleForFree`, when some offer is priced 0 or '0', or when its price text is 'free' in any case. |
| HamiltonEvents.OfferPricedZero | scrapers/visit_hamilton_county_events_scraper.ts:100 | The free test throws exactly for a nullish offer, and otherwise holds exactly when the price is 0 or '0'. |
| HamiltonEvents.HamiltonPriceField | scrapers/visit_hamilton_county_events_scraper.ts:125 | A free event's price field mentions 'free' and keeps a price text that already does. A paid event's price field is the price text. |
| HamiltonEvents.HamiltonListingShape | scrapers/visit_hamilton_county_events_scraper.ts:108-129 | The event carries its title, url and start date and the site as source. Its category, venue and location are always truthy. |
| HamiltonEvents.HamiltonListingPrice | scrapers/visit_hamilton_county_events_scraper.ts:99-126 | The address is the text given, `is_free` is 1 exactly when the event is free, and the price is the price field. |
| HamiltonEvents.HamiltonItem | scrapers/visit_hamilton_county_events_scraper.ts:37-133 | Computes one item's outcome: a throw, a skipped item or the event literal. HamiltonItemEmits and HamiltonListingShape state it. |
| HamiltonEvents.HamiltonItemEmits | scrapers/visit_hamilton_county_events_scraper.ts:37-133 | An item that does not throw is emitted exactly when it has a title, a url and a valid start date, and then as its literal with the address trimmed. |
| HamiltonEvents.NullOfferThrows | scrapers/visit_hamilton_county_events_scraper.ts:99-101 | A `null` offer, with no earlier offer priced zero, makes the item throw, so the item is skipped. |
| HamiltonEvents.CollectHamiltonEvents | scrapers/visit_hamilton_county_events_scraper.ts:14-144 | `scrape()` returning `allEvents` gives nothing for a failed fetch, and otherwise the collected events of the page's `Event` items. |
| HamiltonEvents.MappedEventIsCollected | scrapers/visit_hamilton_county_events_scraper.ts:108-130 | Every item that maps to an event contributes it to `allEvents`. |
| HamiltonEvents.ScrapeAsWritten | scrapers/visit_hamilton_county_events_scraper.ts:14-146 | As written, `scrape()` returns only for a failed fetch, and then returns nothing. Every other call ends by throwing at `return events`. |
| HamiltonEvents.AsWrittenLosesEvents | scrapers/visit_hamilton_county_events_scraper.ts:130-145 | A page with an item that maps to an event makes the code as written throw, while the events collected are not empty. |
| EventLinks.NonEmpty | scrapers/noblesville_parks_calendar_scraper.ts:132-133 | `text \|\| undefined` is undefined exactly for the empty text, and is the text otherwise. |
| EventLinks.HyphenNeedsDash | scrapers/noblesville_parks_calendar_scraper.ts:131 | Every match of `\s*-\s*` holds a '-', so a text without one is not split. |
| EventLinks.Dedupe | scrapers/noblesville_parks_calendar_scraper.ts:266 | `[...new Set(links)]` is never longer than the links. |
| EventLinks.DedupeSpec | scrapers/noblesville_parks_calendar_scraper.ts:266 | `[...new Set(links)]` holds no link twice and holds exactly the links found. |
| EventLinks.DedupeKeepsDistinct | scrapers/noblesville_parks_calendar_scraper.ts:266 | Links that are already all different come out unchanged and in the same order. |
| EventLinks.DedupeSkipsRepeat | scrapers/noblesville_mainstreet_events_scraper.ts:241 | A link seen before adds nothing when it is found again. |
| EventLinks.FirstLinks | scrapers/noblesville_parks_calendar_scraper.ts:269 | `slice(0, 10)` is a prefix of at most ten links, and keeps all of them when there are no more than ten. |
| EventLinks.PageEvents | scrapers/noblesville_parks_calendar_scraper.ts:271-281 | At most one event is collected per followed link. |
| EventLinks.PageEventFound | scrapers/noblesville_parks_calendar_scraper.ts:274-277 | Every event read from a followed page is among the results. |
| EventLinks.PageEventsAppend | scrapers/noblesville_mainstreet_events_scraper.ts:246-255 | Following two runs of links collects their events one after the other. |
| EventLinks.CollectPageEvents | scrapers/noblesville_mainstreet_events_scraper.ts:246-255 | The `for … of` loop that pushes each event found returns exactly `PageEvents`. |
| NoblesvilleParks.ItemLink | scrapers/noblesville_parks_calendar_scraper.ts:252-261 | An item adds nothing, or the `href` of its `EID=` anchor. |
| NoblesvilleParks.FallbackLink | scrapers/noblesville_parks_calendar_scraper.ts:242-250 | An anchor adds nothing, or its own `href`. |
| NoblesvilleParks.ItemLinksSpec | scrapers/noblesville_parks_calendar_scraper.ts:252-261 | A link comes from the structured list exactly when some item's anchor carries it and it is local and not a CivicRec link. |
| NoblesvilleParks.FallbackLinksSpec | scrapers/noblesville_parks_calendar_scraper.ts:242-250 | A link comes from the fallback scan exactly when some anchor reading "More Details" in any case carries it and it is local and not a CivicRec link. |
| NoblesvilleParks.ParkLinksKept | scrapers/noblesville_parks_calendar_scraper.ts:231-262 | Every link found, by either route, is local and not a CivicRec link. |
| NoblesvilleParks.CollectItemLinks | scrapers/noblesville_parks_calendar_scraper.ts:252-261 | The `forEach` over the items pushes exactly the structured list's links. |
| NoblesvilleParks.CollectFallbackLinks | scrapers/noblesville_parks_calendar_scraper.ts:242-250 | The `forEach` over the `EID=` anchors pushes exactly the fallback links. |
| NoblesvilleParks.CollectParkLinks | scrapers/noblesville_parks_calendar_scraper.ts:231-262 | `eventLinks` is the structured list's links, or the fallback's only when the list has no items. |
| NoblesvilleParks.FollowedLinks | scrapers/noblesville_parks_calendar_scraper.ts:266-269 | The links followed are at most ten, all different, each found on the page and kept. When no more than ten different links were found, all of them are followed. |
| NoblesvilleParks.ParkDate | scrapers/noblesville_parks_calendar_scraper.ts:118-125 | The start date is '' exactly when there is no date text or the text without commas is not a valid date; otherwise it is that date written as YYYY-MM-DD. |
| NoblesvilleParks.LineBreakRunNeedsNewline | scrapers/noblesville_parks_calendar_scraper.ts:145 | Every match of `\s*\n\s*` holds a line break. |
| NoblesvilleParks.NoHyphenParts | scrapers/noblesville_parks_calendar_scraper.ts:131-133 | A trimmed time text without a '-' splits into itself alone: it is the start time, and there is no end time. |
| NoblesvilleParks.ParkTimes | scrapers/noblesville_parks_calendar_scraper.ts:128-136 | Computes the start and end time from the trimmed time text. ParkTimesCases, SingleTime and HyphenTimes state its cases. |
| NoblesvilleParks.ParkTimesCases | scrapers/noblesville_parks_calendar_scraper.ts:128-136 | 'All Day' in any case gives the start time 'All Day' and no end time. No time text gives neither. |
| NoblesvilleParks.SingleTime | scrapers/noblesville_parks_calendar_scraper.ts:128-136 | A time text that is not 'all day' and has no '-' is the start time as it stands, with no end time. |
| NoblesvilleParks.HyphenTimes | scrapers/noblesville_parks_calendar_scraper.ts:128-133 | A time text such as '5:30 PM - 7:00 PM', two trimmed times without a hyphen around ' - ', starts at the first time and ends at the second. |
| NoblesvilleParks.SplitAroundHyphen | scrapers/noblesville_parks_calendar_scraper.ts:131 | `split(/\s*-\s*/)` cuts such a text into exactly its two times. |
| NoblesvilleParks.HyphenNotAllDay | scrapers/noblesville_parks_calendar_scraper.ts:130 | A text holding a hyphen is never 'all day' in any case, so it reaches the split. |
| NoblesvilleParks.OneLineAddress | scrapers/noblesville_parks_calendar_scraper.ts:144-145 | An address whose trimmed text has no line break is that trimmed text. |
| NoblesvilleParks.ParkDescription | scrapers/noblesville_parks_calendar_scraper.ts:155-171 | Without a container the description is ''. Otherwise it is the container's trimmed text, with a leading copy of the title cut off and the rest trimmed. |
| NoblesvilleParks.ParkEvent | scrapers/noblesville_parks_calendar_scraper.ts:44-203 | Computes `parseEventPage` from a page's selector results. ParkEventExists states when it yields an event. |
| NoblesvilleParks.ParkListing | scrapers/noblesville_parks_calendar_scraper.ts:177-198 | Builds a page's event literal. ParkListingPrice, ParkListingFree, ParkListingPlace and ParkListingAddress state its fields. |
| NoblesvilleParks.ParkEventExists | scrapers/noblesville_parks_calendar_scraper.ts:98-103 | A page yields an event exactly when it was fetched and has a title. |
| NoblesvilleParks.ParkListingPrice | scrapers/noblesville_parks_calendar_scraper.ts:177-193 | The event keeps the page's url and title, and its price is the cost text. |
| NoblesvilleParks.ParkListingFree | scrapers/noblesville_parks_calendar_scraper.ts:194 | `is_free` is 1 exactly when the cost mentions 'free' in any case or is empty. |
| NoblesvilleParks.ParkListingPlace | scrapers/noblesville_parks_calendar_scraper.ts:188-189 | The location and the venue are the venue text, or without one 'Noblesville, IN' and 'Noblesville Park Location'. |
| NoblesvilleParks.ParkListingAddress | scrapers/noblesville_parks_calendar_scraper.ts:190 | The address is the address text. Without one it is the venue, unless the venue is 'Noblesville, IN', in which case it is ''. |
| NoblesvilleParks.Scrape | scrapers/noblesville_parks_calendar_scraper.ts:206-285 | `scrape()` returns nothing for a calendar it could not fetch. Otherwise it returns the events of the first ten different links, in order, skipping a link whose URL does not resolve or whose page gives no event. |
| NoblesvilleMainstreet.ResolvedSpec | scrapers/noblesville_mainstreet_events_scraper.ts:218-225 | The anchors resolve exactly when every non-empty `href` resolves. The links are then exactly the resolved non-empty `href`s, and there are none exactly when no anchor has one. |
| NoblesvilleMainstreet.MainLinksFallback | scrapers/noblesville_mainstreet_events_scraper.ts:218-237 | The read-more anchors are used exactly when no title link has an `href`. Otherwise the links are the resolved title links. |
| NoblesvilleMainstreet.CollectMainLinks | scrapers/noblesville_mainstreet_events_scraper.ts:218-237 | The two anchor loops return exactly `MainLinks`, whose content `ResolvedSpec` and `MainLinksFallback` state. |
| NoblesvilleMainstreet.CollectLinks | scrapers/noblesville_mainstreet_events_scraper.ts:218-225 | The `forEach` over the anchors pushes exactly the resolved links, or throws where `new URL` throws. |
| NoblesvilleMainstreet.ResolvedThrowsOn | scrapers/noblesville_mainstreet_events_scraper.ts:222 | A `new URL` that throws, being uncaught, ends the whole `forEach`. |
| NoblesvilleMainstreet.ParsedDate | scrapers/noblesville_mainstreet_events_scraper.ts:130-136 | A date text gives a date exactly when it is not empty and is a valid date. The date is then in `YYYY-MM-DD` form. |
| NoblesvilleMainstreet.FirstNonEmpty | scrapers/noblesville_mainstreet_events_scraper.ts:84-137 | The first date source that yields one is used. The result is '' exactly when none does, and is otherwise one of them. |
| NoblesvilleMainstreet.ImageUrl | scrapers/noblesville_mainstreet_events_scraper.ts:184 | An absolute image URL is kept, an empty one stays '', and a relative one is resolved against the site (`None` when that throws). |
| NoblesvilleMainstreet.ParagraphTimeStatements | scrapers/noblesville_mainstreet_events_scraper.ts:100-115 | The statements on the time paragraph set the start and end time that `ParagraphTimes` gives. |
| NoblesvilleMainstreet.PageDateAndTimes | scrapers/noblesville_mainstreet_events_scraper.ts:80-143 | The date and time statements, run in source order, give `PageStartDate` and `PageTimes`. |
| NoblesvilleMainstreet.ParseEventPage | scrapers/noblesville_mainstreet_events_scraper.ts:66-196 | `parseEventPage` run statement by statement gives the event `MainEvent` describes. |
| NoblesvilleMainstreet.MainEvent | scrapers/noblesville_mainstreet_events_scraper.ts:14-196 | Computes `parseEventPage` from a page's selector results. MainEventExists states when it yields an event, and ParseEventPage computes it statement by statement. |
| NoblesvilleMainstreet.MainListing | scrapers/noblesville_mainstreet_events_scraper.ts:170-190 | Builds a page's event literal. MainListingPlace and MainListingFlags state its fields. |
| NoblesvilleMainstreet.MainEventExists | scrapers/noblesville_mainstreet_events_scraper.ts:69-74 | A page yields an event exactly when it was fetched, has a title, and its image URL resolves (a throwing `new URL` is caught and gives `null`). |
| NoblesvilleMainstreet.StartDatePrecedence | scrapers/noblesville_mainstreet_events_scraper.ts:84-137 | The start date is the `datetime` attribute when there is one. Otherwise it is the paragraph's date when that parses, and otherwise the meta date's. |
| NoblesvilleMainstreet.ParagraphDateSpec | scrapers/noblesville_mainstreet_events_scraper.ts:91-99 | The paragraph gives a date exactly when it holds a "Month D, YYYY" that is a valid date, and the date is then that text in `YYYY-MM-DD` form. |
| NoblesvilleMainstreet.EmptyParagraphNoDate | scrapers/noblesville_mainstreet_events_scraper.ts:92 | An empty paragraph holds no date. |
| NoblesvilleMainstreet.ThreeSegmentTimes | scrapers/noblesville_mainstreet_events_scraper.ts:102-107 | With three or more segments and a time in the second, the times are the first times of the second and third segments. |
| NoblesvilleMainstreet.OneSegmentTime | scrapers/noblesville_mainstreet_events_scraper.ts:112-115 | A paragraph that is one segment holding a time gives that time as the start, and no end time. |
| NoblesvilleMainstreet.MetaTimeFallback | scrapers/noblesville_mainstreet_events_scraper.ts:138-143 | When no start time was found, both times come from the meta time text split at its hyphen, replacing any end time found before. |
| NoblesvilleMainstreet.SegmentTimeNotEmpty | scrapers/noblesville_mainstreet_events_scraper.ts:101 | A time found in a segment starts with a digit and so is never empty. |
| NoblesvilleMainstreet.PageVenue | scrapers/noblesville_mainstreet_events_scraper.ts:153-167 | Computes the venue. PageVenueSpec states its cases. |
| NoblesvilleMainstreet.DescribedVenue | scrapers/noblesville_mainstreet_events_scraper.ts:162-166 | Computes the place named after `Location:`, else after `@`: the captured text up to its first comma, trimmed. PageVenueSpec states where it is used. |
| NoblesvilleMainstreet.PageVenueSpec | scrapers/noblesville_mainstreet_events_scraper.ts:153-167 | The venue is the venue link's text when it is not 'Noblesville, IN'. Without a link or address, it is the place named in the description, and otherwise the town. |
| NoblesvilleMainstreet.MainListingPlace | scrapers/noblesville_mainstreet_events_scraper.ts:181-183 | The location is the venue and the address is kept. The venue field is the venue, except that the town is written 'Downtown Noblesville'. |
| NoblesvilleMainstreet.MainListingFlags | scrapers/noblesville_mainstreet_events_scraper.ts:170-190 | The event has no end date and keeps its url, start date and image URL. `is_free` is 1 exactly when the description or the title mentions 'free' in any case. |
| NoblesvilleMainstreet.FollowedMainLinks | scrapers/noblesville_mainstreet_events_scraper.ts:241-244 | The links followed are at most ten, all different, and each was found on the page. |
| NoblesvilleMainstreet.Scrape | scrapers/noblesville_mainstreet_events_scraper.ts:198-259 | `scrape()` returns nothing for a page it could not fetch, and throws when a link's URL does not resolve. Otherwise it returns the events of the first ten different links, in order. |
| ExpirePremium.DemotedSpec | scheduled/expire-premium-jobs.ts:61-103 | An UPDATE switches off its own promotion and sets its end date to NULL and `updated_at` to now. Every other promotion and column is left alone. |
| ExpirePremium.Selection | scheduled/expire-premium-jobs.ts:25-47 | A SELECT returns no more rows than the table has. |
| ExpirePremium.SelectionSpec | scheduled/expire-premium-jobs.ts:25-47 | An id is selected exactly when some row with it has the flag 1, an end date before now and no `deleted_at`. |
| ExpirePremium.SelectedIffExpired | scheduled/expire-premium-jobs.ts:25-47 | With unique ids, a listing is selected for a promotion exactly when that promotion has expired. |
| ExpirePremium.UpdateExtends | scheduled/expire-premium-jobs.ts:62-71 | Running one more `UPDATE … WHERE id = ?` after the others demotes the rows of all the ids so far. |
| ExpirePremium.ExpireRow | scheduled/expire-premium-jobs.ts:61-103 | Computes one listing after the three passes. ExpireRowSpec, SoftDeletedUntouched and ExpireIdempotent state its effect. |
| ExpirePremium.ExpireRowSpec | scheduled/expire-premium-jobs.ts:61-103 | Each expired promotion is switched off, with its end date NULL. `updated_at` becomes now only when something expired, and nothing else changes. |
| ExpirePremium.SoftDeletedUntouched | scheduled/expire-premium-jobs.ts:30 | A soft-deleted listing is never modified. |
| ExpirePremium.ExpireIdempotent | scheduled/expire-premium-jobs.ts:25-103 | Afterwards no promotion is expired, and a second run at the same time changes nothing. |
| ExpirePremium.ExpiryPersists | scheduled/expire-premium-jobs.ts:29 | A promotion that has expired at one time has also expired at any later time. |
| ExpirePremium.TotalCountsPromotions | scheduled/expire-premium-jobs.ts:53 | `totalExpiredJobs` counts expired promotions, not listings. |
| ExpirePremium.ZeroTotalChangesNothing | scheduled/expire-premium-jobs.ts:53-58 | The total is 0 exactly when no listing has an expired promotion, and then the table is left as it was. |
| ExpirePremium.ThreePasses | scheduled/expire-premium-jobs.ts:61-103 | With unique ids, the three UPDATE passes on the earlier selections expire every listing as `ExpireRow` says. |
| ExpirePremium.Outcome | scheduled/expire-premium-jobs.ts:53-112 | Computes the returned message, count and rows. OutcomeSpec states them. |
| ExpirePremium.OutcomeSpec | scheduled/expire-premium-jobs.ts:53-112 | 'No expired premium jobs found' is returned exactly when nothing expired. Otherwise the message's number is the count of expired promotions, and the reported rows are exactly the expired ones, each with the flag 1 and an end date before now. |
| ExpirePremium.SelectionRowsExpired | scheduled/expire-premium-jobs.ts:28-29 | Every selected row has the flag 1 and an end date before now. |
| ExpirePremium.DemoteSelected | scheduled/expire-premium-jobs.ts:61-73 | One promotion's UPDATEs demote exactly the selected ids' rows and leave the other tables alone. |
| ExpirePremium.ExpirePremiumJobs | scheduled/expire-premium-jobs.ts:10-117 | Without a database it fails with 'Database connection error'. A failing SELECT gives 'Failed to expire premium jobs' and changes nothing. Otherwise it returns `Outcome` and leaves the listings as `ExpireAll` says, with the other tables unchanged. The database stays valid in every case. |

## Left out

- Fetching (`fetchHtml`, scrapers/base_scraper.ts:16-40, and each scraper's `fetch`) is not modelled. A page arrives as its content, or `None` when the fetch failed or gave nothing.
- HTML parsing (`parseHTML`, `querySelector`, `textContent`) is not modelled. A page arrives as the results of the selectors the scraper applies to it.
- `JSON.parse` is not modelled. A structured-data script arrives already parsed, with `None` standing for a text it rejects.
- `new Date(text)` and its local-time getters are a parser parameter, and `new URL(href, root)` is a resolver parameter. The calendar rules behind them are not modelled.
- The clock is one `now` text per call, and the current year is a parameter of the gov events scraper. The run durations are only logged, so they are left out.
- Console logging is left out everywhere.
- A scraper's `constructor.name` is given as a name string for each registered scraper.
- The job scrapers (Lilly, Anthem, Roche and the rest) are not part of this model. A job scraper's `scrape()` is given as the outcome of its run.
- The JSON-LD branches of `parseEventPage` in the parks and Main Street scrapers (scrapers/noblesville_parks_calendar_scraper.ts:52-93, scrapers/noblesville_mainstreet_events_scraper.ts:22-64) are not modelled. A detail page is read through its DOM branch only.
- `parseEventDateTime` (scrapers/noblesville_parks_calendar_scraper.ts:13-41) is not modelled, because nothing calls it.
- ExpirePremium.ExpirePremiumJobs: the three SELECTs run one after the other, and each is modelled as returning rows in table order (SQL leaves the order unspecified). A failure of some of the UPDATE statements under `Promise.all` is not modelled, because which sibling statements take effect is undetermined. Only a failing SELECT is modelled.
- StoreJob, StoreEvent: a look-up compares the stored value with the bound value, booleans read as the 1 or 0 D1 stores. SQLite's column affinity is not modelled: the schema is not part of this model, and in D1 a number bound against a TEXT column is compared as text. So a job whose external id is the number 7 and a row holding '7' match in D1 but not here.
- The D1 database is three sequences of rows in memory. Statements are atomic, and concurrent runs of the manager or of `expirePremiumJobs` are not modelled.
- `toLowerCase` is modelled for ASCII letters only. This is exact for the literals it is compared with ('free', 'all day', 'more details' and the scraper names). It is not exact for arbitrary text: JavaScript also lower-cases letters outside ASCII, and can lengthen a string ('İ').
- FindScraper: the name a caller passes to `runScraper` or `runEventScraper` is assumed to be ASCII. A query such as the Kelvin sign U+212A, which JavaScript lower-cases to 'k', matches a scraper in the source but nothing in the model.
- FindJob, FindEvent: the look-ups at scrapers/scraper_manager.ts:242-243 and 351-352 have no ORDER BY, and the source reads `results[0]`. The model takes the first matching row in table order; SQL leaves that order unspecified.
- RecordScraperRunSuccess, RecordScraperRunFailure: the errors these statements catch and log (scrapers/scraper_manager.ts:459-477 and 483-537) are not modelled; only the start INSERT can fail. In the source a failed success UPDATE leaves the row 'running', and that scraper's next failure then marks the stale row 'failed' instead of inserting a new one. The model does not capture this.
- JavaScript numbers are integers in the model (`Js.Num`). A fractional JSON number such as a price of 12.5 cannot be an input. So `` `${price} ${priceCurrency}` `` and the `price === 0` tests are modelled over integers only. `String()` of an integer of 1e21 or more gives plain digits here, where JavaScript writes an exponent.
- The cron triggers, the HTTP routes, `config_types` and the Python scripts are not part of this model.

## Findings

| source | as written | input that shows it | evidently intended | confidence | as-written member | corrected member |
|---|---|---|---|---|---|---|
| scrapers/visit_hamilton_county_events_scraper.ts:145 | `scrape()` ends with `return events`, a name declared nowhere in the method, so every call that fetched a page throws a `ReferenceError` and the events gathered in `allEvents` are lost | any fetched page, for example one whose structured data holds one `Event` item with a name, a url and a valid start date | `return allEvents` | not executed; high | HamiltonEvents.AsWrittenLosesEvents | HamiltonEvents.CollectHamiltonEvents |
