/**
 * The three D1 tables the core reads and writes: `job_listings`, `events` and
 * `scraper_runs`. Columns that the scrapers fill from loosely typed records hold the
 * JavaScript value that was bound into them, a boolean standing for the 1 or 0 that D1
 * stores (`AsStored`); the promotion columns of `job_listings` and the whole of
 * `scraper_runs` are written only with values of one type.
 */
module Tables {
  import opened Options
  import opened Text
  import opened Js

  /** A `job_listings` row. */
  datatype JobRow = JobRow(
    id: nat,
    title: Value, company: Value, description: Value, location: Value, url: Value,
    salary: Value, jobType: Value, datePosted: Value, externalId: Value, isRemote: Value,
    skills: Value, source: Value, status: Value, createdAt: Value, updatedAt: Value,
    isFeatured: int, featuredUntil: Option<string>,
    isUrgent: int, urgentUntil: Option<string>,
    isSpotlight: int, spotlightUntil: Option<string>,
    deletedAt: Option<string>)

  /** An `events` row; `id` is the text key the store generates. */
  datatype EventRow = EventRow(
    id: string,
    title: Value, description: Value, location: Value, venue: Value, address: Value,
    startDate: Value, endDate: Value, startTime: Value, endTime: Value,
    imageUrl: Value, category: Value, tags: Value, url: Value, price: Value, isFree: Value,
    organizer: Value, source: Value, createdAt: Value, updatedAt: Value)

  /** A `scraper_runs` row; `None` is SQL NULL. */
  datatype RunRow = RunRow(
    id: nat, scraperName: string, startTime: string, endTime: Option<string>,
    status: string, jobsFound: Option<nat>, errorMessage: Option<Value>, createdAt: string)

  /** A value D1 accepts as a bound parameter: `null`, a boolean, a number or a string.
      Binding `undefined`, an array or an object makes D1 reject the statement, which
      then throws. */
  predicate Bindable(v: Value) {
    v.Null? || v.Bool? || v.Num? || v.Str?
  }

  /** `v || d`, for a default `d` that binds, binds exactly when `v` is falsy or binds. */
  predicate BindsOr(v: Value) {
    !Truthy(v) || Bindable(v)
  }

  /** Every one of `keys` binds after its `||` default. */
  predicate DefaultsBind(rec: Record, keys: set<string>) {
    forall k :: k in keys ==> BindsOr(Field(rec, k))
  }

  /** The value D1 stores for a bound value: `true` and `false` become 1 and 0. */
  function AsStored(v: Value): (r: Value)
    ensures !r.Bool?
    ensures v.Bool? ==> r == Num(if v.b then 1 else 0)
    ensures Bindable(v) ==> Bindable(r)
  {
    if v.Bool? then Num(if v.b then 1 else 0) else v
  }

  /** `column = ?` in a WHERE clause, both values read as D1 stores them: NULL equals
      nothing, not even NULL. */
  predicate SqlEq(column: Value, bound: Value) {
    var c := AsStored(column);
    (c.Str? || c.Num?) && c == AsStored(bound)
  }

  /** Auto-increment ids: rows are never deleted, so the row at index `i` has id `i + 1`. */
  predicate JobIdsDense(rows: seq<JobRow>) {
    forall i :: 0 <= i < |rows| ==> rows[i].id == i + 1
  }

  predicate RunIdsDense(rows: seq<RunRow>) {
    forall i :: 0 <= i < |rows| ==> rows[i].id == i + 1
  }

  /** `events.id` is the primary key. */
  predicate EventIdsDistinct(rows: seq<EventRow>) {
    forall i, j :: 0 <= i < j < |rows| ==> rows[i].id != rows[j].id
  }

  predicate HasEventId(rows: seq<EventRow>, id: string) {
    exists i :: 0 <= i < |rows| && rows[i].id == id
  }

  /** The D1 database bound as `env.DB`; its tables change in place. */
  class Database {
    var jobListings: seq<JobRow>
    var events: seq<EventRow>
    var scraperRuns: seq<RunRow>

    ghost predicate Valid()
      reads this
    {
      JobIdsDense(jobListings) && EventIdsDistinct(events) && RunIdsDense(scraperRuns)
    }

    constructor(jobs: seq<JobRow>, evs: seq<EventRow>, runs: seq<RunRow>)
      requires JobIdsDense(jobs) && EventIdsDistinct(evs) && RunIdsDense(runs)
      ensures Valid()
      ensures jobListings == jobs && events == evs && scraperRuns == runs
    {
      jobListings := jobs;
      events := evs;
      scraperRuns := runs;
    }
  }
}
