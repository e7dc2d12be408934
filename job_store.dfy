/**
 * What `storeJobs` does to `job_listings`: one look-up and one write per job, on the
 * natural key (external id, company) or (url, company), with the defaults of the bound
 * values. A job whose statements throw (a fault of the database, or a value D1 refuses
 * to bind) changes nothing and is counted nowhere.
 */
module JobStore {
  import opened Options
  import opened Text
  import opened Js
  import opened Tables

  /** The table and the two counters after some prefix of the jobs. */
  datatype JobStoreState = JobStoreState(rows: seq<JobRow>, added: nat, updated: nat)

  /** The look-up binds `external_id`, `company` and `url` as they are. */
  predicate LookupBinds(job: Record) {
    Bindable(Field(job, "external_id")) && Bindable(Field(job, "company")) && Bindable(Field(job, "url"))
  }

  /** The update and the insert bind `title` and `location` as they are and the other
      columns after their `||` defaults; the insert's `company`, `url` and `external_id`
      have been bound by the look-up already. */
  predicate WriteBinds(job: Record) {
    Bindable(Field(job, "title")) && Bindable(Field(job, "location")) && DefaultsBind(job, DefaultedJobColumns)
  }

  /** The columns the update and the insert bind as `job.k || default`. */
  const DefaultedJobColumns: set<string> :=
    {"description", "salary", "job_type", "date_posted", "skills", "source", "status"}

  /** D1 accepts every value the job's statements bind. */
  predicate JobBinds(job: Record) {
    LookupBinds(job) && WriteBinds(job)
  }

  /** The look-up's WHERE clause for one row. */
  predicate MatchesJob(row: JobRow, job: Record) {
    (SqlEq(row.externalId, Field(job, "external_id")) && SqlEq(row.company, Field(job, "company")))
    || (SqlEq(row.url, Field(job, "url")) && SqlEq(row.company, Field(job, "company")))
  }

  /** The first matching row in table order, as `results[0]`. */
  function FindJob(rows: seq<JobRow>, job: Record): (r: Option<nat>)
    ensures r.Some? ==> r.value < |rows|
  {
    if rows == [] then None
    else if MatchesJob(rows[0], job) then Some(0)
    else
      var r := FindJob(rows[1..], job);
      if r.None? then None else Some(r.value + 1)
  }

  /** The look-up finds nothing exactly when no row matches, and otherwise the first
      matching row. */
  lemma {:induction false} FindJobSpec(rows: seq<JobRow>, job: Record)
    ensures var r := FindJob(rows, job);
      && (r.None? <==> forall i :: 0 <= i < |rows| ==> !MatchesJob(rows[i], job))
      && (r.Some? ==> MatchesJob(rows[r.value], job))
      && (r.Some? ==> forall i :: 0 <= i < r.value ==> !MatchesJob(rows[i], job))
  {
    if rows != [] && !MatchesJob(rows[0], job) {
      FindJobSpec(rows[1..], job);
      assert forall i :: 1 <= i < |rows| ==> rows[i] == rows[1..][i - 1];
    }
  }

  /** `is_remote ? 1 : 0` */
  function RemoteFlag(v: Value): (r: Value)
    ensures r == Num(1) || r == Num(0)
    ensures r == Num(1) <==> Truthy(v)
  {
    if Truthy(v) then Num(1) else Num(0)
  }

  /** The `UPDATE`: the SET list, and nothing else. */
  function UpdatedJob(row: JobRow, job: Record, now: string): JobRow {
    row.(
      title := Field(job, "title"),
      description := Or(Field(job, "description"), Str("")),
      location := Field(job, "location"),
      salary := Or(Field(job, "salary"), Str("")),
      jobType := Or(Field(job, "job_type"), Str("FULL_TIME")),
      datePosted := Or(Field(job, "date_posted"), Str(now)),
      isRemote := RemoteFlag(Field(job, "is_remote")),
      skills := Or(Field(job, "skills"), Str("")),
      source := Or(Field(job, "source"), Str("")),
      status := Or(Field(job, "status"), Str("active")),
      updatedAt := Str(now))
  }

  /** The `INSERT`, with the next id; the promotion columns take their defaults. */
  function InsertedJob(id: nat, job: Record, now: string): JobRow {
    JobRow(id,
      Field(job, "title"), Field(job, "company"),
      Or(Field(job, "description"), Str("")),
      Field(job, "location"), Field(job, "url"),
      Or(Field(job, "salary"), Str("")),
      Or(Field(job, "job_type"), Str("FULL_TIME")),
      Or(Field(job, "date_posted"), Str(now)),
      Or(Field(job, "external_id"), Str("")), RemoteFlag(Field(job, "is_remote")),
      Or(Field(job, "skills"), Str("")), Or(Field(job, "source"), Str("")),
      Or(Field(job, "status"), Str("active")), Str(now), Str(now),
      0, None, 0, None, 0, None, None)
  }

  /** The columns the update leaves alone. */
  predicate KeptByUpdate(a: JobRow, b: JobRow) {
    a.id == b.id && a.company == b.company && a.url == b.url && a.externalId == b.externalId
    && a.createdAt == b.createdAt
    && a.isFeatured == b.isFeatured && a.featuredUntil == b.featuredUntil
    && a.isUrgent == b.isUrgent && a.urgentUntil == b.urgentUntil
    && a.isSpotlight == b.isSpotlight && a.spotlightUntil == b.spotlightUntil
    && a.deletedAt == b.deletedAt
  }

  /** One job: skipped when one of its statements throws, else update or insert. */
  function StoreJob(st: JobStoreState, job: Record, fails: bool, now: string): JobStoreState {
    if fails then st
    else match FindJob(st.rows, job)
      case Some(i) => st.(rows := st.rows[i := UpdatedJob(st.rows[i], job, now)], updated := st.updated + 1)
      case None => st.(rows := st.rows + [InsertedJob(|st.rows| + 1, job, now)], added := st.added + 1)
  }

  /** The state after the first `n` jobs; `failing` holds the indexes of the jobs whose
      statements throw. */
  function StoreJobsPrefix(rows: seq<JobRow>, jobs: seq<Record>, failing: set<nat>, now: string, n: nat): JobStoreState
    requires n <= |jobs|
  {
    if n == 0 then JobStoreState(rows, 0, 0)
    else StoreJob(StoreJobsPrefix(rows, jobs, failing, now, n - 1), jobs[n - 1], n - 1 in failing, now)
  }

  lemma StoreJobsPrefixStep(rows: seq<JobRow>, jobs: seq<Record>, failing: set<nat>, now: string, n: nat)
    requires 0 < n <= |jobs|
    ensures StoreJobsPrefix(rows, jobs, failing, now, n)
      == StoreJob(StoreJobsPrefix(rows, jobs, failing, now, n - 1), jobs[n - 1], n - 1 in failing, now)
  {
  }

  /** The positions of the jobs with a value D1 refuses to bind. */
  function Unbindable(jobs: seq<Record>): (r: set<nat>)
    ensures forall k: nat :: k in r <==> k < |jobs| && !JobBinds(jobs[k])
  {
    set k: nat | k < |jobs| && !JobBinds(jobs[k])
  }

  /** The whole batch; `failing` holds the positions of the jobs whose statements meet a
      fault of the database, and the jobs with a value D1 refuses throw as well. */
  function StoreJobsSpec(rows: seq<JobRow>, jobs: seq<Record>, failing: set<nat>, now: string): JobStoreState {
    StoreJobsPrefix(rows, jobs, failing + Unbindable(jobs), now, |jobs|)
  }

  /** A job with a value D1 refuses changes nothing and is counted nowhere. */
  lemma UnbindableJobSkipped(rows: seq<JobRow>, jobs: seq<Record>, failing: set<nat>, now: string, n: nat)
    requires n < |jobs| && !JobBinds(jobs[n])
    ensures StoreJobsPrefix(rows, jobs, failing + Unbindable(jobs), now, n + 1)
      == StoreJobsPrefix(rows, jobs, failing + Unbindable(jobs), now, n)
  {
    StoreJobsPrefixStep(rows, jobs, failing + Unbindable(jobs), now, n + 1);
  }

  /** A job whose statements bind and whose url and company are not `null` finds itself
      again once inserted. */
  predicate Keyed(job: Record) {
    JobBinds(job) && !Field(job, "url").Null? && !Field(job, "company").Null?
  }

  function CountBelow(failing: set<nat>, n: nat): nat {
    if n == 0 then 0 else CountBelow(failing, n - 1) + (if n - 1 in failing then 1 else 0)
  }

  /** One job keeps every existing row's key columns and never removes a row. */
  lemma StoreJobKeeps(st: JobStoreState, job: Record, fails: bool, now: string)
    ensures var next := StoreJob(st, job, fails, now);
      |next.rows| >= |st.rows| && forall i :: 0 <= i < |st.rows| ==> KeptByUpdate(st.rows[i], next.rows[i])
  {
  }

  /** A row that matches a job still matches it once the update has rewritten it. */
  lemma KeptStillMatches(a: JobRow, b: JobRow, job: Record)
    requires KeptByUpdate(a, b) && MatchesJob(a, job)
    ensures MatchesJob(b, job)
  {
  }

  /** A stored job can be found in the table afterwards. */
  lemma StoreJobFindsIt(st: JobStoreState, job: Record, now: string)
    requires Keyed(job)
    ensures FindJob(StoreJob(st, job, false, now).rows, job).Some?
  {
    var next := StoreJob(st, job, false, now);
    FindJobSpec(st.rows, job);
    match FindJob(st.rows, job)
    case Some(i) =>
      KeptStillMatches(st.rows[i], next.rows[i], job);
      FindJobSpec(next.rows, job);
    case None =>
      assert MatchesJob(next.rows[|st.rows|], job);
      FindJobSpec(next.rows, job);
  }

  /** A job found before the next job is stored is found after it. */
  lemma StoreJobKeepsFound(st: JobStoreState, q: Record, job: Record, fails: bool, now: string)
    requires FindJob(st.rows, q).Some?
    ensures FindJob(StoreJob(st, job, fails, now).rows, q).Some?
  {
    var next := StoreJob(st, job, fails, now);
    var i := FindJob(st.rows, q).value;
    FindJobSpec(st.rows, q);
    StoreJobKeeps(st, job, fails, now);
    KeptStillMatches(st.rows[i], next.rows[i], q);
    FindJobSpec(next.rows, q);
  }

  /** No row of `rows` is deleted and none loses its key, its creation time or its
      promotion state; ids stay `index + 1`; every job of the first `n` that does not
      throw is counted exactly once, as added or as updated. */
  predicate PreservesRows(rows: seq<JobRow>, st: JobStoreState, failing: set<nat>, n: nat) {
    && JobIdsDense(st.rows)
    && |st.rows| == |rows| + st.added
    && st.added + st.updated + CountBelow(failing, n) == n
    && |rows| <= |st.rows| && forall i :: 0 <= i < |rows| ==> KeptByUpdate(rows[i], st.rows[i])
  }

  /** The store keeps the table's rows and counts every job that does not throw. */
  lemma {:induction false} StoreJobsPreserves(rows: seq<JobRow>, jobs: seq<Record>, failing: set<nat>, now: string, n: nat)
    requires n <= |jobs| && JobIdsDense(rows)
    ensures PreservesRows(rows, StoreJobsPrefix(rows, jobs, failing, now, n), failing, n)
  {
    if n > 0 {
      StoreJobsPreserves(rows, jobs, failing, now, n - 1);
      var prev := StoreJobsPrefix(rows, jobs, failing, now, n - 1);
      PreservesStep(rows, prev, jobs, failing, n, now);
      StoreJobsPrefixStep(rows, jobs, failing, now, n);
    }
  }

  /** One more job keeps what the store preserves. */
  lemma PreservesStep(rows: seq<JobRow>, prev: JobStoreState, jobs: seq<Record>, failing: set<nat>, n: nat, now: string)
    requires 0 < n <= |jobs| && PreservesRows(rows, prev, failing, n - 1)
    ensures PreservesRows(rows, StoreJob(prev, jobs[n - 1], n - 1 in failing, now), failing, n)
  {
    var st := StoreJob(prev, jobs[n - 1], n - 1 in failing, now);
    StoreJobStep(prev, jobs[n - 1], n - 1 in failing, now);
    assert CountBelow(failing, n) == CountBelow(failing, n - 1) + (if n - 1 in failing then 1 else 0);
    forall i | 0 <= i < |rows|
      ensures KeptByUpdate(rows[i], st.rows[i])
    {
      assert KeptByUpdate(rows[i], prev.rows[i]) && KeptByUpdate(prev.rows[i], st.rows[i]);
    }
  }

  /** One job keeps the ids dense, adds at most one row, and is counted once unless it
      throws. */
  lemma StoreJobStep(st: JobStoreState, job: Record, fails: bool, now: string)
    requires JobIdsDense(st.rows)
    ensures var next := StoreJob(st, job, fails, now);
      JobIdsDense(next.rows) && next.added >= st.added
      && |next.rows| == |st.rows| + (next.added - st.added)
      && next.added + next.updated == st.added + st.updated + (if fails then 0 else 1)
      && forall i :: 0 <= i < |st.rows| ==> KeptByUpdate(st.rows[i], next.rows[i])
  {
    StoreJobKeeps(st, job, fails, now);
  }

  /** After a job is stored, every later prefix still holds a row matching it. */
  lemma {:induction false} StoredJobStaysFound(rows: seq<JobRow>, jobs: seq<Record>, failing: set<nat>, now: string, k: nat, n: nat)
    requires k < n <= |jobs| && k !in failing && Keyed(jobs[k])
    ensures FindJob(StoreJobsPrefix(rows, jobs, failing, now, n).rows, jobs[k]).Some?
  {
    var prev := StoreJobsPrefix(rows, jobs, failing, now, n - 1);
    if n - 1 != k {
      StoredJobStaysFound(rows, jobs, failing, now, k, n - 1);
    }
    FoundAfterStore(prev, jobs[k], jobs[n - 1], n - 1 in failing, now);
    StoreJobsPrefixStep(rows, jobs, failing, now, n);
  }

  /** A job is found after one more job is stored when it was found before, or when it is
      the job stored. */
  lemma FoundAfterStore(prev: JobStoreState, q: Record, job: Record, fails: bool, now: string)
    requires FindJob(prev.rows, q).Some? || (q == job && !fails && Keyed(job))
    ensures FindJob(StoreJob(prev, job, fails, now).rows, q).Some?
  {
    if FindJob(prev.rows, q).Some? {
      StoreJobKeepsFound(prev, q, job, fails, now);
    } else {
      StoreJobFindsIt(prev, job, now);
    }
  }

  /** Every job of the batch has a matching row. */
  predicate AllFound(rows: seq<JobRow>, jobs: seq<Record>)
    decreases |jobs|
  {
    jobs == [] || (FindJob(rows, jobs[0]).Some? && AllFound(rows, jobs[1..]))
  }

  /** Each job of a batch that is all found has a matching row. */
  lemma {:induction false} AllFoundAt(rows: seq<JobRow>, jobs: seq<Record>, k: nat)
    requires AllFound(rows, jobs) && k < |jobs|
    ensures FindJob(rows, jobs[k]).Some?
    decreases |jobs|
  {
    if k > 0 {
      AllFoundAt(rows, jobs[1..], k - 1);
    }
  }

  /** A batch each of whose jobs has a matching row is all found. */
  lemma {:induction false} AllFoundOfEach(rows: seq<JobRow>, jobs: seq<Record>)
    requires forall k :: 0 <= k < |jobs| ==> FindJob(rows, jobs[k]).Some?
    ensures AllFound(rows, jobs)
    decreases |jobs|
  {
    if jobs != [] {
      assert forall k :: 0 <= k < |jobs| - 1 ==> jobs[1..][k] == jobs[k + 1];
      AllFoundOfEach(rows, jobs[1..]);
    }
  }

  /** Storing one job keeps every job of a found batch found. */
  lemma {:induction false} StoreJobKeepsAllFound(st: JobStoreState, qs: seq<Record>, job: Record, fails: bool, now: string)
    requires AllFound(st.rows, qs)
    ensures AllFound(StoreJob(st, job, fails, now).rows, qs)
    decreases |qs|
  {
    if qs != [] {
      StoreJobKeepsFound(st, qs[0], job, fails, now);
      StoreJobKeepsAllFound(st, qs[1..], job, fails, now);
    }
  }

  /** Storing the same jobs again adds nothing and updates every one of them: a stored
      job is found again on (url, company). */
  lemma RestoringJobsOnlyUpdates(rows: seq<JobRow>, jobs: seq<Record>, now1: string, now2: string, n: nat)
    requires n <= |jobs|
    requires forall k :: 0 <= k < |jobs| ==> Keyed(jobs[k])
    ensures var first := StoreJobsSpec(rows, jobs, {}, now1);
      OnlyUpdated(first.rows, jobs, StoreJobsPrefix(first.rows, jobs, {}, now2, n), n)
  {
    var first := StoreJobsSpec(rows, jobs, {}, now1);
    assert {} + Unbindable(jobs) == {};
    forall k | 0 <= k < |jobs|
      ensures FindJob(first.rows, jobs[k]).Some?
    {
      StoredJobStaysFound(rows, jobs, {}, now1, k, |jobs|);
    }
    AllFoundOfEach(first.rows, jobs);
    FoundJobsOnlyUpdate(first.rows, jobs, now2, n);
  }

  /** Jobs that are all found already are only updated. */
  lemma {:induction false} FoundJobsOnlyUpdate(base: seq<JobRow>, jobs: seq<Record>, now: string, n: nat)
    requires n <= |jobs| && AllFound(base, jobs)
    ensures OnlyUpdated(base, jobs, StoreJobsPrefix(base, jobs, {}, now, n), n)
  {
    if n > 0 {
      FoundJobsOnlyUpdate(base, jobs, now, n - 1);
      RestorePrefixStep(base, jobs, now, n);
    }
  }

  /** After `n` jobs that were all found: nothing added, `n` updated, the table the same
      size, and every job still found. */
  predicate OnlyUpdated(base: seq<JobRow>, jobs: seq<Record>, st: JobStoreState, n: nat) {
    st.added == 0 && st.updated == n && |st.rows| == |base| && AllFound(st.rows, jobs)
  }

  /** One more job of a batch that is all found. */
  lemma RestorePrefixStep(base: seq<JobRow>, jobs: seq<Record>, now: string, n: nat)
    requires 0 < n <= |jobs|
    requires OnlyUpdated(base, jobs, StoreJobsPrefix(base, jobs, {}, now, n - 1), n - 1)
    ensures OnlyUpdated(base, jobs, StoreJobsPrefix(base, jobs, {}, now, n), n)
  {
    var prev := StoreJobsPrefix(base, jobs, {}, now, n - 1);
    RestoreStep(base, prev, jobs, n, now);
    NoFailureStep(base, jobs, now, n);
  }

  /** Without failures, the `n`-th job is stored unconditionally. */
  lemma NoFailureStep(base: seq<JobRow>, jobs: seq<Record>, now: string, n: nat)
    requires 0 < n <= |jobs|
    ensures StoreJobsPrefix(base, jobs, {}, now, n) == StoreJob(StoreJobsPrefix(base, jobs, {}, now, n - 1), jobs[n - 1], false, now)
  {
    StoreJobsPrefixStep(base, jobs, {}, now, n);
  }

  /** Storing again one job of a batch that is all found updates it, and keeps every job
      of the batch found. */
  lemma RestoreStep(base: seq<JobRow>, prev: JobStoreState, jobs: seq<Record>, n: nat, now: string)
    requires 0 < n <= |jobs| && OnlyUpdated(base, jobs, prev, n - 1)
    ensures OnlyUpdated(base, jobs, StoreJob(prev, jobs[n - 1], false, now), n)
  {
    AllFoundAt(prev.rows, jobs, n - 1);
    StoreJobKeepsAllFound(prev, jobs, jobs[n - 1], false, now);
  }

  /** Whichever branch a job takes, the row it writes carries its title, a `job_type` and a
      `status` that default to `'FULL_TIME'` and `'active'`, and an `is_remote` of 1 or 0. */
  lemma StoreJobWritesDefaults(st: JobStoreState, job: Record, now: string)
    ensures var next := StoreJob(st, job, false, now);
      var i := if FindJob(st.rows, job).Some? then FindJob(st.rows, job).value else |st.rows|;
      i < |next.rows|
      && next.rows[i].title == Field(job, "title")
      && (Truthy(Field(job, "job_type")) ==> next.rows[i].jobType == Field(job, "job_type"))
      && (!Truthy(Field(job, "job_type")) ==> next.rows[i].jobType == Str("FULL_TIME"))
      && (Truthy(Field(job, "status")) ==> next.rows[i].status == Field(job, "status"))
      && (!Truthy(Field(job, "status")) ==> next.rows[i].status == Str("active"))
      && (next.rows[i].isRemote == Num(1) <==> Truthy(Field(job, "is_remote")))
      && (next.rows[i].isRemote == Num(1) || next.rows[i].isRemote == Num(0))
  {
  }
}
