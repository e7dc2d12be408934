/**
 * The `scraper_runs` ledger: what each of the manager's three ledger statements does
 * to the table, stated on the sequence of rows.
 */
module RunLedger {
  import opened Options
  import opened Text
  import opened Js
  import opened Tables

  const Running: string := "running"
  const Success: string := "success"
  const Failed: string := "failed"

  predicate IsRunningFor(r: RunRow, name: string) {
    r.scraperName == name && r.status == Running
  }

  /** The `INSERT` of a run start: a `running` row with the next id; nothing else changes. */
  function StartRun(runs: seq<RunRow>, name: string, now: string): (r: seq<RunRow>)
    requires RunIdsDense(runs)
    ensures RunIdsDense(r) && |r| == |runs| + 1 && r[..|runs|] == runs
    ensures IsRunningFor(r[|runs|], name) && r[|runs|].startTime == now
    ensures r[|runs|].endTime.None? && r[|runs|].jobsFound.None? && r[|runs|].errorMessage.None?
  {
    runs + [RunRow(|runs| + 1, name, now, None, Running, None, None, now)]
  }

  /** The `UPDATE … WHERE id = ?` of a successful run: the row with that id gets its end
      time, `success` and the number of items found; every other column and row stays. */
  function CompleteRun(runs: seq<RunRow>, id: nat, found: nat, now: string): (r: seq<RunRow>)
    requires RunIdsDense(runs)
    ensures RunIdsDense(r) && |r| == |runs|
    ensures forall i :: 0 <= i < |runs| && runs[i].id != id ==> r[i] == runs[i]
    ensures forall i :: 0 <= i < |runs| && runs[i].id == id ==>
      r[i].status == Success && r[i].endTime == Some(now) && r[i].jobsFound == Some(found)
      && r[i].scraperName == runs[i].scraperName && r[i].startTime == runs[i].startTime
      && r[i].errorMessage == runs[i].errorMessage && r[i].createdAt == runs[i].createdAt
  {
    seq(|runs|, i requires 0 <= i < |runs| =>
      if runs[i].id == id then runs[i].(endTime := Some(now), status := Success, jobsFound := Some(found))
      else runs[i])
  }

  /** The `SELECT id … WHERE scraper_name = ? AND status = 'running' ORDER BY start_time
      DESC LIMIT 1`: among the running rows of `name`, the one with the greatest start
      time; among equal start times, the first in table order. */
  function LatestRunning(runs: seq<RunRow>, name: string): Option<nat>
    decreases |runs|
  {
    if runs == [] then None
    else
      var last := |runs| - 1;
      var prev := LatestRunning(runs[..last], name);
      if !IsRunningFor(runs[last], name) then prev
      else if prev.None? then Some(last)
      else if prev.value < last && LexLess(runs[prev.value].startTime, runs[last].startTime) then Some(last)
      else prev
  }

  /** The recorded message: `error.message || 'Unknown error'`. */
  function ErrorText(error: Value): Value {
    Or(Get(error, "message"), Str("Unknown error"))
  }

  /** The failure statements: the most recent running row of `name`, if any, becomes
      `failed`; otherwise one `failed` row is inserted whose start and end are both
      `now`. An error that is `null` or `undefined` makes reading `error.message`
      throw inside the guarded block, so nothing is written. */
  function FailRun(runs: seq<RunRow>, name: string, error: Value, now: string): (r: seq<RunRow>)
    requires RunIdsDense(runs)
    ensures RunIdsDense(r)
  {
    if IsNullish(error) then runs
    else match LatestRunning(runs, name)
      case Some(k) =>
        if k < |runs| then
          seq(|runs|, i requires 0 <= i < |runs| =>
            if runs[i].id == runs[k].id
            then runs[i].(endTime := Some(now), status := Failed, errorMessage := Some(ErrorText(error)))
            else runs[i])
        else runs
      case None =>
        runs + [RunRow(|runs| + 1, name, now, Some(now), Failed, None, Some(ErrorText(error)), now)]
  }

  /** `LatestRunning` is the query it stands for: absent exactly when no row of `name`
      is running, otherwise a running row of `name` that no other such row starts after,
      and that every earlier such row starts before. */
  lemma {:induction false} LatestRunningIsMostRecent(runs: seq<RunRow>, name: string)
    ensures LatestRunning(runs, name).None? <==> forall j :: 0 <= j < |runs| ==> !IsRunningFor(runs[j], name)
    ensures LatestRunning(runs, name).Some? ==>
      var k := LatestRunning(runs, name).value;
      k < |runs| && IsRunningFor(runs[k], name)
      && (forall j :: 0 <= j < |runs| && IsRunningFor(runs[j], name) ==> !LexLess(runs[k].startTime, runs[j].startTime))
      && (forall j :: 0 <= j < k && IsRunningFor(runs[j], name) ==> LexLess(runs[j].startTime, runs[k].startTime))
    decreases |runs|
  {
    if runs != [] {
      var last := |runs| - 1;
      var init := runs[..last];
      LatestRunningIsMostRecent(init, name);
      var prev := LatestRunning(init, name);
      assert forall j :: 0 <= j < last ==> init[j] == runs[j];
      LexLessIrreflexive(runs[last].startTime);
      if IsRunningFor(runs[last], name) && prev.Some? {
        var p := prev.value;
        if LexLess(runs[p].startTime, runs[last].startTime) {
          forall j | 0 <= j < |runs| && IsRunningFor(runs[j], name)
            ensures !LexLess(runs[last].startTime, runs[j].startTime)
          {
            if j == last {
              LexLessIrreflexive(runs[last].startTime);
            } else if LexLess(runs[last].startTime, runs[j].startTime) {
              LexLessTransitive(runs[p].startTime, runs[last].startTime, runs[j].startTime);
            }
          }
          forall j | 0 <= j < last && IsRunningFor(runs[j], name)
            ensures LexLess(runs[j].startTime, runs[last].startTime)
          {
            LexLessTotal(runs[j].startTime, runs[p].startTime);
            if LexLess(runs[j].startTime, runs[p].startTime) {
              LexLessTransitive(runs[j].startTime, runs[p].startTime, runs[last].startTime);
            }
          }
        } else {
          forall j | 0 <= j < |runs| && IsRunningFor(runs[j], name)
            ensures !LexLess(runs[p].startTime, runs[j].startTime)
          {
            if j < last {
              assert init[j] == runs[j];
            }
          }
        }
      }
    }
  }

  /** A start row moved to `success` by its own id: only that row changes. */
  lemma StartThenComplete(runs: seq<RunRow>, name: string, found: nat, t0: string, t1: string)
    requires RunIdsDense(runs)
    ensures CompleteRun(StartRun(runs, name, t0), |runs| + 1, found, t1)
      == runs + [RunRow(|runs| + 1, name, t0, Some(t1), Success, Some(found), None, t0)]
  {
    var started := StartRun(runs, name, t0);
    var r := CompleteRun(started, |runs| + 1, found, t1);
    var expected := runs + [RunRow(|runs| + 1, name, t0, Some(t1), Success, Some(found), None, t0)];
    assert forall i :: 0 <= i < |runs| ==> started[i] == runs[i] && started[i].id != |runs| + 1;
    assert forall i :: 0 <= i < |r| ==> r[i] == expected[i];
  }

  /** When every other running row of `name` started strictly before `now`, a failure
      recorded right after a start marks that new row `failed` and adds none. */
  lemma StartThenFail(runs: seq<RunRow>, name: string, error: Value, now: string)
    requires RunIdsDense(runs) && !IsNullish(error)
    requires forall j :: 0 <= j < |runs| && IsRunningFor(runs[j], name) ==> LexLess(runs[j].startTime, now)
    ensures FailRun(StartRun(runs, name, now), name, error, now)
      == runs + [RunRow(|runs| + 1, name, now, Some(now), Failed, None, Some(ErrorText(error)), now)]
  {
    var started := StartRun(runs, name, now);
    LatestRunningIsMostRecent(started, name);
    var k := LatestRunning(started, name).value;
    var r := FailRun(started, name, error, now);
    var expected := runs + [RunRow(|runs| + 1, name, now, Some(now), Failed, None, Some(ErrorText(error)), now)];
    assert forall i :: 0 <= i < |runs| ==> started[i] == runs[i] && started[i].id != |runs| + 1;
    assert forall i :: 0 <= i < |r| ==> r[i] == expected[i];
  }

  /** Failure without a running row inserts exactly one row, whose start and end are the
      same instant; failure with one changes only that row's end, status and message. */
  lemma FailRunShape(runs: seq<RunRow>, name: string, error: Value, now: string)
    requires RunIdsDense(runs) && !IsNullish(error)
    ensures (forall j :: 0 <= j < |runs| ==> !IsRunningFor(runs[j], name)) ==>
      FailRun(runs, name, error, now) == runs + [RunRow(|runs| + 1, name, now, Some(now), Failed, None, Some(ErrorText(error)), now)]
    ensures (exists j :: 0 <= j < |runs| && IsRunningFor(runs[j], name)) ==>
      var r := FailRun(runs, name, error, now);
      LatestRunning(runs, name).Some? &&
      var k := LatestRunning(runs, name).value;
      |r| == |runs| && k < |runs| && IsRunningFor(runs[k], name)
      && r[k] == runs[k].(endTime := Some(now), status := Failed, errorMessage := Some(ErrorText(error)))
      && forall i :: 0 <= i < |runs| && i != k ==> r[i] == runs[i]
  {
    LatestRunningIsMostRecent(runs, name);
  }
}
