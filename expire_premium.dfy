/**
 * The scheduled job `expirePremiumJobs`: three SELECTs find the listings whose
 * featured, urgent or spotlight promotion has run out, and one UPDATE per selected
 * listing switches that promotion off. All three selections are read before any
 * update runs, and one timestamp `now` serves every comparison and every write.
 */
module ExpirePremium {
  import opened Options
  import opened Text
  import opened Js
  import opened Tables

  /** The three paid promotions a listing can carry. */
  datatype Promotion = Featured | Urgent | Spotlight

  /** `is_featured`, `is_urgent` or `is_spotlight`. */
  function Flag(row: JobRow, p: Promotion): int {
    match p
    case Featured => row.isFeatured
    case Urgent => row.isUrgent
    case Spotlight => row.isSpotlight
  }

  /** `featured_until`, `urgent_until` or `spotlight_until`; `None` is NULL. */
  function Until(row: JobRow, p: Promotion): Option<string> {
    match p
    case Featured => row.featuredUntil
    case Urgent => row.urgentUntil
    case Spotlight => row.spotlightUntil
  }

  /** The WHERE clause of the promotion's SELECT: flag 1, an end date that sorts before
      `now` as text (NULL compares as unknown and so never matches), not soft-deleted. */
  predicate Expired(row: JobRow, p: Promotion, now: string) {
    Flag(row, p) == 1 && Until(row, p).Some? && LexLess(Until(row, p).value, now)
    && row.deletedAt.None?
  }

  /** The promotion's UPDATE applied to one row: flag 0, end date NULL, `updated_at` now. */
  function Demoted(row: JobRow, p: Promotion, now: string): JobRow {
    match p
    case Featured => row.(isFeatured := 0, featuredUntil := None, updatedAt := Str(now))
    case Urgent => row.(isUrgent := 0, urgentUntil := None, updatedAt := Str(now))
    case Spotlight => row.(isSpotlight := 0, spotlightUntil := None, updatedAt := Str(now))
  }

  /** A row with every column the expiry run can write blanked out: two rows agree on this
      exactly when they differ at most in the promotion columns and `updated_at`. */
  function Listing(row: JobRow): JobRow {
    row.(isFeatured := 0, featuredUntil := None, isUrgent := 0, urgentUntil := None,
         isSpotlight := 0, spotlightUntil := None, updatedAt := Null)
  }

  /** The update switches off its own promotion, stamps `now`, and touches nothing else. */
  lemma DemotedSpec(row: JobRow, p: Promotion, now: string)
    ensures var r := Demoted(row, p, now);
      && Flag(r, p) == 0 && Until(r, p) == None && r.updatedAt == Str(now)
      && (forall q :: q != p ==> Flag(r, q) == Flag(row, q) && Until(r, q) == Until(row, q))
      && Listing(r) == Listing(row) && r.id == row.id && r.deletedAt == row.deletedAt
  {
  }

  /** One selected row as the SELECT returns it: `id`, the flag and the end date. */
  datatype Selected = Selected(id: nat, flag: int, until: string)

  /** The rows the promotion's SELECT returns, in table order. */
  function Selection(rows: seq<JobRow>, p: Promotion, now: string): (s: seq<Selected>)
    ensures |s| <= |rows|
  {
    if rows == [] then []
    else
      (if Expired(rows[0], p, now) then [Selected(rows[0].id, 1, Until(rows[0], p).value)] else [])
      + Selection(rows[1..], p, now)
  }

  function Ids(s: seq<Selected>): seq<nat> {
    seq(|s|, i requires 0 <= i < |s| => s[i].id)
  }

  /** The selection returns the id of every expired row and of nothing else. */
  lemma SelectionSpec(rows: seq<JobRow>, p: Promotion, now: string)
    ensures forall x :: (x in Ids(Selection(rows, p, now))
      <==> exists i :: 0 <= i < |rows| && rows[i].id == x && Expired(rows[i], p, now))
  {
    forall x
      ensures x in Ids(Selection(rows, p, now))
        <==> exists i :: 0 <= i < |rows| && rows[i].id == x && Expired(rows[i], p, now)
    {
      if x in Ids(Selection(rows, p, now)) {
        SelectionSound(rows, p, now, x);
      }
      forall i | 0 <= i < |rows| && rows[i].id == x && Expired(rows[i], p, now)
        ensures x in Ids(Selection(rows, p, now))
      {
        SelectionComplete(rows, p, now, i);
      }
    }
  }

  /** The ids selected from a non-empty table: the first row's, if it has expired, then
      those of the rest. */
  lemma SelectionIds(rows: seq<JobRow>, p: Promotion, now: string)
    requires rows != []
    ensures Ids(Selection(rows, p, now))
      == (if Expired(rows[0], p, now) then [rows[0].id] else []) + Ids(Selection(rows[1..], p, now))
  {
    var head := if Expired(rows[0], p, now) then [Selected(rows[0].id, 1, Until(rows[0], p).value)] else [];
    var tail := Selection(rows[1..], p, now);
    assert Selection(rows, p, now) == head + tail;
    IdsAppend(head, tail);
    assert Ids(head) == if Expired(rows[0], p, now) then [rows[0].id] else [];
  }

  lemma IdsAppend(a: seq<Selected>, b: seq<Selected>)
    ensures Ids(a + b) == Ids(a) + Ids(b)
  {
    var l, r := Ids(a + b), Ids(a) + Ids(b);
    assert |l| == |r|;
    forall i | 0 <= i < |l|
      ensures l[i] == r[i]
    {
      if i < |a| {
        assert (a + b)[i] == a[i];
      } else {
        assert (a + b)[i] == b[i - |a|];
      }
    }
  }

  /** Every expired row's id is selected. */
  lemma {:induction false} SelectionComplete(rows: seq<JobRow>, p: Promotion, now: string, i: nat)
    requires i < |rows| && Expired(rows[i], p, now)
    ensures rows[i].id in Ids(Selection(rows, p, now))
  {
    SelectionIds(rows, p, now);
    if i > 0 {
      assert rows[1..][i - 1] == rows[i];
      SelectionComplete(rows[1..], p, now, i - 1);
    }
  }

  /** Every selected id is that of an expired row. */
  lemma {:induction false} SelectionSound(rows: seq<JobRow>, p: Promotion, now: string, x: nat)
    requires x in Ids(Selection(rows, p, now))
    ensures exists i :: 0 <= i < |rows| && rows[i].id == x && Expired(rows[i], p, now)
  {
    SelectionIds(rows, p, now);
    if x in Ids(Selection(rows[1..], p, now)) {
      SelectionSound(rows[1..], p, now, x);
      var i :| 0 <= i < |rows[1..]| && rows[1..][i].id == x && Expired(rows[1..][i], p, now);
      assert rows[i + 1] == rows[1..][i];
    } else {
      assert rows[0].id == x && Expired(rows[0], p, now);
    }
  }

  /** With distinct ids, a row's id is selected exactly when that row has expired. */
  lemma SelectedIffExpired(rows: seq<JobRow>, p: Promotion, now: string, j: nat)
    requires JobIdsDense(rows) && j < |rows|
    ensures rows[j].id in Ids(Selection(rows, p, now)) <==> Expired(rows[j], p, now)
  {
    SelectionSpec(rows, p, now);
  }

  /** `UPDATE … WHERE id = ?` for one promotion, as a statement on the whole table. */
  function UpdateWhereId(rows: seq<JobRow>, id: nat, p: Promotion, now: string): (r: seq<JobRow>)
    ensures |r| == |rows|
  {
    seq(|rows|, j requires 0 <= j < |rows| => if rows[j].id == id then Demoted(rows[j], p, now) else rows[j])
  }

  /** The table once every id in `ids` has had the promotion's UPDATE, in any order. */
  function DemotedWhere(rows: seq<JobRow>, ids: seq<nat>, p: Promotion, now: string): (r: seq<JobRow>)
    ensures |r| == |rows|
  {
    seq(|rows|, j requires 0 <= j < |rows| => if rows[j].id in ids then Demoted(rows[j], p, now) else rows[j])
  }

  /** One more UPDATE extends the set of ids already demoted; a repeated id is harmless. */
  lemma UpdateExtends(rows: seq<JobRow>, ids: seq<nat>, id: nat, p: Promotion, now: string)
    ensures UpdateWhereId(DemotedWhere(rows, ids, p, now), id, p, now) == DemotedWhere(rows, ids + [id], p, now)
  {
    var a := UpdateWhereId(DemotedWhere(rows, ids, p, now), id, p, now);
    var b := DemotedWhere(rows, ids + [id], p, now);
    forall j | 0 <= j < |rows|
      ensures a[j] == b[j]
    {
      assert rows[j].id in ids + [id] <==> rows[j].id in ids || rows[j].id == id;
    }
  }

  /** What the expiry run does to one listing: every promotion that had expired when the
      selections ran is switched off. */
  function ExpireRow(row: JobRow, now: string): JobRow {
    var r1 := if Expired(row, Featured, now) then Demoted(row, Featured, now) else row;
    var r2 := if Expired(row, Urgent, now) then Demoted(r1, Urgent, now) else r1;
    if Expired(row, Spotlight, now) then Demoted(r2, Spotlight, now) else r2
  }

  function ExpireAll(rows: seq<JobRow>, now: string): (r: seq<JobRow>)
    ensures |r| == |rows|
    ensures forall j :: 0 <= j < |rows| ==> r[j].id == rows[j].id
    ensures JobIdsDense(rows) ==> JobIdsDense(r)
  {
    seq(|rows|, j requires 0 <= j < |rows| => ExpireRow(rows[j], now))
  }

  /** Each expired promotion is switched off and stamped; every other promotion, every
      other column and every listing with nothing expired keep their values. */
  lemma ExpireRowSpec(row: JobRow, now: string)
    ensures var r := ExpireRow(row, now);
      && (forall p :: Flag(r, p) == (if Expired(row, p, now) then 0 else Flag(row, p)))
      && (forall p :: Until(r, p) == (if Expired(row, p, now) then None else Until(row, p)))
      && r.updatedAt == (if exists p :: Expired(row, p, now) then Str(now) else row.updatedAt)
      && Listing(r) == Listing(row) && r.id == row.id && r.deletedAt == row.deletedAt
  {
    var r := ExpireRow(row, now);
    if !exists p :: Expired(row, p, now) {
      assert r == row;
    } else {
      assert Expired(row, Featured, now) || Expired(row, Urgent, now) || Expired(row, Spotlight, now);
      assert r.updatedAt == Str(now);
    }
  }

  /** A soft-deleted listing is never modified. */
  lemma SoftDeletedUntouched(row: JobRow, now: string)
    requires row.deletedAt.Some?
    ensures ExpireRow(row, now) == row
  {
  }

  /** After an expiry run nothing is left expired under the same `now`, so a second run with
      the same timestamp changes nothing. */
  lemma ExpireIdempotent(rows: seq<JobRow>, now: string)
    ensures forall j, p :: 0 <= j < |rows| ==> !Expired(ExpireAll(rows, now)[j], p, now)
    ensures ExpireAll(ExpireAll(rows, now), now) == ExpireAll(rows, now)
  {
    var once := ExpireAll(rows, now);
    forall j, p | 0 <= j < |rows|
      ensures !Expired(once[j], p, now)
    {
      ExpireRowSpec(rows[j], now);
    }
    forall j | 0 <= j < |rows|
      ensures ExpireAll(once, now)[j] == once[j]
    {
      assert !Expired(once[j], Featured, now) && !Expired(once[j], Urgent, now) && !Expired(once[j], Spotlight, now);
    }
  }

  /** A promotion that has expired at some time has also expired at any later time. */
  lemma ExpiryPersists(row: JobRow, p: Promotion, now: string, later: string)
    requires Expired(row, p, now) && LexLess(now, later)
    ensures Expired(row, p, later)
  {
    LexLessTransitive(Until(row, p).value, now, later);
  }

  /** Number of a listing's promotions that have expired. */
  function ExpiredCount(row: JobRow, now: string): nat {
    (if Expired(row, Featured, now) then 1 else 0)
    + (if Expired(row, Urgent, now) then 1 else 0)
    + (if Expired(row, Spotlight, now) then 1 else 0)
  }

  function ExpiredPromotions(rows: seq<JobRow>, now: string): nat {
    if rows == [] then 0 else ExpiredCount(rows[0], now) + ExpiredPromotions(rows[1..], now)
  }

  /** `totalExpiredJobs`: the three selections' lengths added up. */
  function Total(rows: seq<JobRow>, now: string): nat {
    |Selection(rows, Featured, now)| + |Selection(rows, Urgent, now)| + |Selection(rows, Spotlight, now)|
  }

  /** The total counts promotions, not listings: a listing with two expired promotions
      is counted twice. */
  lemma {:induction false} TotalCountsPromotions(rows: seq<JobRow>, now: string)
    ensures Total(rows, now) == ExpiredPromotions(rows, now)
  {
    if rows != [] {
      TotalCountsPromotions(rows[1..], now);
    }
  }

  /** A total of zero means that no listing has an expired promotion, and then the
      expiry leaves the table as it was. */
  lemma {:induction false} ZeroTotalChangesNothing(rows: seq<JobRow>, now: string)
    ensures Total(rows, now) == 0 <==> forall j :: 0 <= j < |rows| ==> ExpiredCount(rows[j], now) == 0
    ensures Total(rows, now) == 0 ==> ExpireAll(rows, now) == rows
  {
    TotalCountsPromotions(rows, now);
    if rows != [] {
      ZeroTotalChangesNothing(rows[1..], now);
      assert forall j :: 1 <= j < |rows| ==> rows[j] == rows[1..][j - 1];
    }
  }

  /** The three update passes, run one after the other on the selections taken before
      any of them, produce `ExpireAll`. */
  lemma ThreePasses(rows: seq<JobRow>, now: string)
    requires JobIdsDense(rows)
    ensures
      var r1 := DemotedWhere(rows, Ids(Selection(rows, Featured, now)), Featured, now);
      var r2 := DemotedWhere(r1, Ids(Selection(rows, Urgent, now)), Urgent, now);
      DemotedWhere(r2, Ids(Selection(rows, Spotlight, now)), Spotlight, now) == ExpireAll(rows, now)
  {
    var r1 := DemotedWhere(rows, Ids(Selection(rows, Featured, now)), Featured, now);
    var r2 := DemotedWhere(r1, Ids(Selection(rows, Urgent, now)), Urgent, now);
    var r3 := DemotedWhere(r2, Ids(Selection(rows, Spotlight, now)), Spotlight, now);
    forall j | 0 <= j < |rows|
      ensures r3[j] == ExpireAll(rows, now)[j]
    {
      SelectedIffExpired(rows, Featured, now, j);
      SelectedIffExpired(rows, Urgent, now, j);
      SelectedIffExpired(rows, Spotlight, now, j);
      assert r1[j].id == rows[j].id && r2[j].id == rows[j].id;
    }
  }

  /** The return value of `expirePremiumJobs`. */
  datatype ExpireResult =
    | Failed(error: string)
    | NoneExpired(message: string)
    | Reset(message: string, featured: seq<Selected>, urgent: seq<Selected>, spotlight: seq<Selected>)

  const NoDatabase := "Database connection error"
  const Failure := "Failed to expire premium jobs"
  const NothingFound := "No expired premium jobs found"

  /** The result when the statements succeed. */
  function Outcome(rows: seq<JobRow>, now: string): ExpireResult {
    if Total(rows, now) == 0 then NoneExpired(NothingFound)
    else Reset("Reset " + NatToString(Total(rows, now)) + " expired premium jobs",
      Selection(rows, Featured, now), Selection(rows, Urgent, now), Selection(rows, Spotlight, now))
  }

  /** The reported number is the total, and the reported selections hold exactly the
      expired listings' ids, each with the flag 1 and an end date before `now`. */
  lemma OutcomeSpec(rows: seq<JobRow>, now: string)
    ensures var o := Outcome(rows, now);
      && (o.NoneExpired? <==> ExpiredPromotions(rows, now) == 0)
      && (o.Reset? ==> DigitsValue(o.message[6..|o.message| - 21]) == ExpiredPromotions(rows, now))
      && (o.Reset? ==> forall p, x :: (x in Ids(Selection(rows, p, now))
            <==> exists i :: 0 <= i < |rows| && rows[i].id == x && Expired(rows[i], p, now)))
      && (o.Reset? ==> forall s :: s in o.featured + o.urgent + o.spotlight ==> s.flag == 1 && LexLess(s.until, now))
  {
    TotalCountsPromotions(rows, now);
    var o := Outcome(rows, now);
    if o.Reset? {
      var digits := NatToString(Total(rows, now));
      assert o.message[6..|o.message| - 21] == digits;
      forall p {
        SelectionSpec(rows, p, now);
      }
      SelectionRowsExpired(rows, Featured, now);
      SelectionRowsExpired(rows, Urgent, now);
      SelectionRowsExpired(rows, Spotlight, now);
    }
  }

  /** Every selected row carries the flag 1 and an end date before `now`. */
  lemma {:induction false} SelectionRowsExpired(rows: seq<JobRow>, p: Promotion, now: string)
    ensures forall s :: s in Selection(rows, p, now) ==> s.flag == 1 && LexLess(s.until, now)
  {
    if rows != [] {
      SelectionRowsExpired(rows[1..], p, now);
    }
  }

  /** The promotion's UPDATE for every selected listing, as `selected.map(…)`; the
      statements touch disjoint rows, so their order does not matter. */
  method DemoteSelected(db: Database, selected: seq<Selected>, p: Promotion, now: string)
    modifies db
    ensures db.jobListings == DemotedWhere(old(db.jobListings), Ids(selected), p, now)
    ensures db.events == old(db.events) && db.scraperRuns == old(db.scraperRuns)
  {
    ghost var rows := db.jobListings;
    assert DemotedWhere(rows, [], p, now) == rows;
    for k := 0 to |selected|
      invariant db.jobListings == DemotedWhere(rows, Ids(selected[..k]), p, now)
      invariant db.events == old(db.events) && db.scraperRuns == old(db.scraperRuns)
    {
      UpdateExtends(rows, Ids(selected[..k]), selected[k].id, p, now);
      assert Ids(selected[..k + 1]) == Ids(selected[..k]) + [selected[k].id];
      db.jobListings := UpdateWhereId(db.jobListings, selected[k].id, p, now);
    }
    assert selected[..|selected|] == selected;
  }

  /** `expirePremiumJobs(env)`: `db` is `env.DB` (`null` when the binding is missing),
      `now` the timestamp taken once, and `selectFails` says that one of the SELECTs
      throws, which `expirePremiumJobs` catches. */
  method ExpirePremiumJobs(db: Database?, now: string, selectFails: bool) returns (r: ExpireResult)
    requires db != null ==> db.Valid()
    modifies db
    ensures db == null ==> r == Failed(NoDatabase)
    ensures db != null ==> db.Valid()
    ensures db != null && selectFails ==> r == Failed(Failure) && unchanged(db)
    ensures db != null && !selectFails ==>
      && r == Outcome(old(db.jobListings), now)
      && db.jobListings == ExpireAll(old(db.jobListings), now)
      && db.events == old(db.events) && db.scraperRuns == old(db.scraperRuns)
  {
    if db == null {
      return Failed(NoDatabase);
    }
    if selectFails {
      return Failed(Failure);
    }
    var rows := db.jobListings;
    var featured := Selection(rows, Featured, now);
    var urgent := Selection(rows, Urgent, now);
    var spotlight := Selection(rows, Spotlight, now);
    var total := |featured| + |urgent| + |spotlight|;
    ThreePasses(rows, now);
    if total == 0 {
      ZeroTotalChangesNothing(rows, now);
      return NoneExpired(NothingFound);
    }
    if |featured| > 0 {
      DemoteSelected(db, featured, Featured, now);
    }
    if |urgent| > 0 {
      DemoteSelected(db, urgent, Urgent, now);
    }
    if |spotlight| > 0 {
      DemoteSelected(db, spotlight, Spotlight, now);
    }
    r := Reset("Reset " + NatToString(total) + " expired premium jobs", featured, urgent, spotlight);
  }
}
