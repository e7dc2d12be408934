/**
 * What `storeEvents` does to `events`: one look-up and one write per event, on the
 * natural key (url, title). Inserts use the id the store generated for that event; an
 * id already in the table violates the primary key, so that insert throws. An event with
 * a value D1 refuses to bind throws too, and changes nothing.
 */
module EventStore {
  import opened Options
  import opened Text
  import opened Js
  import opened Tables

  datatype EventStoreState = EventStoreState(rows: seq<EventRow>, added: nat, updated: nat)

  /** The look-up binds `url` and `title` as they are. */
  predicate EventLookupBinds(ev: Record) {
    Bindable(Field(ev, "url")) && Bindable(Field(ev, "title"))
  }

  /** The update and the insert bind the title as it is (bound by the look-up already)
      and every other column after its `||` default. */
  predicate EventWriteBinds(ev: Record) {
    DefaultsBind(ev, DefaultedEventColumns)
  }

  /** The columns the update and the insert bind as `event.k || default`. */
  const DefaultedEventColumns: set<string> :=
    {"description", "location", "venue", "address", "start_date", "end_date", "start_time", "end_time",
     "image_url", "category", "tags", "price", "is_free", "organizer", "source"}

  /** D1 accepts every value the event's statements bind. */
  predicate EventBinds(ev: Record) {
    EventLookupBinds(ev) && EventWriteBinds(ev)
  }

  /** The look-up's WHERE clause for one row. */
  predicate MatchesEvent(row: EventRow, ev: Record) {
    SqlEq(row.url, Field(ev, "url")) && SqlEq(row.title, Field(ev, "title"))
  }

  /** The first matching row in table order, as `results[0]`. */
  function FindEvent(rows: seq<EventRow>, ev: Record): (r: Option<nat>)
    ensures r.None? <==> forall i :: 0 <= i < |rows| ==> !MatchesEvent(rows[i], ev)
    ensures r.Some? ==> r.value < |rows| && MatchesEvent(rows[r.value], ev)
    ensures r.Some? ==> forall i :: 0 <= i < r.value ==> !MatchesEvent(rows[i], ev)
  {
    if rows == [] then None
    else if MatchesEvent(rows[0], ev) then Some(0)
    else
      var r := FindEvent(rows[1..], ev);
      assert forall i :: 1 <= i < |rows| ==> rows[i] == rows[1..][i - 1];
      if r.None? then None else Some(r.value + 1)
  }

  /** The `UPDATE`: the SET list (which rewrites the title but not the url). */
  function UpdatedEvent(row: EventRow, ev: Record, now: string): EventRow {
    row.(
      title := Field(ev, "title"),
      description := Or(Field(ev, "description"), Str("")),
      location := Or(Field(ev, "location"), Str("")),
      venue := Or(Field(ev, "venue"), Str("")),
      address := Or(Field(ev, "address"), Str("")),
      startDate := Or(Field(ev, "start_date"), Str("")),
      endDate := Or(Field(ev, "end_date"), Str("")),
      startTime := Or(Field(ev, "start_time"), Str("")),
      endTime := Or(Field(ev, "end_time"), Str("")),
      imageUrl := Or(Field(ev, "image_url"), Str("")),
      category := Or(Field(ev, "category"), Str("")),
      tags := Or(Field(ev, "tags"), Str("")),
      price := Or(Field(ev, "price"), Str("")),
      isFree := Or(Field(ev, "is_free"), Num(0)),
      organizer := Or(Field(ev, "organizer"), Str("")),
      source := Or(Field(ev, "source"), Str("")),
      updatedAt := Str(now))
  }

  /** The `INSERT`, under the generated id. */
  function InsertedEvent(id: string, ev: Record, now: string): EventRow {
    EventRow(id,
      Field(ev, "title"), Or(Field(ev, "description"), Str("")),
      Or(Field(ev, "location"), Str("")), Or(Field(ev, "venue"), Str("")),
      Or(Field(ev, "address"), Str("")), Or(Field(ev, "start_date"), Str("")),
      Or(Field(ev, "end_date"), Str("")), Or(Field(ev, "start_time"), Str("")),
      Or(Field(ev, "end_time"), Str("")), Or(Field(ev, "image_url"), Str("")),
      Or(Field(ev, "category"), Str("")), Or(Field(ev, "tags"), Str("")),
      Or(Field(ev, "url"), Str("")), Or(Field(ev, "price"), Str("")),
      Or(Field(ev, "is_free"), Num(0)), Or(Field(ev, "organizer"), Str("")),
      Or(Field(ev, "source"), Str("")), Str(now), Str(now))
  }

  /** The columns an update of a matching row leaves as they were (the title is written
      again, with a value D1 stores as the same). */
  predicate KeptByUpdate(a: EventRow, b: EventRow) {
    a.id == b.id && a.url == b.url && AsStored(a.title) == AsStored(b.title) && a.createdAt == b.createdAt
  }

  /** One event: skipped when a statement throws, else update or insert. */
  function StoreEvent(st: EventStoreState, ev: Record, id: string, fails: bool, now: string): EventStoreState {
    if fails then st
    else match FindEvent(st.rows, ev)
      case Some(i) => st.(rows := st.rows[i := UpdatedEvent(st.rows[i], ev, now)], updated := st.updated + 1)
      case None =>
        if HasEventId(st.rows, id) then st
        else st.(rows := st.rows + [InsertedEvent(id, ev, now)], added := st.added + 1)
  }

  /** The state after the first `n` events; `ids[k]` is the id generated for event `k`. */
  function StoreEventsPrefix(rows: seq<EventRow>, evs: seq<Record>, ids: seq<string>, failing: set<nat>, now: string, n: nat): EventStoreState
    requires n <= |evs| == |ids|
  {
    if n == 0 then EventStoreState(rows, 0, 0)
    else StoreEvent(StoreEventsPrefix(rows, evs, ids, failing, now, n - 1), evs[n - 1], ids[n - 1], n - 1 in failing, now)
  }

  /** The positions of the events with a value D1 refuses to bind. */
  function UnbindableEvents(evs: seq<Record>): (r: set<nat>)
    ensures forall k: nat :: k in r <==> k < |evs| && !EventBinds(evs[k])
  {
    set k: nat | k < |evs| && !EventBinds(evs[k])
  }

  /** The whole batch; `failing` holds the positions of the events whose statements meet
      a fault of the database, and the events with a value D1 refuses throw as well. */
  function StoreEventsSpec(rows: seq<EventRow>, evs: seq<Record>, ids: seq<string>, failing: set<nat>, now: string): EventStoreState
    requires |evs| == |ids|
  {
    StoreEventsPrefix(rows, evs, ids, failing + UnbindableEvents(evs), now, |evs|)
  }

  /** An event with a value D1 refuses changes nothing and is counted nowhere. */
  lemma UnbindableEventSkipped(rows: seq<EventRow>, evs: seq<Record>, ids: seq<string>, failing: set<nat>, now: string, n: nat)
    requires n < |evs| == |ids| && !EventBinds(evs[n])
    ensures StoreEventsPrefix(rows, evs, ids, failing + UnbindableEvents(evs), now, n + 1)
      == StoreEventsPrefix(rows, evs, ids, failing + UnbindableEvents(evs), now, n)
  {
    StoreEventsPrefixStep(rows, evs, ids, failing + UnbindableEvents(evs), now, n + 1);
  }

  /** One event never removes a row, keeps each row's id and url, and keeps each title. */
  lemma StoreEventKeeps(st: EventStoreState, ev: Record, id: string, fails: bool, now: string)
    ensures var next := StoreEvent(st, ev, id, fails, now);
      |next.rows| >= |st.rows| && forall i :: 0 <= i < |st.rows| ==> KeptByUpdate(st.rows[i], next.rows[i])
  {
    var next := StoreEvent(st, ev, id, fails, now);
    if !fails && FindEvent(st.rows, ev).Some? {
      var k := FindEvent(st.rows, ev).value;
      assert MatchesEvent(st.rows[k], ev);
      assert AsStored(next.rows[k].title) == AsStored(st.rows[k].title);
    }
  }

  /** No row of `rows` is deleted; each keeps its id, url, title and creation time; ids
      stay distinct; each of the first `n` events is counted at most once, so the two
      counts together never exceed `n`. */
  predicate PreservesRows(rows: seq<EventRow>, st: EventStoreState, n: nat) {
    && EventIdsDistinct(st.rows)
    && |st.rows| == |rows| + st.added
    && st.added + st.updated <= n
    && |rows| <= |st.rows| && forall i :: 0 <= i < |rows| ==> KeptByUpdate(rows[i], st.rows[i])
  }

  /** The store keeps the table's rows and counts each event at most once. */
  lemma {:induction false} StoreEventsPreserves(rows: seq<EventRow>, evs: seq<Record>, ids: seq<string>, failing: set<nat>, now: string, n: nat)
    requires n <= |evs| == |ids| && EventIdsDistinct(rows)
    ensures PreservesRows(rows, StoreEventsPrefix(rows, evs, ids, failing, now, n), n)
  {
    if n > 0 {
      StoreEventsPreserves(rows, evs, ids, failing, now, n - 1);
      var prev := StoreEventsPrefix(rows, evs, ids, failing, now, n - 1);
      PreservesStep(rows, prev, evs[n - 1], ids[n - 1], n - 1 in failing, n - 1, now);
      assert PreservesRows(rows, StoreEvent(prev, evs[n - 1], ids[n - 1], n - 1 in failing, now), n);
      StoreEventsPrefixStep(rows, evs, ids, failing, now, n);
    }
  }

  /** One more event keeps what the store preserves. */
  lemma PreservesStep(rows: seq<EventRow>, prev: EventStoreState, ev: Record, id: string, fails: bool, n: nat, now: string)
    requires PreservesRows(rows, prev, n)
    ensures PreservesRows(rows, StoreEvent(prev, ev, id, fails, now), n + 1)
  {
    var st := StoreEvent(prev, ev, id, fails, now);
    StoreEventStep(prev, ev, id, fails, now);
    forall i | 0 <= i < |rows|
      ensures KeptByUpdate(rows[i], st.rows[i])
    {
      assert KeptByUpdate(rows[i], prev.rows[i]) && KeptByUpdate(prev.rows[i], st.rows[i]);
    }
  }

  lemma StoreEventsPrefixStep(rows: seq<EventRow>, evs: seq<Record>, ids: seq<string>, failing: set<nat>, now: string, n: nat)
    requires 0 < n <= |evs| == |ids|
    ensures StoreEventsPrefix(rows, evs, ids, failing, now, n)
      == StoreEvent(StoreEventsPrefix(rows, evs, ids, failing, now, n - 1), evs[n - 1], ids[n - 1], n - 1 in failing, now)
  {
  }

  /** One event keeps the ids distinct, adds at most one row, and is counted at most
      once. */
  lemma StoreEventStep(st: EventStoreState, ev: Record, id: string, fails: bool, now: string)
    requires EventIdsDistinct(st.rows)
    ensures var next := StoreEvent(st, ev, id, fails, now);
      EventIdsDistinct(next.rows) && next.added >= st.added
      && |next.rows| == |st.rows| + (next.added - st.added)
      && next.added + next.updated <= st.added + st.updated + 1
      && forall i :: 0 <= i < |st.rows| ==> KeptByUpdate(st.rows[i], next.rows[i])
  {
    var next := StoreEvent(st, ev, id, fails, now);
    StoreEventKeeps(st, ev, id, fails, now);
    if !fails && FindEvent(st.rows, ev).None? && !HasEventId(st.rows, id) {
      forall i, j | 0 <= i < j < |next.rows|
        ensures next.rows[i].id != next.rows[j].id
      {
        if j == |st.rows| {
          assert next.rows[j].id == id;
          assert next.rows[i] == st.rows[i];
        } else {
          assert next.rows[i] == st.rows[i] && next.rows[j] == st.rows[j];
        }
      }
    } else {
      forall i, j | 0 <= i < j < |next.rows|
        ensures next.rows[i].id != next.rows[j].id
      {
        assert KeptByUpdate(st.rows[i], next.rows[i]) && KeptByUpdate(st.rows[j], next.rows[j]);
      }
    }
  }
}
