/**
 * The `EventListing` every event scraper builds: one literal with the same nineteen
 * fields in each scraper, handed to the manager as a record keyed by the field names.
 */
module Listings {
  import opened Js

  datatype EventListing = EventListing(
    title: Value, description: Value, startDate: Value, startTime: Value,
    endDate: Value, endTime: Value, url: Value, organizer: Value, source: Value,
    category: Value, location: Value, venue: Value, address: Value, imageUrl: Value,
    tags: Value, price: Value, isFree: Value, createdAt: Value, updatedAt: Value)

  /** The keys of an event literal. */
  const EventKeys: set<string> := {
    "title", "description", "start_date", "start_time", "end_date", "end_time", "url",
    "organizer", "source", "category", "location", "venue", "address", "image_url",
    "tags", "price", "is_free", "created_at", "updated_at"}

  /** The literal as the object the manager receives: every field under its key. */
  function AsRecord(e: EventListing): Record {
    map[
      "title" := e.title, "description" := e.description, "start_date" := e.startDate,
      "start_time" := e.startTime, "end_date" := e.endDate, "end_time" := e.endTime,
      "url" := e.url, "organizer" := e.organizer, "source" := e.source,
      "category" := e.category, "location" := e.location, "venue" := e.venue,
      "address" := e.address, "image_url" := e.imageUrl, "tags" := e.tags,
      "price" := e.price, "is_free" := e.isFree, "created_at" := e.createdAt,
      "updated_at" := e.updatedAt]
  }

  /** An event literal has exactly the nineteen keys. */
  lemma AsRecordKeys(e: EventListing)
    ensures AsRecord(e).Keys == EventKeys
  {
  }

  /** Every event literal has the nineteen keys, `start_date` among them. */
  lemma EventKeysPresent()
    ensures forall e :: AsRecord(e).Keys == EventKeys
  {
    forall e {
      AsRecordKeys(e);
    }
  }

  /** The title, description and url are found under their keys. */
  lemma AsRecordIdentity(e: EventListing)
    ensures var r := AsRecord(e);
      r["title"] == e.title && r["description"] == e.description && r["url"] == e.url
  {
  }

  /** The dates and times are found under their keys. */
  lemma AsRecordWhen(e: EventListing)
    ensures var r := AsRecord(e);
      && r["start_date"] == e.startDate && r["start_time"] == e.startTime
      && r["end_date"] == e.endDate && r["end_time"] == e.endTime
  {
  }

  /** The descriptive fields are found under their keys. */
  lemma AsRecordWhere(e: EventListing)
    ensures var r := AsRecord(e);
      && r["organizer"] == e.organizer && r["source"] == e.source && r["category"] == e.category
      && r["location"] == e.location && r["venue"] == e.venue && r["address"] == e.address
  {
  }

  /** The remaining fields are found under their keys. */
  lemma AsRecordRest(e: EventListing)
    ensures var r := AsRecord(e);
      && r["image_url"] == e.imageUrl && r["tags"] == e.tags && r["price"] == e.price
      && r["is_free"] == e.isFree && r["created_at"] == e.createdAt && r["updated_at"] == e.updatedAt
  {
  }
}
