/** The `Event` entity, its defaults and its data-annotation rules. */
module EventModel {
  import opened Wrappers
  import opened Text
  import opened Guids
  import opened Calendar

  datatype Event = Event(
    id: Guid,
    title: Option<string>,
    description: Option<string>,
    date: DateTime,
    location: Option<string>,
    createdAt: DateTime)

  /** `DateTime.MinValue`, the value of a `DateTime` property nobody set. */
  const MinDate: DateTime := DateParts(1, 1, 1, 0)

  /** `new Event()`: a fresh identifier from `Guid.NewGuid()` (passed in, since
      the model does not generate identifiers), creation time "now", no title,
      description or location, and the minimum date. */
  function NewEvent(newId: Guid, now: DateTime): (e: Event)
    ensures e.id == newId && e.createdAt == now
    ensures e.title.None? && e.description.None? && e.location.None?
  {
    Event(newId, None, None, MinDate, None, now)
  }

  /** The validation results of an event, as member names. Only `Title` can
      fail: `[Required]` on the non-nullable `Date` always holds, and
      `Description` and `Location` carry no rules. */
  function ValidationErrors(e: Event): (errs: seq<string>)
    ensures errs == [] || errs == ["Title"]
    ensures errs == [] <==> !IsNullOrWhiteSpace(e.title)
  {
    if IsNullOrWhiteSpace(e.title) then ["Title"] else []
  }

  predicate IsValid(e: Event) {
    ValidationErrors(e) == []
  }

  /** Validity depends on the title alone: description, location, date and the
      other fields can take any value, null included. */
  lemma ValidityDependsOnTitleOnly(e: Event, description: Option<string>, location: Option<string>, date: DateTime, createdAt: DateTime)
    ensures IsValid(e.(description := description, location := location, date := date, createdAt := createdAt)) == IsValid(e)
  {
  }

  /** A new event is invalid until it is given a title, and it is stamped no
      later than the time it was made. */
  lemma NewEventNeedsTitle(newId: Guid, now: DateTime)
    ensures !IsValid(NewEvent(newId, now))
    ensures AtOrBefore(NewEvent(newId, now).createdAt, now)
  {
  }
}
