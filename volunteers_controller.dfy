/** `VolunteersController`: the sign-up form listing upcoming events, and the
    sign-up itself, which adds at most one row per user and event. */
module Volunteers {
  import opened Wrappers
  import opened Text
  import opened Guids
  import opened Calendar
  import opened Linq
  import opened Mvc
  import opened EventModel
  import opened VolunteerModel
  import opened Schedule
  import opened Data

  /** A `SelectListItem` of the form: the event's identifier as its value, and
      the title and date its display text is made from. The projection runs in
      the database, so the value is SQL Server's upper-case text of the id. */
  datatype EventOption = EventOption(value: string, title: Option<string>, date: DateTime)

  function OptionFor(e: Event): (o: EventOption)
    ensures |o.value| == 36
    ensures o.title == e.title && o.date == e.date
  {
    EventOption(ToSqlText(e.id), e.title, e.date)
  }

  /** The posted option value names its event: it is the event's "D" text up
      to letter case, which `Guid` parsing ignores. */
  lemma OptionValueNamesTheEvent(e: Event)
    ensures EqualsIgnoreCase(Some(OptionFor(e).value), ToText(e.id))
  {
  }

  /** The form's event list: one option per upcoming event, earliest first. */
  function FormOptions(events: seq<Event>, today: DateTime): (opts: seq<EventOption>)
    ensures |opts| == |Upcoming(events, today)|
  {
    var u := Upcoming(events, today);
    seq(|u|, i requires 0 <= i < |u| => OptionFor(u[i]))
  }

  /** Each option names an upcoming event of the table, there is one option
      per upcoming event, and the options run in date order. */
  lemma FormListsUpcomingEventsInOrder(events: seq<Event>, today: DateTime)
    ensures var opts := FormOptions(events, today);
      && |opts| == |Where(events, (e: Event) => IsUpcoming(today, e))|
      && (forall i :: 0 <= i < |opts| ==>
            exists e :: e in events && IsUpcoming(today, e) && opts[i] == OptionFor(e))
      && (forall i, j :: 0 <= i < j < |opts| ==> AtOrBefore(opts[i].date, opts[j].date))
  {
    var u := Upcoming(events, today);
    var opts := FormOptions(events, today);
    var selected := Where(events, (e: Event) => IsUpcoming(today, e));
    SortPermutes(selected, EarlierFirst);
    assert |multiset(u)| == |u| && |multiset(selected)| == |selected|;
    UpcomingIsSortedSelection(events, today);
    forall i | 0 <= i < |opts|
      ensures exists e :: e in events && IsUpcoming(today, e) && opts[i] == OptionFor(e)
    {
      assert u[i] in multiset(u);
      assert opts[i] == OptionFor(u[i]);
    }
    forall i, j | 0 <= i < j < |opts| ensures AtOrBefore(opts[i].date, opts[j].date) {
      assert opts[i].date == u[i].date && opts[j].date == u[j].date;
      assert EarlierFirst(u[i], u[j]);
    }
  }

  /** Conversely, every event dated today or later has its option on the form. */
  lemma FormListsEveryUpcomingEvent(events: seq<Event>, today: DateTime)
    ensures forall e :: e in events && IsUpcoming(today, e) ==> OptionFor(e) in FormOptions(events, today)
  {
    var u := Upcoming(events, today);
    var opts := FormOptions(events, today);
    UpcomingIsSortedSelection(events, today);
    forall e | e in events && IsUpcoming(today, e) ensures OptionFor(e) in opts {
      assert e in multiset(events);
      assert e in multiset(u);
      var k :| 0 <= k < |u| && u[k] == e;
      assert opts[k] == OptionFor(e);
    }
  }

  /** Some row already pairs this user with this event. */
  predicate SignedUp(vs: seq<Volunteer>, eventId: Guid, userId: Option<string>) {
    exists i :: 0 <= i < |vs| && vs[i].eventId == eventId && vs[i].userId == userId
  }

  /** No user is signed up twice for the same event. */
  predicate NoDuplicateSignUps(vs: seq<Volunteer>) {
    forall i, j :: 0 <= i < j < |vs| ==> !(vs[i].eventId == vs[j].eventId && vs[i].userId == vs[j].userId)
  }

  /** The table after a sign-up request with row `v`: unchanged when the user
      is already signed up for the event, otherwise `v` appended. */
  function SignUp(vs: seq<Volunteer>, v: Volunteer): seq<Volunteer> {
    if SignedUp(vs, v.eventId, v.userId) then vs else vs + [v]
  }

  /** After a request the user is signed up, the earlier rows are untouched and
      at most one row is added; no other pair changes status. */
  lemma SignUpRecordsThePair(vs: seq<Volunteer>, v: Volunteer, eventId: Guid, userId: Option<string>)
    ensures SignedUp(SignUp(vs, v), v.eventId, v.userId)
    ensures vs <= SignUp(vs, v) && |SignUp(vs, v)| <= |vs| + 1
    ensures SignedUp(SignUp(vs, v), eventId, userId) <==>
      SignedUp(vs, eventId, userId) || (eventId == v.eventId && userId == v.userId)
  {
    var r := SignUp(vs, v);
    if !SignedUp(vs, v.eventId, v.userId) {
      assert r[|vs|] == v;
      if SignedUp(r, eventId, userId) && !(eventId == v.eventId && userId == v.userId) {
        var i :| 0 <= i < |r| && r[i].eventId == eventId && r[i].userId == userId;
        assert vs[i] == r[i];
      }
      if SignedUp(vs, eventId, userId) {
        var i :| 0 <= i < |vs| && vs[i].eventId == eventId && vs[i].userId == userId;
        assert r[i] == vs[i];
      }
    }
  }

  /** Repeating the request changes nothing. */
  lemma SignUpIsIdempotent(vs: seq<Volunteer>, v: Volunteer, again: Volunteer)
    requires again.eventId == v.eventId && again.userId == v.userId
    ensures SignUp(SignUp(vs, v), again) == SignUp(vs, v)
  {
    SignUpRecordsThePair(vs, v, v.eventId, v.userId);
  }

  /** Sign-ups through this action never create a duplicate pair. */
  lemma SignUpKeepsPairsUnique(vs: seq<Volunteer>, v: Volunteer)
    requires NoDuplicateSignUps(vs)
    ensures NoDuplicateSignUps(SignUp(vs, v))
  {
    var r := SignUp(vs, v);
    if !SignedUp(vs, v.eventId, v.userId) {
      forall i, j | 0 <= i < j < |r| ensures !(r[i].eventId == r[j].eventId && r[i].userId == r[j].userId) {
        if j == |vs| {
          assert r[i] == vs[i] && r[j] == v;
        } else {
          assert r[i] == vs[i] && r[j] == vs[j];
        }
      }
    }
  }

  class VolunteersController {
    const db: AppDb

    constructor (db: AppDb)
      ensures this.db == db
    {
      this.db := db;
    }

    /** GET VolunteerForEvent: the form, with the upcoming events as options. */
    method ShowVolunteerForm(today: DateTime) returns (r: ActionResult, options: seq<EventOption>)
      ensures r == NamedView("VolunteerForEvent")
      ensures options == FormOptions(db.events, today)
    {
      options := FormOptions(db.events, today);
      r := NamedView("VolunteerForEvent");
    }

    /** POST VolunteerForEvent: sign the current user up for the event unless
        they already are, and go back to the event list either way. `newId`
        and `now` are the new row's `Guid.NewGuid()` and `DateTime.Now`. */
    method VolunteerForEvent(eventId: Guid, userId: Option<string>, newId: Guid, now: DateTime)
      returns (r: ActionResult)
      modifies db`volunteers
      ensures r == RedirectToAction("Index", Some("Event"))
      ensures db.volunteers == SignUp(old(db.volunteers), Volunteer(newId, userId, eventId, now))
    {
      if SignedUp(db.volunteers, eventId, userId) {
        return RedirectToAction("Index", Some("Event"));
      }
      db.volunteers := db.volunteers + [Volunteer(newId, userId, eventId, now)];
      r := RedirectToAction("Index", Some("Event"));
    }
  }
}
