/** `EventController`: the administrators' event list (search, newest first,
    pages of ten), create, edit and delete on the `Events` table, and the JSON
    details of one event. */
module Events {
  import opened Wrappers
  import opened Text
  import opened Guids
  import opened Calendar
  import opened Linq
  import opened Mvc
  import opened EventModel
  import opened Data

  const PageSize: int := 10

  // ---------------------------------------------------------------------------
  // Index

  /** The search term occurs in the title or in the location. The query runs in
      the database, where a null column matches nothing. */
  predicate Matches(e: Event, term: string) {
    || (e.title.Some? && Contains(e.title.value, term))
    || (e.location.Some? && Contains(e.location.value, term))
  }

  /** The events the search selects, in table order: all of them when the term
      is null, empty or white space. */
  function Search(events: seq<Event>, search: Option<string>): seq<Event> {
    if IsNullOrWhiteSpace(search) then events
    else
      var term := search.value;
      Where(events, (e: Event) => Matches(e, term))
  }

  /** An event is a candidate exactly when the search is blank or matches it,
      and a candidate appears as often as it does in the table. */
  lemma SearchSelects(events: seq<Event>, search: Option<string>, e: Event)
    ensures var selected := IsNullOrWhiteSpace(search) || Matches(e, search.value);
      && (e in Search(events, search) <==> e in events && selected)
      && multiset(Search(events, search))[e] == if selected then multiset(events)[e] else 0
  {
    if !IsNullOrWhiteSpace(search) {
      var term := search.value;
      WhereCount(events, x => Matches(x, term), e);
    }
  }

  /** `OrderByDescending(e => e.Date)`: `a` may come first when it is no earlier. */
  predicate LaterFirst(a: Event, b: Event) {
    AtOrBefore(b.date, a.date)
  }

  lemma LaterFirstIsPreorder()
    ensures TotalPreorder(LaterFirst)
  {
    forall a: Event, b: Event, c: Event ensures
      && (LaterFirst(a, b) || LaterFirst(b, a))
      && (LaterFirst(a, b) && LaterFirst(b, c) ==> LaterFirst(a, c))
    {
      AtOrBeforeIsTotalOrder(c.date, b.date, a.date);
    }
  }

  /** The selected events, newest first. */
  function Ordered(events: seq<Event>, search: Option<string>): seq<Event> {
    SortWith(Search(events, search), LaterFirst)
  }

  /** The ordered list is the selection, rearranged, with dates descending. */
  lemma OrderedIsSortedSelection(events: seq<Event>, search: Option<string>)
    ensures multiset(Ordered(events, search)) == multiset(Search(events, search))
    ensures var all := Ordered(events, search);
      forall i, j :: 0 <= i < j < |all| ==> AtOrBefore(all[j].date, all[i].date)
  {
    SortPermutes(Search(events, search), LaterFirst);
    LaterFirstIsPreorder();
    SortSorted(Search(events, search), LaterFirst);
  }

  /** C#'s `int`. */
  type Int32 = x: int | -0x8000_0000 <= x < 0x8000_0000

  /** C#'s unchecked `int` arithmetic: the two's-complement value congruent to
      `x` modulo 2^32. */
  function Wrap32(x: int): (r: Int32)
    ensures (x - r) % 0x1_0000_0000 == 0
    ensures -0x8000_0000 <= x < 0x8000_0000 ==> r == x
  {
    var m := x % 0x1_0000_0000;
    if m < 0x8000_0000 then m else m - 0x1_0000_0000
  }

  /** The pager's offset `(pageNumber - 1) * pageSize`, an unchecked `int`
      product: exact up to page 214748365, wrapped above it. */
  function PageOffset(page: Int32): (o: Int32)
    requires page >= 1
    ensures page <= 214748365 ==> o == (page - 1) * PageSize
  {
    Wrap32((page - 1) * PageSize)
  }

  /** `ToPagedList(page, 10)`: page `page` of the ordered list. A page number
      below 1 makes the pager throw. Otherwise the pager counts the list and,
      when it is not empty, runs the query with `Skip` of the 32-bit offset,
      which the database refuses when the offset is negative. Nothing handles
      either exception. */
  function IndexPage(events: seq<Event>, search: Option<string>, page: Int32): (r: Option<seq<Event>>)
    ensures r.Some? <==> page >= 1 && (Ordered(events, search) == [] || PageOffset(page) >= 0)
    ensures r.Some? ==> |r.value| <= PageSize
  {
    if page < 1 then None
    else
      var all, start := Ordered(events, search), PageOffset(page);
      if all == [] then Some([])
      else if start < 0 then None
      else Some(Take(Skip(all, start), PageSize))
  }

  /** A shown page holds the elements of the ordered list from the pager's
      offset on, up to ten of them, as many as exist; up to page 214748365 the
      offset is (p - 1) * 10. */
  lemma PageIsSlice(events: seq<Event>, search: Option<string>, page: Int32)
    requires IndexPage(events, search, page).Some?
    ensures var all, r, start := Ordered(events, search), IndexPage(events, search, page).value, PageOffset(page);
      && |r| == (if start < 0 || |all| <= start then 0 else if |all| - start < PageSize then |all| - start else PageSize)
      && forall k :: 0 <= k < |r| ==> start + k < |all| && r[k] == all[start + k]
  {
    if Ordered(events, search) != [] {
      SkipTakeSlice(Ordered(events, search), PageOffset(page), PageSize);
    }
  }

  /** Past page 214748365 the offset wraps: page 214748366 asks for offset
      -2147483646, which fails on any non-empty list, and page 429496731 for
      offset 4, which shows the fifth to the fourteenth event. */
  lemma HugePagesWrap(events: seq<Event>, search: Option<string>)
    requires Ordered(events, search) != []
    ensures PageOffset(214748366) == -2147483646 && IndexPage(events, search, 214748366).None?
    ensures PageOffset(429496731) == 4
    ensures IndexPage(events, search, 429496731) == Some(Take(Skip(Ordered(events, search), 4), PageSize))
  {
    assert (214748365 * 10) % 0x1_0000_0000 == 2147483650;
    assert (429496730 * 10) % 0x1_0000_0000 == 4;
  }

  /** Every event on a page is in the table and selected by the search, and the
      page runs newest first. */
  lemma PageIsSelectedAndDescending(events: seq<Event>, search: Option<string>, page: Int32)
    requires IndexPage(events, search, page).Some?
    ensures var r := IndexPage(events, search, page).value;
      && (forall k :: 0 <= k < |r| ==> r[k] in events && (IsNullOrWhiteSpace(search) || Matches(r[k], search.value)))
      && (forall i, j :: 0 <= i < j < |r| ==> AtOrBefore(r[j].date, r[i].date))
  {
    var all, r := Ordered(events, search), IndexPage(events, search, page).value;
    PageIsSlice(events, search, page);
    OrderedIsSortedSelection(events, search);
    forall k | 0 <= k < |r|
      ensures r[k] in events && (IsNullOrWhiteSpace(search) || Matches(r[k], search.value))
    {
      assert r[k] in multiset(all);
      SearchSelects(events, search, r[k]);
    }
  }

  // ---------------------------------------------------------------------------
  // Lookups

  /** `Find(id)`, or `Where(e => e.Id == id).FirstOrDefault()`: the first event
      with that identifier. */
  function Find(events: seq<Event>, id: Guid): (r: Option<Event>)
    ensures r.Some? ==> r.value in events && r.value.id == id
    ensures r.None? <==> forall i :: 0 <= i < |events| ==> events[i].id != id
  {
    if events == [] then None
    else if events[0].id == id then Some(events[0])
    else Find(events[1..], id)
  }

  /** With unique identifiers, `Find` gives the one event carrying the id. */
  lemma FindUnique(events: seq<Event>, k: int)
    requires EventIdsUnique(events)
    requires 0 <= k < |events|
    ensures Find(events, events[k].id) == Some(events[k])
  {
    var r := Find(events, events[k].id);
    var i :| 0 <= i < |events| && events[i] == r.value;
    assert i == k;
  }

  /** The anonymous object `GetDetailsJson` serialises. */
  datatype EventDetails = EventDetails(name: Option<string>, description: Option<string>, date: string, location: Option<string>)

  /** The JSON details of the event with `id`, or `None` for NotFound. */
  function GetDetailsJson(events: seq<Event>, id: Guid): (r: Option<EventDetails>)
    ensures r.None? <==> Find(events, id).None?
  {
    match Find(events, id)
    case None => None
    case Some(e) => Some(EventDetails(e.title, e.description, FormatDate(e.date), e.location))
  }

  /** The details carry the event's title, description and location, and its
      date as "yyyy-MM-dd", which reads back as the event's day. */
  lemma DetailsDescribeTheEvent(events: seq<Event>, id: Guid)
    requires Find(events, id).Some?
    ensures var e, d := Find(events, id).value, GetDetailsJson(events, id).value;
      && d.name == e.title && d.description == e.description && d.location == e.location
      && |d.date| == 10
      && ParseDate(d.date) == (e.date.year, e.date.month, e.date.day)
  {
    FormatDateRoundTrip(Find(events, id).value.date);
  }

  // ---------------------------------------------------------------------------
  // Changes to the table

  /** `Update(updated)`: the row with the updated event's key replaced. */
  function ReplaceById(events: seq<Event>, updated: Event): (r: seq<Event>)
    ensures |r| == |events|
    ensures forall i :: 0 <= i < |r| ==> r[i] == if events[i].id == updated.id then updated else events[i]
  {
    if events == [] then []
    else [if events[0].id == updated.id then updated else events[0]] + ReplaceById(events[1..], updated)
  }

  /** Replacing keeps every key where it was, so keys stay unique, and the
      updated event takes the place of the row it replaces. */
  lemma ReplaceKeepsKeys(events: seq<Event>, updated: Event, k: int)
    requires EventIdsUnique(events)
    requires 0 <= k < |events| && events[k].id == updated.id
    ensures EventIdsUnique(ReplaceById(events, updated))
    ensures ReplaceById(events, updated) == events[k := updated]
  {
    var r := ReplaceById(events, updated);
    assert forall i :: 0 <= i < |r| ==> r[i].id == events[i].id;
  }

  /** The row `Add` inserts, which is also what `Update` inserts for an
      event whose key is `Guid.Empty`: EF Core generates a value for a `Guid`
      key left at its default (`newId` stands for it) and keeps any other key.
      Only the key can change. */
  function KeyedForInsert(evt: Event, newId: Guid): (s: Event)
    requires newId != EmptyGuid
    ensures s.id != EmptyGuid
    ensures evt.id != EmptyGuid ==> s == evt
    ensures s.(id := evt.id) == evt
  {
    if evt.id == EmptyGuid then evt.(id := newId) else evt
  }

  /** `Remove(evt)`: every row but the ones with key `id`. */
  function RemoveById(events: seq<Event>, id: Guid): seq<Event> {
    Where(events, (e: Event) => e.id != id)
  }

  /** With unique keys, removing the event at position `k` closes the gap
      and leaves the rest in order, with keys still unique. */
  lemma RemoveIsSplice(events: seq<Event>, k: int)
    requires EventIdsUnique(events)
    requires 0 <= k < |events|
    ensures RemoveById(events, events[k].id) == events[..k] + events[k + 1..]
    ensures EventIdsUnique(RemoveById(events, events[k].id))
  {
    var id := events[k].id;
    WhereDropsOne(events, (e: Event) => e.id != id, k);
    var r := events[..k] + events[k + 1..];
    forall i, j | 0 <= i < j < |r| ensures r[i].id != r[j].id {
      var i', j' := if i < k then i else i + 1, if j < k then j else j + 1;
      assert r[i] == events[i'] && r[j] == events[j'];
    }
  }

  class EventController {
    const db: AppDb

    constructor (db: AppDb)
      ensures this.db == db
    {
      this.db := db;
    }

    /** GET Index: the requested page, or `Unhandled` when the pager throws. */
    method Index(search: Option<string>, page: Int32) returns (r: ActionResult, shown: Option<seq<Event>>)
      ensures shown == IndexPage(db.events, search, page)
      ensures r == View || r == Unhandled
      ensures r == View <==> page >= 1 && (Ordered(db.events, search) == [] || PageOffset(page) >= 0)
    {
      shown := IndexPage(db.events, search, page);
      r := if shown.Some? then View else Unhandled;
    }

    /** `SaveChanges` of an inserted event: a key already in the table makes
        the save throw and nothing is stored; otherwise the row is appended
        and the browser goes back to the list. */
    method Insert(s: Event) returns (r: ActionResult)
      requires db.Valid()
      modifies db`events
      ensures db.Valid()
      ensures Find(old(db.events), s.id).Some? ==> r == Unhandled && db.events == old(db.events)
      ensures Find(old(db.events), s.id).None? ==>
        r == RedirectToAction("Index", None) && db.events == old(db.events) + [s]
    {
      if Find(db.events, s.id).Some? {
        return Unhandled;
      }
      db.events := db.events + [s];
      r := RedirectToAction("Index", None);
    }

    /** POST Create: a valid event is added under its own key, or under a
        generated one when it was posted with `Guid.Empty`; an invalid one is
        shown again. */
    method Create(evt: Event, newId: Guid) returns (r: ActionResult)
      requires db.Valid()
      requires newId != EmptyGuid
      modifies db`events
      ensures db.Valid()
      ensures !IsValid(evt) ==> r == View && db.events == old(db.events)
      ensures IsValid(evt) ==> var s := KeyedForInsert(evt, newId);
        && (Find(old(db.events), s.id).Some? ==> r == Unhandled && db.events == old(db.events))
        && (Find(old(db.events), s.id).None? ==>
              r == RedirectToAction("Index", None) && db.events == old(db.events) + [s])
    {
      if !IsValid(evt) {
        return View;
      }
      r := Insert(KeyedForInsert(evt, newId));
    }

    /** GET Edit: the event with `id`, or NotFound. */
    method EditForm(id: Guid) returns (r: ActionResult, shown: Option<Event>)
      ensures shown == Find(db.events, id)
      ensures r == if shown.None? then NotFound else View
    {
      shown := Find(db.events, id);
      r := if shown.None? then NotFound else View;
    }

    /** POST Edit: a route id that differs from the event's own is a bad
        request. A valid event with key `Guid.Empty` is tracked as new and
        inserted under a generated key; otherwise it replaces the row with its
        key, and updating a key that is not in the table makes the save throw. */
    method Edit(id: Guid, updated: Event, newId: Guid) returns (r: ActionResult)
      requires db.Valid()
      requires newId != EmptyGuid
      modifies db`events
      ensures db.Valid()
      ensures id != updated.id ==> r == BadRequest && db.events == old(db.events)
      ensures id == updated.id && !IsValid(updated) ==> r == View && db.events == old(db.events)
      ensures id == updated.id && IsValid(updated) && id == EmptyGuid ==> var s := KeyedForInsert(updated, newId);
        && (Find(old(db.events), s.id).Some? ==> r == Unhandled && db.events == old(db.events))
        && (Find(old(db.events), s.id).None? ==>
              r == RedirectToAction("Index", None) && db.events == old(db.events) + [s])
      ensures id == updated.id && IsValid(updated) && id != EmptyGuid && Find(old(db.events), id).None? ==>
        r == Unhandled && db.events == old(db.events)
      ensures id == updated.id && IsValid(updated) && id != EmptyGuid && Find(old(db.events), id).Some? ==>
        r == RedirectToAction("Index", None) && db.events == ReplaceById(old(db.events), updated)
    {
      if id != updated.id {
        return BadRequest;
      }
      if !IsValid(updated) {
        return View;
      }
      if id == EmptyGuid {
        r := Insert(KeyedForInsert(updated, newId));
        return;
      }
      if Find(db.events, id).None? {
        return Unhandled;
      }
      var k :| 0 <= k < |db.events| && db.events[k].id == id;
      ReplaceKeepsKeys(db.events, updated, k);
      db.events := ReplaceById(db.events, updated);
      r := RedirectToAction("Index", None);
    }

    /** POST Delete: NotFound for an unknown id, otherwise the event is removed. */
    method Delete(id: Guid) returns (r: ActionResult)
      requires db.Valid()
      modifies db`events
      ensures db.Valid()
      ensures Find(old(db.events), id).None? ==> r == NotFound && db.events == old(db.events)
      ensures Find(old(db.events), id).Some? ==>
        r == RedirectToAction("Index", None) && db.events == RemoveById(old(db.events), id)
    {
      if Find(db.events, id).None? {
        return NotFound;
      }
      var k :| 0 <= k < |db.events| && db.events[k].id == id;
      RemoveIsSplice(db.events, k);
      db.events := RemoveById(db.events, id);
      r := RedirectToAction("Index", None);
    }
  }
}
