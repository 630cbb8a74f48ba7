/** The upcoming-events query the home page and the volunteer form share:
    `Where(e => e.Date >= today).OrderBy(e => e.Date)`. */
module Schedule {
  import opened Calendar
  import opened Linq
  import opened EventModel

  /** The event takes place today or later. */
  predicate IsUpcoming(today: DateTime, e: Event) {
    AtOrBefore(today, e.date)
  }

  /** `OrderBy(e => e.Date)`: `a` may come first when it is no later. */
  predicate EarlierFirst(a: Event, b: Event) {
    AtOrBefore(a.date, b.date)
  }

  lemma EarlierFirstIsPreorder()
    ensures TotalPreorder(EarlierFirst)
  {
    forall a: Event, b: Event, c: Event ensures
      && (EarlierFirst(a, b) || EarlierFirst(b, a))
      && (EarlierFirst(a, b) && EarlierFirst(b, c) ==> EarlierFirst(a, c))
    {
      AtOrBeforeIsTotalOrder(a.date, b.date, c.date);
    }
  }

  /** The events dated today or later, earliest first. */
  function Upcoming(events: seq<Event>, today: DateTime): seq<Event> {
    SortWith(Where(events, (e: Event) => IsUpcoming(today, e)), EarlierFirst)
  }

  /** The upcoming list holds each upcoming event as often as the table does,
      and nothing else, with dates ascending. */
  lemma UpcomingIsSortedSelection(events: seq<Event>, today: DateTime)
    ensures forall e :: multiset(Upcoming(events, today))[e] == if IsUpcoming(today, e) then multiset(events)[e] else 0
    ensures Sorted(Upcoming(events, today), EarlierFirst)
  {
    var p := (e: Event) => IsUpcoming(today, e);
    SortPermutes(Where(events, p), EarlierFirst);
    forall e ensures multiset(Upcoming(events, today))[e] == if IsUpcoming(today, e) then multiset(events)[e] else 0 {
      WhereCount(events, p, e);
    }
    EarlierFirstIsPreorder();
    SortSorted(Where(events, p), EarlierFirst);
  }
}
