/** `HomeController`: the next upcoming event on the home page, and the four
    next events and four newest blog posts on the news page. Neither action
    changes any table. */
module Home {
  import opened Wrappers
  import opened Calendar
  import opened Linq
  import opened Mvc
  import opened EventModel
  import opened BlogPostModel
  import opened Schedule
  import opened Data

  /** How many events and posts the news page shows. */
  const NewsCount: int := 4

  /** `FirstOrDefault()` of the upcoming events. */
  function NextEvent(events: seq<Event>, today: DateTime): Option<Event> {
    var u := Upcoming(events, today);
    if u == [] then None else Some(u[0])
  }

  /** There is no next event exactly when no event is dated today or later;
      otherwise the next event is an upcoming event of the table that no other
      upcoming event precedes. */
  lemma NextEventIsEarliestUpcoming(events: seq<Event>, today: DateTime)
    ensures NextEvent(events, today).None? <==> forall e :: e in events ==> !IsUpcoming(today, e)
    ensures NextEvent(events, today).Some? ==>
      var next := NextEvent(events, today).value;
      && next in events && IsUpcoming(today, next)
      && forall e :: e in events && IsUpcoming(today, e) ==> AtOrBefore(next.date, e.date)
  {
    var u := Upcoming(events, today);
    UpcomingIsSortedSelection(events, today);
    if u == [] {
      forall e | e in events ensures !IsUpcoming(today, e) {
        assert multiset(u)[e] == 0;
      }
    } else {
      assert u[0] in multiset(u);
      forall e | e in events && IsUpcoming(today, e) ensures AtOrBefore(u[0].date, e.date) {
        assert e in multiset(u);
        var k :| 0 <= k < |u| && u[k] == e;
        if k > 0 {
          assert EarlierFirst(u[0], u[k]);
        } else {
          AtOrBeforeIsTotalOrder(e.date, e.date, e.date);
        }
      }
    }
  }

  /** The news page's events: the first four upcoming ones. */
  function NewsEvents(events: seq<Event>, today: DateTime): seq<Event> {
    Take(Upcoming(events, today), NewsCount)
  }

  /** At most four events, all upcoming events of the table, in date order,
      and fewer than four only when there are no more. */
  lemma NewsEventsAreTheEarliest(events: seq<Event>, today: DateTime)
    ensures var shown, upcoming := NewsEvents(events, today), Where(events, (e: Event) => IsUpcoming(today, e));
      && |shown| == (if |upcoming| < NewsCount then |upcoming| else NewsCount)
      && (forall i :: 0 <= i < |shown| ==> shown[i] in events && IsUpcoming(today, shown[i]))
      && (forall i, j :: 0 <= i < j < |shown| ==> AtOrBefore(shown[i].date, shown[j].date))
  {
    var u := Upcoming(events, today);
    var shown := NewsEvents(events, today);
    UpcomingIsSortedSelection(events, today);
    SortPermutes(Where(events, (e: Event) => IsUpcoming(today, e)), EarlierFirst);
    TakeOfSorted(u, EarlierFirst, NewsCount);
    assert |multiset(u)| == |u|;
    forall i | 0 <= i < |shown| ensures shown[i] in events && IsUpcoming(today, shown[i]) {
      assert u[i] in multiset(u);
    }
  }

  /** None of the upcoming events left off the news page precedes any that is
      shown, and shown and left-off events together are the upcoming ones. */
  lemma NewsEventsLeaveNoEarlier(events: seq<Event>, today: DateTime)
    ensures var shown, rest := NewsEvents(events, today), Skip(Upcoming(events, today), NewsCount);
      && (forall i, e :: 0 <= i < |shown| && e in rest ==> AtOrBefore(shown[i].date, e.date))
      && multiset(shown) + multiset(rest) == multiset(Where(events, (e: Event) => IsUpcoming(today, e)))
  {
    var u := Upcoming(events, today);
    UpcomingIsSortedSelection(events, today);
    SortPermutes(Where(events, (e: Event) => IsUpcoming(today, e)), EarlierFirst);
    TakeComesFirst(u, EarlierFirst, NewsCount);
  }

  /** `OrderByDescending(b => b.CreatedAt)`: `a` may come first when it is no older. */
  predicate NewerFirst(a: BlogPost, b: BlogPost) {
    AtOrBefore(b.createdAt, a.createdAt)
  }

  lemma NewerFirstIsPreorder()
    ensures TotalPreorder(NewerFirst)
  {
    forall a: BlogPost, b: BlogPost, c: BlogPost ensures
      && (NewerFirst(a, b) || NewerFirst(b, a))
      && (NewerFirst(a, b) && NewerFirst(b, c) ==> NewerFirst(a, c))
    {
      AtOrBeforeIsTotalOrder(c.createdAt, b.createdAt, a.createdAt);
    }
  }

  /** The news page's posts: the four most recent. */
  function RecentPosts(posts: seq<BlogPost>): seq<BlogPost> {
    Take(SortWith(posts, NewerFirst), NewsCount)
  }

  /** At most four posts of the table, newest first, fewer only when the table
      has fewer. */
  lemma RecentPostsAreTheNewest(posts: seq<BlogPost>)
    ensures var shown := RecentPosts(posts);
      && |shown| == (if |posts| < NewsCount then |posts| else NewsCount)
      && (forall i :: 0 <= i < |shown| ==> shown[i] in posts)
      && (forall i, j :: 0 <= i < j < |shown| ==> AtOrBefore(shown[j].createdAt, shown[i].createdAt))
  {
    var sorted := SortWith(posts, NewerFirst);
    var shown := RecentPosts(posts);
    SortPermutes(posts, NewerFirst);
    NewerFirstIsPreorder();
    SortSorted(posts, NewerFirst);
    TakeOfSorted(sorted, NewerFirst, NewsCount);
    assert |multiset(sorted)| == |sorted|;
    forall i | 0 <= i < |shown| ensures shown[i] in posts {
      assert sorted[i] in multiset(sorted);
    }
  }

  /** No post left off the news page is newer than any shown, and shown and
      left-off posts together are the whole table. */
  lemma RecentPostsLeaveNoNewer(posts: seq<BlogPost>)
    ensures var shown, rest := RecentPosts(posts), Skip(SortWith(posts, NewerFirst), NewsCount);
      && (forall i, p :: 0 <= i < |shown| && p in rest ==> AtOrBefore(p.createdAt, shown[i].createdAt))
      && multiset(shown) + multiset(rest) == multiset(posts)
  {
    SortPermutes(posts, NewerFirst);
    NewerFirstIsPreorder();
    SortSorted(posts, NewerFirst);
    TakeComesFirst(SortWith(posts, NewerFirst), NewerFirst, NewsCount);
  }

  class HomeController {
    const db: AppDb

    constructor (db: AppDb)
      ensures this.db == db
    {
      this.db := db;
    }

    /** GET Index: the home page with the next upcoming event, if any. */
    method Index(today: DateTime) returns (r: ActionResult, next: Option<Event>)
      ensures r == View && next == NextEvent(db.events, today)
    {
      next := NextEvent(db.events, today);
      r := View;
    }

    /** GET NewsEvents: the four next events and the four newest posts. */
    method NewsPage(today: DateTime) returns (r: ActionResult, events: seq<Event>, posts: seq<BlogPost>)
      ensures r == View
      ensures events == NewsEvents(db.events, today) && posts == RecentPosts(db.blogPosts)
    {
      events := NewsEvents(db.events, today);
      posts := RecentPosts(db.blogPosts);
      r := View;
    }
  }
}
