/** The administrators' dashboard: the current year's donations grouped by
    month, with each month's total, in calendar order. Months are kept as their
    numbers 1 to 12; their abbreviated names are presentation. */
module Dashboard {
  import opened Calendar
  import opened Linq
  import opened Mvc
  import opened DonationModel
  import opened Data

  /** A `MonthlyDonationViewModel`, with the month as its number. */
  datatype MonthlyTotal = MonthlyTotal(month: int, total: real)

  /** `Sum(d => d.Amount)`. */
  function Sum(ds: seq<Donation>): real {
    if ds == [] then 0.0 else ds[0].amount + Sum(ds[1..])
  }

  lemma {:induction false} SumAppend(a: seq<Donation>, b: seq<Donation>)
    ensures Sum(a + b) == Sum(a) + Sum(b)
  {
    if a != [] {
      assert (a + b)[0] == a[0];
      assert (a + b)[1..] == a[1..] + b;
      SumAppend(a[1..], b);
    } else {
      assert a + b == b;
    }
  }

  predicate InMonth(d: Donation, month: int) {
    d.donationDate.month == month
  }

  /** `Where(d => d.DonationDate.Year == year)`. */
  function OfYear(ds: seq<Donation>, year: int): seq<Donation> {
    Where(ds, (d: Donation) => d.donationDate.year == year)
  }

  function OfMonth(ds: seq<Donation>, month: int): seq<Donation> {
    Where(ds, (d: Donation) => InMonth(d, month))
  }

  function NotOfMonth(ds: seq<Donation>, month: int): seq<Donation> {
    Where(ds, (d: Donation) => !InMonth(d, month))
  }

  /** A month's donations and the rest together make up the whole sum. */
  lemma {:induction false} SumSplitsByMonth(ds: seq<Donation>, month: int)
    ensures Sum(ds) == Sum(OfMonth(ds, month)) + Sum(NotOfMonth(ds, month))
  {
    if ds != [] {
      SumSplitsByMonth(ds[1..], month);
      var head := if InMonth(ds[0], month) then [ds[0]] else [];
      var headNot := if InMonth(ds[0], month) then [] else [ds[0]];
      assert OfMonth(ds, month) == head + OfMonth(ds[1..], month);
      assert NotOfMonth(ds, month) == headNot + NotOfMonth(ds[1..], month);
      SumAppend(head, OfMonth(ds[1..], month));
      SumAppend(headNot, NotOfMonth(ds[1..], month));
    }
  }

  /** `GroupBy(d => d.DonationDate.Month).Select(g => (g.Key, g.Sum(d => d.Amount)))`:
      one entry per month, in the order the months first appear. */
  function Groups(ds: seq<Donation>): seq<MonthlyTotal>
    decreases |ds|
  {
    if ds == [] then []
    else
      var m := ds[0].donationDate.month;
      [MonthlyTotal(m, Sum(OfMonth(ds, m)))] + Groups(NotOfMonth(ds[1..], m))
  }

  function Months(gs: seq<MonthlyTotal>): seq<int> {
    if gs == [] then [] else [gs[0].month] + Months(gs[1..])
  }

  function Totals(gs: seq<MonthlyTotal>): real {
    if gs == [] then 0.0 else gs[0].total + Totals(gs[1..])
  }

  /** Dropping the donations of other months does not change one month's
      donations. */
  lemma OfMonthAfterRemoving(ds: seq<Donation>, removed: int, month: int)
    requires removed != month
    ensures OfMonth(NotOfMonth(ds, removed), month) == OfMonth(ds, month)
  {
    WhereOfWhere(ds, (d: Donation) => !InMonth(d, removed), (d: Donation) => InMonth(d, month));
  }

  /** Filtering by a condition that implies a first filter's condition makes
      the first filter redundant. */
  lemma {:induction false} WhereOfWhere(ds: seq<Donation>, p: Donation -> bool, q: Donation -> bool)
    requires forall d :: q(d) ==> p(d)
    ensures Where(Where(ds, p), q) == Where(ds, q)
  {
    if ds != [] {
      WhereOfWhere(ds[1..], p, q);
      var head := if p(ds[0]) then [ds[0]] else [];
      assert Where(ds, p) == head + Where(ds[1..], p);
      WhereAppend(head, Where(ds[1..], p), q);
      if p(ds[0]) {
        assert head[1..] == [];
      }
    }
  }

  /** The groups have one entry per month that has a donation and none for
      any other month. */
  lemma {:induction false} GroupsCoverTheMonths(ds: seq<Donation>)
    ensures forall m :: m in Months(Groups(ds)) <==> exists d :: d in ds && InMonth(d, m)
    decreases |ds|
  {
    if ds != [] {
      var m := ds[0].donationDate.month;
      var rest := NotOfMonth(ds[1..], m);
      GroupsCoverTheMonths(rest);
      assert Months(Groups(ds)) == [m] + Months(Groups(rest));
      forall k ensures k in Months(Groups(ds)) <==> exists d :: d in ds && InMonth(d, k) {
        if k != m {
          if exists d :: d in ds && InMonth(d, k) {
            var d :| d in ds && InMonth(d, k);
            assert d in ds[1..];
            WhereMembership(ds[1..], (x: Donation) => !InMonth(x, m), d);
          }
          if exists d :: d in rest && InMonth(d, k) {
            var d :| d in rest && InMonth(d, k);
            WhereMembership(ds[1..], (x: Donation) => !InMonth(x, m), d);
          }
        } else {
          assert ds[0] in ds;
        }
      }
    }
  }

  /** No month has two groups. */
  lemma {:induction false} GroupsHaveDistinctMonths(ds: seq<Donation>)
    ensures forall i, j :: 0 <= i < j < |Groups(ds)| ==> Groups(ds)[i].month != Groups(ds)[j].month
    decreases |ds|
  {
    if ds != [] {
      var m := ds[0].donationDate.month;
      var rest := NotOfMonth(ds[1..], m);
      var gs := Groups(ds);
      GroupsHaveDistinctMonths(rest);
      GroupsCoverTheMonths(rest);
      assert gs == [MonthlyTotal(m, Sum(OfMonth(ds, m)))] + Groups(rest);
      forall i | 0 < i < |gs| ensures gs[i].month != m {
        assert gs[i] == Groups(rest)[i - 1];
        MonthAt(Groups(rest), i - 1);
        var d :| d in rest && InMonth(d, gs[i].month);
        WhereMembership(ds[1..], (x: Donation) => !InMonth(x, m), d);
      }
      forall i, j | 0 <= i < j < |gs| ensures gs[i].month != gs[j].month {
        if i > 0 {
          assert gs[i] == Groups(rest)[i - 1] && gs[j] == Groups(rest)[j - 1];
        }
      }
    }
  }

  /** Each group's total is the sum of its month's donations. */
  lemma {:induction false} GroupsSumTheirMonths(ds: seq<Donation>)
    ensures forall i :: 0 <= i < |Groups(ds)| ==> Groups(ds)[i].total == Sum(OfMonth(ds, Groups(ds)[i].month))
    decreases |ds|
  {
    if ds != [] {
      var m := ds[0].donationDate.month;
      var rest := NotOfMonth(ds[1..], m);
      var gs := Groups(ds);
      GroupsSumTheirMonths(rest);
      GroupsHaveDistinctMonths(ds);
      assert gs == [MonthlyTotal(m, Sum(OfMonth(ds, m)))] + Groups(rest);
      forall i | 1 <= i < |gs| ensures gs[i].total == Sum(OfMonth(ds, gs[i].month)) {
        var k := gs[i].month;
        assert gs[i] == Groups(rest)[i - 1];
        assert k != m by {
          assert gs[0].month == m;
        }
        OfMonthAfterRemoving(ds[1..], m, k);
        assert OfMonth(ds, k) == OfMonth(ds[1..], k);
      }
    }
  }

  /** All the group totals together are the sum of all the donations. */
  lemma {:induction false} GroupsAddUp(ds: seq<Donation>)
    ensures Totals(Groups(ds)) == Sum(ds)
    decreases |ds|
  {
    if ds != [] {
      var m := ds[0].donationDate.month;
      var rest := NotOfMonth(ds[1..], m);
      GroupsAddUp(rest);
      assert NotOfMonth(ds, m) == rest;
      SumSplitsByMonth(ds, m);
    }
  }

  lemma {:induction false} MonthsLength(gs: seq<MonthlyTotal>)
    ensures |Months(gs)| == |gs|
    ensures forall i :: 0 <= i < |gs| ==> Months(gs)[i] == gs[i].month
  {
    if gs != [] {
      MonthsLength(gs[1..]);
    }
  }

  lemma MonthAt(gs: seq<MonthlyTotal>, i: int)
    requires 0 <= i < |gs|
    ensures gs[i].month in Months(gs)
  {
    MonthsLength(gs);
  }

  /** `OrderBy(m => m.Month)`. */
  predicate MonthOrder(a: MonthlyTotal, b: MonthlyTotal) {
    a.month <= b.month
  }

  lemma MonthOrderIsPreorder()
    ensures TotalPreorder(MonthOrder)
  {
  }

  /** The dashboard's figures for `year`: that year's donations grouped by
      month, ordered by month. */
  function MonthlyTotals(ds: seq<Donation>, year: int): seq<MonthlyTotal> {
    SortWith(Groups(OfYear(ds, year)), MonthOrder)
  }

  lemma {:induction false} TotalsOfInsert(x: MonthlyTotal, gs: seq<MonthlyTotal>)
    ensures Totals(Insert(x, gs, MonthOrder)) == x.total + Totals(gs)
  {
    if gs != [] && !MonthOrder(x, gs[0]) {
      TotalsOfInsert(x, gs[1..]);
    }
  }

  /** Reordering the entries does not change their grand total. */
  lemma {:induction false} TotalsOfSort(gs: seq<MonthlyTotal>)
    ensures Totals(SortWith(gs, MonthOrder)) == Totals(gs)
  {
    if gs != [] {
      TotalsOfSort(gs[1..]);
      TotalsOfInsert(gs[0], SortWith(gs[1..], MonthOrder));
    }
  }

  /** Strictly ascending months between `low` and 12 number at most 13 - `low`. */
  lemma {:induction false} AscendingMonthsAreFew(gs: seq<MonthlyTotal>, low: int)
    requires forall i :: 0 <= i < |gs| ==> low <= gs[i].month <= 12
    requires forall i, j :: 0 <= i < j < |gs| ==> gs[i].month < gs[j].month
    ensures |gs| <= 13 - low || gs == []
  {
    if |gs| > 1 {
      var rest := gs[1..];
      forall i | 0 <= i < |rest| ensures low + 1 <= rest[i].month <= 12 {
        assert rest[i] == gs[i + 1];
        assert gs[0].month < gs[i + 1].month;
      }
      forall i, j | 0 <= i < j < |rest| ensures rest[i].month < rest[j].month {
        assert rest[i] == gs[i + 1] && rest[j] == gs[j + 1];
      }
      AscendingMonthsAreFew(rest, low + 1);
    }
  }

  /** Two arrangements of the same entries list the same months. */
  lemma MonthsOfPermutation(a: seq<MonthlyTotal>, b: seq<MonthlyTotal>, m: int)
    requires multiset(a) == multiset(b)
    ensures m in Months(a) <==> m in Months(b)
  {
    MonthsLength(a);
    MonthsLength(b);
    if m in Months(a) {
      var k :| 0 <= k < |a| && Months(a)[k] == m;
      assert a[k] in multiset(b);
      var i :| 0 <= i < |b| && b[i] == a[k];
      assert Months(b)[i] == m;
    }
    if m in Months(b) {
      var k :| 0 <= k < |b| && Months(b)[k] == m;
      assert b[k] in multiset(a);
      var i :| 0 <= i < |a| && a[i] == b[k];
      assert Months(a)[i] == m;
    }
  }

  /** The dashboard has an entry for a month exactly when some donation of
      `year` falls in it. */
  lemma MonthlyTotalsCoverTheMonths(ds: seq<Donation>, year: int, m: int)
    ensures m in Months(MonthlyTotals(ds, year)) <==>
      exists d :: d in ds && d.donationDate.year == year && InMonth(d, m)
  {
    var yearly := OfYear(ds, year);
    var gs := Groups(yearly);
    GroupsCoverTheMonths(yearly);
    SortPermutes(gs, MonthOrder);
    MonthsOfPermutation(MonthlyTotals(ds, year), gs, m);
    if m in Months(gs) {
      var d :| d in yearly && InMonth(d, m);
      WhereMembership(ds, (x: Donation) => x.donationDate.year == year, d);
    }
    if exists d :: d in ds && d.donationDate.year == year && InMonth(d, m) {
      var d :| d in ds && d.donationDate.year == year && InMonth(d, m);
      WhereMembership(ds, (x: Donation) => x.donationDate.year == year, d);
    }
  }

  /** Each entry's total is the sum of the amounts of that month's donations
      in `year`. */
  lemma MonthlyTotalsAreMonthSums(ds: seq<Donation>, year: int)
    ensures var r := MonthlyTotals(ds, year);
      forall i :: 0 <= i < |r| ==> r[i].total == Sum(OfMonth(OfYear(ds, year), r[i].month))
  {
    var gs := Groups(OfYear(ds, year));
    var r := MonthlyTotals(ds, year);
    GroupsSumTheirMonths(OfYear(ds, year));
    SortPermutes(gs, MonthOrder);
    forall i | 0 <= i < |r| ensures r[i].total == Sum(OfMonth(OfYear(ds, year), r[i].month)) {
      assert r[i] in multiset(gs);
    }
  }

  /** Sorting entries with distinct months between 1 and 12 gives strictly
      ascending months, at most twelve of them. */
  lemma SortedMonthsAscend(gs: seq<MonthlyTotal>)
    requires forall i :: 0 <= i < |gs| ==> 1 <= gs[i].month <= 12
    requires forall i, j :: 0 <= i < j < |gs| ==> gs[i].month != gs[j].month
    ensures var r := SortWith(gs, MonthOrder);
      (forall i, j :: 0 <= i < j < |r| ==> r[i].month < r[j].month) && |r| <= 12
  {
    var r := SortWith(gs, MonthOrder);
    SortPermutes(gs, MonthOrder);
    MonthOrderIsPreorder();
    SortSorted(gs, MonthOrder);
    SortKeepsDistinct(gs, MonthOrder);
    forall i, j | 0 <= i < j < |r| ensures r[i].month < r[j].month {
      assert r[i] in multiset(gs) && r[j] in multiset(gs);
      var i' :| 0 <= i' < |gs| && gs[i'] == r[i];
      var j' :| 0 <= j' < |gs| && gs[j'] == r[j];
      assert MonthOrder(r[i], r[j]);
      if i' < j' {
        assert gs[i'].month != gs[j'].month;
      } else {
        assert gs[j'].month != gs[i'].month;
      }
    }
    forall i | 0 <= i < |r| ensures 1 <= r[i].month <= 12 {
      assert r[i] in multiset(gs);
    }
    AscendingMonthsAreFew(r, 1);
  }

  /** The months ascend strictly, so there are at most twelve entries. */
  lemma MonthlyTotalsAscend(ds: seq<Donation>, year: int)
    ensures var r := MonthlyTotals(ds, year);
      (forall i, j :: 0 <= i < j < |r| ==> r[i].month < r[j].month) && |r| <= 12
  {
    var yearly := OfYear(ds, year);
    var gs := Groups(yearly);
    GroupsCoverTheMonths(yearly);
    GroupsHaveDistinctMonths(yearly);
    MonthsLength(gs);
    forall i | 0 <= i < |gs| ensures 1 <= gs[i].month <= 12 {
      assert Months(gs)[i] == gs[i].month;
      assert gs[i].month in Months(gs);
      var d :| d in yearly && InMonth(d, gs[i].month);
    }
    SortedMonthsAscend(gs);
  }

  /** The entries' totals add up to the sum of all donations in `year`. */
  lemma MonthlyTotalsAddUp(ds: seq<Donation>, year: int)
    ensures Totals(MonthlyTotals(ds, year)) == Sum(OfYear(ds, year))
  {
    GroupsAddUp(OfYear(ds, year));
    TotalsOfSort(Groups(OfYear(ds, year)));
  }

  class DashboardController {
    const db: AppDb

    constructor (db: AppDb)
      ensures this.db == db
    {
      this.db := db;
    }

    /** GET Index: the monthly totals of the year `DateTime.UtcNow` falls in. */
    method Index(utcNow: DateTime) returns (r: ActionResult, totals: seq<MonthlyTotal>)
      ensures r == View && totals == MonthlyTotals(db.donations, utcNow.year)
    {
      totals := MonthlyTotals(db.donations, utcNow.year);
      r := View;
    }
  }
}
