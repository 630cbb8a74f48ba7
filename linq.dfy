/** LINQ's `Where`, `OrderBy`, `OrderByDescending`, `Take` and `Skip` over
    in-memory sequences, which is what the controllers' queries compute. Both
    orderings are modelled as one stable sort, the order LINQ to Objects gives.
    The queries run as SQL `ORDER BY`, where the database leaves the order of
    rows with equal keys unspecified: the lemmas about what a page, the home
    page or the volunteer form shows state only what holds for any order of
    ties, while the functions that return the sorted rows, and the controller
    methods whose postconditions use them, fix the stable order, which the
    database does not guarantee. A key selector and a direction are given
    together as one comparator `before(a, b)`, "a may come before b". */
module Linq {

  /** `Where(p)`: the elements satisfying `p`, in their original order. */
  function Where<T>(s: seq<T>, p: T -> bool): (r: seq<T>)
    ensures |r| <= |s|
    ensures forall i :: 0 <= i < |r| ==> p(r[i])
  {
    if s == [] then [] else (if p(s[0]) then [s[0]] else []) + Where(s[1..], p)
  }

  /** `Where` keeps every occurrence of a satisfying element and drops every
      other element. */
  lemma {:induction false} WhereCount<T>(s: seq<T>, p: T -> bool, x: T)
    ensures multiset(Where(s, p))[x] == if p(x) then multiset(s)[x] else 0
  {
    if s != [] {
      WhereCount(s[1..], p, x);
      assert s == [s[0]] + s[1..];
    }
  }

  lemma WhereMembership<T>(s: seq<T>, p: T -> bool, x: T)
    ensures x in Where(s, p) <==> x in s && p(x)
  {
    WhereCount(s, p, x);
  }

  /** `Where` with a condition every element meets changes nothing. */
  lemma {:induction false} WhereAll<T>(s: seq<T>, p: T -> bool)
    requires forall i :: 0 <= i < |s| ==> p(s[i])
    ensures Where(s, p) == s
  {
    if s != [] {
      WhereAll(s[1..], p);
    }
  }

  /** `Where` with a condition only the element at `k` fails removes that
      element and closes the gap. */
  lemma {:induction false} WhereDropsOne<T>(s: seq<T>, p: T -> bool, k: int)
    requires 0 <= k < |s| && !p(s[k])
    requires forall i :: 0 <= i < |s| && i != k ==> p(s[i])
    ensures Where(s, p) == s[..k] + s[k + 1..]
  {
    var tail := s[1..];
    forall i | 0 <= i < |tail| && i != k - 1 ensures p(tail[i]) {
      assert tail[i] == s[i + 1];
    }
    if k == 0 {
      WhereAll(tail, p);
    } else {
      WhereDropsOne(tail, p, k - 1);
      assert s[..k] + s[k + 1..] == [s[0]] + (tail[..k - 1] + tail[k..]);
    }
  }

  /** `Where` over a concatenation filters each part. */
  lemma {:induction false} WhereAppend<T>(s: seq<T>, t: seq<T>, p: T -> bool)
    ensures Where(s + t, p) == Where(s, p) + Where(t, p)
  {
    if s != [] {
      assert (s + t)[0] == s[0];
      assert (s + t)[1..] == s[1..] + t;
      WhereAppend(s[1..], t, p);
    } else {
      assert s + t == t;
    }
  }

  /** `before` is total and transitive, as a comparison of keys is. */
  ghost predicate TotalPreorder<T(!new)>(before: (T, T) -> bool) {
    && (forall a, b :: before(a, b) || before(b, a))
    && (forall a, b, c :: before(a, b) && before(b, c) ==> before(a, c))
  }

  /** Every element may come before every later one. */
  predicate Sorted<T>(s: seq<T>, before: (T, T) -> bool) {
    forall i, j :: 0 <= i < j < |s| ==> before(s[i], s[j])
  }

  /** Places `x` in front of the first element it may come before. */
  function Insert<T>(x: T, s: seq<T>, before: (T, T) -> bool): seq<T> {
    if s == [] || before(x, s[0]) then [x] + s
    else [s[0]] + Insert(x, s[1..], before)
  }

  /** The stable sort: the head is inserted into the sorted tail, ahead of the
      elements that tie with it, which came after it in the input. */
  function SortWith<T>(s: seq<T>, before: (T, T) -> bool): seq<T> {
    if s == [] then [] else Insert(s[0], SortWith(s[1..], before), before)
  }

  lemma {:induction false} InsertPermutes<T>(x: T, s: seq<T>, before: (T, T) -> bool)
    ensures multiset(Insert(x, s, before)) == multiset(s) + multiset{x}
  {
    if s != [] && !before(x, s[0]) {
      InsertPermutes(x, s[1..], before);
      assert s == [s[0]] + s[1..];
    }
  }

  lemma {:induction false} InsertSorted<T(!new)>(x: T, s: seq<T>, before: (T, T) -> bool)
    requires TotalPreorder(before)
    requires Sorted(s, before)
    ensures Sorted(Insert(x, s, before), before)
  {
    if s != [] && !before(x, s[0]) {
      var tail := Insert(x, s[1..], before);
      InsertSorted(x, s[1..], before);
      InsertPermutes(x, s[1..], before);
      forall j | 0 <= j < |tail| ensures before(s[0], tail[j]) {
        assert tail[j] in multiset(tail);
        if tail[j] != x {
          assert tail[j] in multiset(s[1..]);
          var k :| 0 <= k < |s[1..]| && s[1..][k] == tail[j];
          assert s[k + 1] == tail[j];
        }
      }
    }
  }

  /** The result of `SortWith` holds exactly the input's elements. */
  lemma {:induction false} SortPermutes<T>(s: seq<T>, before: (T, T) -> bool)
    ensures multiset(SortWith(s, before)) == multiset(s)
  {
    if s != [] {
      SortPermutes(s[1..], before);
      InsertPermutes(s[0], SortWith(s[1..], before), before);
      assert s == [s[0]] + s[1..];
    }
  }

  /** The result of `SortWith` is in order. */
  lemma {:induction false} SortSorted<T(!new)>(s: seq<T>, before: (T, T) -> bool)
    requires TotalPreorder(before)
    ensures Sorted(SortWith(s, before), before)
  {
    if s != [] {
      SortSorted(s[1..], before);
      InsertSorted(s[0], SortWith(s[1..], before), before);
    }
  }

  /** No element occurs twice. */
  ghost predicate Distinct<T>(s: seq<T>) {
    forall i, j :: 0 <= i < j < |s| ==> s[i] != s[j]
  }

  lemma {:induction false} InsertKeepsDistinct<T>(x: T, s: seq<T>, before: (T, T) -> bool)
    requires Distinct(s) && x !in s
    ensures Distinct(Insert(x, s, before))
  {
    if s != [] && !before(x, s[0]) {
      var tail := Insert(x, s[1..], before);
      assert x !in s[1..];
      assert Distinct(s[1..]) by {
        forall i, j | 0 <= i < j < |s[1..]| ensures s[1..][i] != s[1..][j] {
          assert s[1..][i] == s[i + 1] && s[1..][j] == s[j + 1];
        }
      }
      InsertKeepsDistinct(x, s[1..], before);
      InsertPermutes(x, s[1..], before);
      assert s[0] !in tail by {
        forall k | 0 <= k < |s[1..]| ensures s[1..][k] != s[0] {
          assert s[1..][k] == s[k + 1];
        }
        assert s[0] !in multiset(s[1..]) + multiset{x};
      }
      var r := [s[0]] + tail;
      forall i, j | 0 <= i < j < |r| ensures r[i] != r[j] {
        if i == 0 {
          assert r[j] == tail[j - 1];
        } else {
          assert r[i] == tail[i - 1] && r[j] == tail[j - 1];
        }
      }
    }
  }

  /** Sorting a sequence of distinct elements gives distinct elements. */
  lemma {:induction false} SortKeepsDistinct<T>(s: seq<T>, before: (T, T) -> bool)
    requires Distinct(s)
    ensures Distinct(SortWith(s, before))
  {
    if s != [] {
      assert Distinct(s[1..]) by {
        forall i, j | 0 <= i < j < |s[1..]| ensures s[1..][i] != s[1..][j] {
          assert s[1..][i] == s[i + 1] && s[1..][j] == s[j + 1];
        }
      }
      SortKeepsDistinct(s[1..], before);
      SortPermutes(s[1..], before);
      assert s[0] !in s[1..] by {
        forall k | 0 <= k < |s[1..]| ensures s[1..][k] != s[0] {
          assert s[1..][k] == s[k + 1];
        }
      }
      assert s[0] !in multiset(SortWith(s[1..], before));
      InsertKeepsDistinct(s[0], SortWith(s[1..], before), before);
    }
  }

  /** `Take(n)`: the first `n` elements, or all of them when there are fewer. */
  function Take<T>(s: seq<T>, n: int): (r: seq<T>)
    ensures |r| == if n <= 0 then 0 else if n < |s| then n else |s|
    ensures r <= s
  {
    if n <= 0 then [] else if n < |s| then s[..n] else s
  }

  /** `Skip(start)` then `Take(size)` is the slice of `s` from `start` of
      length `size`, cut short at the end of `s`. */
  lemma SkipTakeSlice<T>(s: seq<T>, start: int, size: int)
    requires start >= 0 && size >= 0
    ensures var r := Take(Skip(s, start), size);
      && |r| == (if |s| <= start then 0 else if |s| - start < size then |s| - start else size)
      && forall k :: 0 <= k < |r| ==> start + k < |s| && r[k] == s[start + k]
  {
    if start < |s| {
      assert Skip(s, start) == s[start..];
    }
  }

  /** In a sorted sequence, what `Take(n)` keeps may come before everything
      `Skip(n)` leaves, and the two together hold the whole sequence. */
  lemma TakeComesFirst<T>(s: seq<T>, before: (T, T) -> bool, n: int)
    requires Sorted(s, before)
    ensures forall i, j :: 0 <= i < |Take(s, n)| && 0 <= j < |Skip(s, n)| ==> before(Take(s, n)[i], Skip(s, n)[j])
    ensures multiset(Take(s, n)) + multiset(Skip(s, n)) == multiset(s)
  {
    var t, r := Take(s, n), Skip(s, n);
    assert t + r == s;
    forall i, j | 0 <= i < |t| && 0 <= j < |r| ensures before(t[i], r[j]) {
      assert t[i] == s[i] && r[j] == s[|t| + j];
    }
  }

  /** What `Take(n)` keeps of a sorted sequence is sorted and comes from it. */
  lemma TakeOfSorted<T>(s: seq<T>, before: (T, T) -> bool, n: int)
    requires Sorted(s, before)
    ensures Sorted(Take(s, n), before)
    ensures forall i :: 0 <= i < |Take(s, n)| ==> Take(s, n)[i] == s[i]
  {
  }

  /** `Skip(n)`: everything after the first `n` elements. */
  function Skip<T>(s: seq<T>, n: int): (r: seq<T>)
    ensures Take(s, n) + r == s
  {
    if n <= 0 then s else if n < |s| then s[n..] else []
  }
}
