/**
 The daily statistics as a table, and what it means to list its latest days.  A date is
 a day number: zero-padded ISO dates compare as strings exactly as their day numbers do.
 */
module DailyTable {
  import opened Classify

  type Day = int

  datatype DailyMarket = DailyMarket(date: Day, counts: Counts)

  type Table = map<Day, Counts>

  ghost predicate Ascending(s: seq<DailyMarket>) {
    forall i, j :: 0 <= i < j < |s| ==> s[i].date < s[j].date
  }

  function Dates(s: seq<DailyMarket>): set<Day> {
    set m <- s :: m.date
  }

  /** Date-ordered rows of the table, as many as fit in n, with nothing newer left out. */
  ghost predicate IsLatest(l: seq<DailyMarket>, t: Table, n: nat) {
    && Ascending(l)
    && |l| == (if n <= |t| then n else |t|)
    && (forall i :: 0 <= i < |l| ==> l[i].date in t && l[i].counts == t[l[i].date])
    && (forall d, i :: d in t && d !in Dates(l) && 0 <= i < |l| ==> d < l[i].date)
  }

  /** The last k elements, or everything when there are fewer. */
  function Last<T>(s: seq<T>, k: nat): seq<T> {
    if |s| > k then s[|s| - k..] else s
  }

  lemma DatesExtended(s: seq<DailyMarket>, x: DailyMarket)
    ensures Dates(s + [x]) == Dates(s) + {x.date}
  {
    assert (s + [x])[|s|] == x;
    assert forall m <- s :: m in s + [x];
    assert forall m <- s + [x] :: m in s || m == x;
  }

  lemma {:induction false} CountDates(s: seq<DailyMarket>)
    requires Ascending(s)
    ensures |Dates(s)| == |s|
  {
    if s != [] {
      var front := s[..|s| - 1];
      CountDates(front);
      assert s == front + [s[|s| - 1]];
      DatesExtended(front, s[|s| - 1]);
    }
  }

  lemma SubsetSize<T>(a: set<T>, b: set<T>)
    requires a <= b
    ensures |a| <= |b|
    ensures |a| == |b| ==> a == b
  {
    assert b == a + (b - a);
  }

  /** A listing shorter than its limit lists every day. */
  lemma ShortListIsAll(l: seq<DailyMarket>, t: Table, n: nat)
    requires IsLatest(l, t, n) && |t| <= n
    ensures Dates(l) == t.Keys
  {
    CountDates(l);
    SubsetSize(Dates(l), t.Keys);
  }

  /** Nothing in the table is later than the last listed day. */
  lemma LastIsNewest(l: seq<DailyMarket>, t: Table, n: nat)
    requires IsLatest(l, t, n) && l != []
    ensures forall d <- t :: d <= l[|l| - 1].date
  {
  }

  lemma SuffixCovers(l: seq<DailyMarket>, t: Table, n: nat, skip: nat, d: Day)
    requires IsLatest(l, t, n) && skip < |l| && d in t && d !in Dates(l[skip..])
    ensures d < l[skip].date
  {
    assert forall j :: skip <= j < |l| ==> l[j] == l[skip..][j - skip] && l[j] in l[skip..];
    if d in Dates(l) {
      var j :| 0 <= j < |l| && l[j].date == d;
      assert j < skip;
    }
  }

  lemma SuffixIsLatest(l: seq<DailyMarket>, t: Table, n: nat, k: nat)
    requires IsLatest(l, t, n) && k <= n
    ensures IsLatest(Last(l, k), t, k)
  {
    if k > 0 && |l| > k {
      var skip := |l| - k;
      var s := l[skip..];
      forall d, i | d in t && d !in Dates(s) && 0 <= i < |s|
        ensures d < s[i].date
      {
        SuffixCovers(l, t, n, skip, d);
        assert l[skip].date <= l[skip + i].date;
      }
    }
  }

  lemma NotLater(a: seq<DailyMarket>, b: seq<DailyMarket>, t: Table, n: nat, p: nat)
    requires IsLatest(a, t, n) && IsLatest(b, t, n) && p < |a| && a[p + 1..] == b[p + 1..]
    ensures a[p].date <= b[p].date
  {
    forall q | p < q < |b| ensures b[q] == a[q] {
      assert b[q] == b[p + 1..][q - p - 1] == a[p + 1..][q - p - 1];
    }
    if a[p].date in Dates(b) {
      var q :| 0 <= q < |b| && b[q].date == a[p].date;
      assert q <= p;
    }
  }

  lemma {:induction false} SameFrom(a: seq<DailyMarket>, b: seq<DailyMarket>, t: Table, n: nat, p: nat)
    requires IsLatest(a, t, n) && IsLatest(b, t, n) && p <= |a|
    ensures a[p..] == b[p..]
    decreases |a| - p
  {
    if p < |a| {
      SameFrom(a, b, t, n, p + 1);
      NotLater(a, b, t, n, p);
      NotLater(b, a, t, n, p);
      assert a[p] == b[p];
      assert a[p..] == [a[p]] + a[p + 1..] && b[p..] == [b[p]] + b[p + 1..];
    }
  }

  /** There is one list of the n latest days: any two stores that answer with one agree. */
  lemma LatestIsUnique(a: seq<DailyMarket>, b: seq<DailyMarket>, t: Table, n: nat)
    requires IsLatest(a, t, n) && IsLatest(b, t, n)
    ensures a == b
  {
    SameFrom(a, b, t, n, 0);
  }

  lemma AscendingGap(s: seq<DailyMarket>, i: nat, j: nat)
    requires Ascending(s) && i <= j < |s|
    ensures s[j].date - s[i].date >= j - i
    decreases j
  {
    if i < j {
      AscendingGap(s, i, j - 1);
    }
  }
}
