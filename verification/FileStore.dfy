/**
 The file store: a list of records, edited in place, insertion-sorted and trimmed to the
 30 latest days.  Reading and writing the file is assumed to succeed.
 */
module FileHistory {
  import opened Classify
  import opened DailyTable

  const MAX_HISTORY_DAYS: nat := 30

  /** Position of the first record of a date, or the length of the list. */
  function IndexOf(s: seq<DailyMarket>, d: Day): (i: nat)
    ensures i <= |s|
    ensures i < |s| ==> s[i].date == d
  {
    if s == [] then 0
    else
      var last := |s| - 1;
      var i := IndexOf(s[..last], d);
      if i < last then i else if s[last].date == d then last else |s|
  }

  function SetOrAppend(s: seq<DailyMarket>, r: DailyMarket): seq<DailyMarket> {
    var i := IndexOf(s, r.date);
    if i < |s| then s[i := r] else s + [r]
  }

  function InsertByDate(s: seq<DailyMarket>, r: DailyMarket): (t: seq<DailyMarket>)
    ensures |t| == |s| + 1
  {
    if s == [] || s[|s| - 1].date <= r.date then s + [r]
    else InsertByDate(s[..|s| - 1], r) + [s[|s| - 1]]
  }

  function SortByDate(s: seq<DailyMarket>): (t: seq<DailyMarket>)
    ensures |t| == |s|
  {
    if s == [] then [] else InsertByDate(SortByDate(s[..|s| - 1]), s[|s| - 1])
  }

  function UpsertedToday(s: seq<DailyMarket>, r: DailyMarket): seq<DailyMarket> {
    Last(SetOrAppend(s, r), MAX_HISTORY_DAYS)
  }

  function UpsertedDay(s: seq<DailyMarket>, r: DailyMarket): seq<DailyMarket> {
    Last(SortByDate(SetOrAppend(s, r)), MAX_HISTORY_DAYS)
  }

  function Window(dates: set<Day>, from: Day, to: Day): set<Day> {
    set d <- dates | from <= d <= to
  }

  class FileStore {
    var records: seq<DailyMarket>

    constructor (records: seq<DailyMarket>)
      ensures this.records == records
    {
      this.records := records;
    }

    method SetRecord(r: DailyMarket)
      modifies this
      ensures records == SetOrAppend(old(records), r)
    {
      var found := false;
      for i := 0 to |records|
        invariant !found ==> records == old(records) && IndexOf(records[..i], r.date) == i
        invariant found ==> records == SetOrAppend(old(records), r)
      {
        assert records[..i + 1][..i] == records[..i];
        if records[i].date == r.date {
          IndexOfPrefix(records, i + 1, r.date);
          records := records[i := r];
          found := true;
          break;
        }
      }
      if !found {
        assert records[..|records|] == records;
        records := records + [r];
      }
    }

    method UpsertToday(today: Day, day: Counts)
      modifies this
      ensures records == UpsertedToday(old(records), DailyMarket(today, day))
    {
      SetRecord(DailyMarket(today, day));
      if |records| > MAX_HISTORY_DAYS {
        records := records[|records| - MAX_HISTORY_DAYS..];
      }
    }

    method UpsertDay(date: Day, day: Counts)
      modifies this
      ensures records == UpsertedDay(old(records), DailyMarket(date, day))
    {
      SetRecord(DailyMarket(date, day));
      var s := records;
      for i := 0 to |s|
        invariant SortedUpTo(records, s, i)
      {
        ghost var before := records;
        SiftDown(i);
        SortStep(before, records, s, i);
      }
      SortedAll(records, s);
      if |records| > MAX_HISTORY_DAYS {
        records := records[|records| - MAX_HISTORY_DAYS..];
      }
    }

    /** The inner loop of the insertion sort: swap record i down past every later date. */
    method SiftDown(i: nat)
      requires i < |records|
      modifies this
      ensures |records| == |old(records)|
      ensures records[..i + 1] == InsertByDate(old(records)[..i], old(records)[i])
      ensures forall k :: i < k < |records| ==> records[k] == old(records)[k]
    {
      var j := i;
      ghost var p, x, rest := records[..i], records[i], records[i + 1..];
      SiftStart(records, i);
      SiftedAt(p, x, rest, j);
      while j > 0 && records[j].date < records[j - 1].date
        invariant 0 <= j <= i && Sifting(records, p, x, rest, j)
        invariant records[j] == x && (j > 0 ==> records[j - 1] == p[j - 1])
      {
        SiftStep(p, x, rest, j);
        records := records[j := records[j - 1]][j - 1 := records[j]];
        j := j - 1;
        SiftedAt(p, x, rest, j);
      }
      SiftEnd(p, x, rest, j);
    }

    method LastDays(days: nat) returns (out: seq<DailyMarket>)
      ensures out == Last(records, days)
    {
      out := records;
      if |out| > days {
        out := out[|out| - days..];
      }
    }

    method ExistingDays(from: Day, to: Day) returns (out: set<Day>)
      ensures out == Window(Dates(records), from, to) == set r <- records | from <= r.date <= to :: r.date
    {
      out := {};
      for i := 0 to |records|
        invariant out == Window(Dates(records[..i]), from, to)
      {
        var r := records[i];
        assert records[..i + 1] == records[..i] + [r];
        DatesExtended(records[..i], r);
        if r.date >= from && r.date <= to {
          out := out + {r.date};
        }
      }
      assert records[..|records|] == records;
      WindowOfRecords(records, from, to);
    }
  }

  lemma WindowOfRecords(s: seq<DailyMarket>, from: Day, to: Day)
    ensures Window(Dates(s), from, to) == set r <- s | from <= r.date <= to :: r.date
  {
  }

  /** The first i records of s are sorted, the others untouched. */
  ghost predicate SortedUpTo(t: seq<DailyMarket>, s: seq<DailyMarket>, i: nat) {
    i <= |s| == |t| && t[..i] == SortByDate(s[..i]) && forall k :: i <= k < |s| ==> t[k] == s[k]
  }

  lemma SortStep(before: seq<DailyMarket>, after: seq<DailyMarket>, s: seq<DailyMarket>, i: nat)
    requires i < |s| == |after| && SortedUpTo(before, s, i)
    requires after[..i + 1] == InsertByDate(before[..i], before[i])
    requires forall k :: i < k < |s| ==> after[k] == before[k]
    ensures SortedUpTo(after, s, i + 1)
  {
    assert s[..i + 1][..i] == s[..i];
  }

  lemma SortedAll(t: seq<DailyMarket>, s: seq<DailyMarket>)
    requires SortedUpTo(t, s, |s|)
    ensures t == SortByDate(s)
  {
    assert t == t[..|s|] && s == s[..|s|];
  }

  /** x on its way down from the end of p to its place; the other records keep their order. */
  function Sifted(p: seq<DailyMarket>, x: DailyMarket, rest: seq<DailyMarket>, j: nat): seq<DailyMarket>
    requires j <= |p|
  {
    p[..j] + [x] + p[j..] + rest
  }

  ghost predicate Sifting(s: seq<DailyMarket>, p: seq<DailyMarket>, x: DailyMarket, rest: seq<DailyMarket>, j: nat) {
    j <= |p| && s == Sifted(p, x, rest, j) && InsertByDate(p, x) == InsertByDate(p[..j], x) + p[j..]
  }

  lemma SiftStart(s: seq<DailyMarket>, i: nat)
    requires i < |s|
    ensures Sifting(s, s[..i], s[i], s[i + 1..], i)
  {
    assert s[..i][..i] == s[..i];
    assert s[..i][i..] == [];
  }

  lemma SiftedAt(p: seq<DailyMarket>, x: DailyMarket, rest: seq<DailyMarket>, j: nat)
    requires j <= |p|
    ensures |Sifted(p, x, rest, j)| == |p| + 1 + |rest| && Sifted(p, x, rest, j)[j] == x
    ensures j > 0 ==> Sifted(p, x, rest, j)[j - 1] == p[j - 1]
  {
  }

  lemma InsertBefore(p: seq<DailyMarket>, x: DailyMarket, j: nat)
    requires 0 < j <= |p| && x.date < p[j - 1].date
    ensures InsertByDate(p[..j], x) + p[j..] == InsertByDate(p[..j - 1], x) + p[j - 1..]
  {
    assert p[..j][..j - 1] == p[..j - 1];
    assert [p[j - 1]] + p[j..] == p[j - 1..];
    assert (InsertByDate(p[..j - 1], x) + [p[j - 1]]) + p[j..] == InsertByDate(p[..j - 1], x) + ([p[j - 1]] + p[j..]);
  }

  lemma SwapDown(p: seq<DailyMarket>, x: DailyMarket, rest: seq<DailyMarket>, j: nat)
    requires 0 < j <= |p|
    ensures var s := Sifted(p, x, rest, j);
            j < |s| && s[j := s[j - 1]][j - 1 := s[j]] == Sifted(p, x, rest, j - 1)
  {
  }

  lemma SiftStep(p: seq<DailyMarket>, x: DailyMarket, rest: seq<DailyMarket>, j: nat)
    requires 0 < j <= |p| && x.date < p[j - 1].date && Sifting(Sifted(p, x, rest, j), p, x, rest, j)
    ensures var s := Sifted(p, x, rest, j);
            j < |s| && Sifting(s[j := s[j - 1]][j - 1 := s[j]], p, x, rest, j - 1)
  {
    SwapDown(p, x, rest, j);
    InsertBefore(p, x, j);
  }

  lemma SiftEnd(p: seq<DailyMarket>, x: DailyMarket, rest: seq<DailyMarket>, j: nat)
    requires j <= |p| && Sifting(Sifted(p, x, rest, j), p, x, rest, j) && (j > 0 ==> p[j - 1].date <= x.date)
    ensures var s := Sifted(p, x, rest, j);
            && |s| == |p| + 1 + |rest|
            && s[..|p| + 1] == InsertByDate(p, x)
            && forall k :: |p| < k < |s| ==> s[k] == rest[k - |p| - 1]
  {
    assert InsertByDate(p[..j], x) == p[..j] + [x];
  }

  lemma {:induction false} IndexOfPrefix(s: seq<DailyMarket>, n: nat, d: Day)
    requires n <= |s| && IndexOf(s[..n], d) < n
    ensures IndexOf(s, d) == IndexOf(s[..n], d)
    decreases |s|
  {
    if n == |s| {
      assert s[..n] == s;
    } else {
      assert s[..|s| - 1][..n] == s[..n];
      IndexOfPrefix(s[..|s| - 1], n, d);
    }
  }

  // ---------- the list is the 30 latest days of the table ----------

  lemma IndexOfMissing(s: seq<DailyMarket>, d: Day)
    ensures IndexOf(s, d) == |s| <==> d !in Dates(s)
  {
    if s != [] {
      var last := |s| - 1;
      IndexOfMissing(s[..last], d);
      assert s == s[..last] + [s[last]];
      assert Dates(s) == Dates(s[..last]) + {s[last].date} by {
        assert s[last] in s;
        assert forall m <- s[..last] :: m in s;
        assert forall m <- s :: m in s[..last] || m == s[last];
      }
    }
  }

  lemma {:induction false} SortFixesAscending(s: seq<DailyMarket>)
    requires Ascending(s)
    ensures SortByDate(s) == s
  {
    if s != [] {
      SortFixesAscending(s[..|s| - 1]);
    }
  }

  lemma KeysGrow(t: Table, d: Day, c: Counts)
    ensures |t[d := c]| == if d in t then |t| else |t| + 1
  {
    assert t[d := c].Keys == t.Keys + {d};
  }

  /** Updating a listed day changes its counts in place. */
  lemma UpdateListed(l: seq<DailyMarket>, t: Table, n: nat, d: Day, c: Counts)
    requires IsLatest(l, t, n) && d in Dates(l)
    ensures IsLatest(SetOrAppend(l, DailyMarket(d, c)), t[d := c], n)
  {
    IndexOfMissing(l, d);
    KeysGrow(t, d, c);
    var i := IndexOf(l, d);
    var l' := l[i := DailyMarket(d, c)];
    forall e ensures e in Dates(l) ==> e in Dates(l') {
      if e in Dates(l) {
        var j :| 0 <= j < |l| && l[j].date == e;
        assert l'[j].date == e;
      }
    }
  }

  lemma {:induction false} InsertMembers(s: seq<DailyMarket>, r: DailyMarket, x: DailyMarket)
    ensures x in InsertByDate(s, r) <==> x in s || x == r
  {
    if s != [] {
      InsertMembers(s[..|s| - 1], r, x);
      assert s == s[..|s| - 1] + [s[|s| - 1]];
    }
  }

  lemma {:induction false} InsertAscends(s: seq<DailyMarket>, r: DailyMarket)
    requires Ascending(s) && r.date !in Dates(s)
    ensures Ascending(InsertByDate(s, r))
  {
    if s != [] && s[|s| - 1].date > r.date {
      var front, last := s[..|s| - 1], s[|s| - 1];
      assert forall m <- front :: m in s;
      InsertAscends(front, r);
      var t := InsertByDate(front, r);
      forall i | 0 <= i < |t| ensures t[i].date < last.date {
        InsertMembers(front, r, t[i]);
      }
    } else if s != [] {
      assert s[|s| - 1] in s;
    }
  }

  lemma {:induction false} InsertFirst(s: seq<DailyMarket>, r: DailyMarket)
    requires forall i :: 0 <= i < |s| ==> r.date < s[i].date
    ensures InsertByDate(s, r) == [r] + s
  {
    if s != [] {
      InsertFirst(s[..|s| - 1], r);
    }
  }

  /** A day that is in the table but no longer listed stays unlisted. */
  lemma InsertDropped(l: seq<DailyMarket>, t: Table, n: nat, d: Day, c: Counts)
    requires IsLatest(l, t, n) && d !in Dates(l) && d in t
    ensures IsLatest(Last(InsertByDate(l, DailyMarket(d, c)), n), t[d := c], n)
  {
    KeysGrow(t, d, c);
    if |t| <= n {
      ShortListIsAll(l, t, n);
    }
    InsertFirst(l, DailyMarket(d, c));
    assert Last([DailyMarket(d, c)] + l, n) == l;
  }

  /** A new day while the list is not full. */
  lemma InsertFits(l: seq<DailyMarket>, t: Table, n: nat, d: Day, c: Counts)
    requires IsLatest(l, t, n) && d !in t && |t| < n
    ensures IsLatest(Last(InsertByDate(l, DailyMarket(d, c)), n), t[d := c], n)
  {
    var r := DailyMarket(d, c);
    KeysGrow(t, d, c);
    ShortListIsAll(l, t, n);
    InsertAscends(l, r);
    MembersOfInsert(l, r);
    var s := InsertByDate(l, r);
    forall e | e in t[d := c] ensures e in Dates(s) {
      if e == d {
        assert r in s;
      } else {
        var m :| m in l && m.date == e;
        assert m in s;
      }
    }
    forall i | 0 <= i < |s| ensures s[i].date in t[d := c] && s[i].counts == t[d := c][s[i].date] {
      assert s[i] in s;
    }
  }

  lemma MembersOfInsert(l: seq<DailyMarket>, r: DailyMarket)
    ensures forall x :: x in InsertByDate(l, r) <==> x in l || x == r
  {
    forall x ensures x in InsertByDate(l, r) <==> x in l || x == r {
      InsertMembers(l, r, x);
    }
  }

  /** A new day while the list is full: the oldest of the n + 1 falls off. */
  lemma InsertShifts(l: seq<DailyMarket>, t: Table, n: nat, d: Day, c: Counts)
    requires IsLatest(l, t, n) && d !in t && |t| >= n
    ensures IsLatest(Last(InsertByDate(l, DailyMarket(d, c)), n), t[d := c], n)
  {
    var r := DailyMarket(d, c);
    KeysGrow(t, d, c);
    assert d !in Dates(l);
    InsertAscends(l, r);
    MembersOfInsert(l, r);
    var s := InsertByDate(l, r);
    assert Last(s, n) == s[1..];
    forall i | 0 <= i < |s[1..]| ensures s[1..][i].date in t[d := c] && s[1..][i].counts == t[d := c][s[1..][i].date] {
      assert s[1..][i] in s;
    }
    forall e, i | e in t[d := c] && e !in Dates(s[1..]) && 0 <= i < |s[1..]|
      ensures e < s[1..][i].date
    {
      ShiftCovers(l, t, n, r, s, e, i);
    }
  }

  lemma ShiftCovers(l: seq<DailyMarket>, t: Table, n: nat, r: DailyMarket, s: seq<DailyMarket>, e: Day, i: nat)
    requires IsLatest(l, t, n) && Ascending(s) && (forall x :: x in s <==> x in l || x == r)
    requires (e in t || e == r.date) && i + 1 < |s| && e !in Dates(s[1..])
    ensures e < s[1..][i].date
  {
    assert s == [s[0]] + s[1..];
    assert forall m <- s :: m == s[0] || m in s[1..];
    assert s[i + 1] in s && s[0] in s && r in s && forall m <- l :: m in s;
    if e != s[0].date {
      BelowList(l, t, n, r, e, s[i + 1], s[0]);
    }
  }

  lemma BelowList(l: seq<DailyMarket>, t: Table, n: nat, r: DailyMarket, e: Day, x: DailyMarket, first: DailyMarket)
    requires IsLatest(l, t, n) && e in t && e !in Dates(l)
    requires (x in l || x == r) && (first in l || first == r) && first.date < x.date
    ensures e < x.date
  {
  }

  /** Upserting any day keeps the file equal to the latest days of the unbounded table. */
  lemma UpsertDayRefines(l: seq<DailyMarket>, t: Table, d: Day, c: Counts)
    requires IsLatest(l, t, 30)
    ensures IsLatest(UpsertedDay(l, DailyMarket(d, c)), t[d := c], 30)
  {
    var n, r := MAX_HISTORY_DAYS, DailyMarket(d, c);
    IndexOfMissing(l, d);
    if d in Dates(l) {
      UpdateListed(l, t, n, d, c);
      SortFixesAscending(SetOrAppend(l, r));
    } else {
      SortFixesAscending(l);
      assert (l + [r])[..|l|] == l;
      if d in t {
        InsertDropped(l, t, n, d, c);
      } else if |t| < n {
        InsertFits(l, t, n, d, c);
      } else {
        InsertShifts(l, t, n, d, c);
      }
    }
  }

  /**
   The upsert of today does not sort.  It keeps the file equal to the latest days
   exactly when today is listed already or is later than every listed day.
   */
  lemma UpsertTodayRefinesIff(l: seq<DailyMarket>, t: Table, d: Day, c: Counts)
    requires IsLatest(l, t, 30)
    ensures IsLatest(UpsertedToday(l, DailyMarket(d, c)), t[d := c], 30)
            <==> d in Dates(l) || l == [] || l[|l| - 1].date < d
  {
    var r := DailyMarket(d, c);
    IndexOfMissing(l, d);
    if d in Dates(l) {
      UpdateListed(l, t, MAX_HISTORY_DAYS, d, c);
    } else if l == [] || l[|l| - 1].date < d {
      UpsertDayRefines(l, t, d, c);
      SortFixesAscending(l);
      assert (l + [r])[..|l|] == l;
    } else {
      var l' := UpsertedToday(l, r);
      assert l[|l| - 1] in l;
      assert l'[|l'| - 1] == r;
      assert l[|l| - 1].date in t;
      if IsLatest(l', t[d := c], MAX_HISTORY_DAYS) {
        LastIsNewest(l', t[d := c], MAX_HISTORY_DAYS);
      }
    }
  }

  // ---------- whole runs of the two stores ----------

  datatype Op = NextDay(days: nat) | SetToday(counts: Counts) | SetDay(ago: nat, counts: Counts)

  /** The clock, the trimmed file and the unbounded SQL table, fed the same calls. */
  datatype Pair = Pair(today: Day, file: seq<DailyMarket>, table: Table)

  function Apply(p: Pair, op: Op): Pair {
    match op
    case NextDay(k) => p.(today := p.today + k)
    case SetToday(c) => p.(file := UpsertedToday(p.file, DailyMarket(p.today, c)), table := p.table[p.today := c])
    case SetDay(ago, c) => p.(file := UpsertedDay(p.file, DailyMarket(p.today - ago, c)), table := p.table[p.today - ago := c])
  }

  function ApplyAll(p: Pair, ops: seq<Op>): Pair {
    if ops == [] then p else Apply(ApplyAll(p, ops[..|ops| - 1]), ops[|ops| - 1])
  }

  ghost predicate Agree(p: Pair) {
    && IsLatest(p.file, p.table, 30)
    && forall d <- p.table :: d <= p.today
  }

  lemma SetTodayAgrees(p: Pair, c: Counts)
    requires Agree(p)
    ensures Agree(Apply(p, SetToday(c)))
  {
    if p.file != [] {
      assert p.file[|p.file| - 1].date in p.table;
      assert p.file[|p.file| - 1] in p.file;
    }
    UpsertTodayRefinesIff(p.file, p.table, p.today, c);
  }

  lemma SetDayAgrees(p: Pair, ago: nat, c: Counts)
    requires Agree(p)
    ensures Agree(Apply(p, SetDay(ago, c)))
  {
    UpsertDayRefines(p.file, p.table, p.today - ago, c);
  }

  lemma ApplyKeepsAgree(p: Pair, op: Op)
    requires Agree(p)
    ensures Agree(Apply(p, op))
  {
    match op
    case NextDay(_) =>
    case SetToday(c) => SetTodayAgrees(p, c);
    case SetDay(ago, c) => SetDayAgrees(p, ago, c);
  }

  /** After any run of upserts dated today or earlier the file holds exactly the 30 latest days of the table. */
  lemma {:induction false} RunsAgree(today: Day, ops: seq<Op>)
    ensures Agree(ApplyAll(Pair(today, [], map[]), ops))
  {
    if ops != [] {
      RunsAgree(today, ops[..|ops| - 1]);
      ApplyKeepsAgree(ApplyAll(Pair(today, [], map[]), ops[..|ops| - 1]), ops[|ops| - 1]);
    }
  }

  /** The file answers `LastDays` like the table exactly when its limit does not bite. */
  lemma LastDaysAgreeIff(l: seq<DailyMarket>, t: Table, days: nat)
    requires IsLatest(l, t, 30)
    ensures IsLatest(Last(l, days), t, days) <==> days <= 30 || |t| <= 30
  {
    if days <= MAX_HISTORY_DAYS {
      SuffixIsLatest(l, t, MAX_HISTORY_DAYS, days);
    }
  }

  /**
   A window of at most 30 days ending today holds the same days in both stores, so the
   17-day gate that decides on a backfill cannot tell them apart.
   */
  lemma WindowsAgree(p: Pair, back: nat)
    requires Agree(p) && back < 30
    ensures Window(Dates(p.file), p.today - back, p.today) == Window(p.table.Keys, p.today - back, p.today)
  {
    forall d | d in p.table && p.today - back <= d <= p.today
      ensures d in Dates(p.file)
    {
      if d !in Dates(p.file) {
        if |p.table| <= MAX_HISTORY_DAYS {
          ShortListIsAll(p.file, p.table, MAX_HISTORY_DAYS);
        } else {
          AscendingGap(p.file, 0, MAX_HISTORY_DAYS - 1);
        }
      }
    }
  }
}
