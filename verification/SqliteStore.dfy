/**
 The SQL store: a table of daily counts, a table of per-symbol rows for each snapshot day
 and a table of queue streaks.  Statements are assumed to succeed unless a key constraint
 fails; each of them is one atomic change of a table.
 */
module SqlHistory {
  import opened Classify
  import opened DailyTable
  import opened FileHistory
  import opened Sequences

  /** The rows of a snapshot day; a day without rows is absent.  Row order carries no meaning. */
  type Snapshots = map<Day, seq<SymbolRow>>

  datatype Streak = Streak(days: int, last: Day)

  predicate DistinctNames(rows: seq<SymbolRow>) {
    forall i, j :: 0 <= i < j < |rows| ==> rows[i].name != rows[j].name
  }

  function Stored(s: Snapshots, d: Day, rows: seq<SymbolRow>): Snapshots {
    if rows == [] then s - {d} else s[d := rows]
  }

  const STREAK_GAP := 4

  function Extended(streaks: map<string, Streak>, name: string, today: Day): map<string, Streak> {
    if name in streaks && today - streaks[name].last <= STREAK_GAP
    then streaks[name := Streak(streaks[name].days + 1, today)]
    else streaks[name := Streak(1, today)]
  }

  function ExtendedAll(streaks: map<string, Streak>, names: seq<string>, today: Day): map<string, Streak> {
    if names == [] then streaks
    else Extended(ExtendedAll(streaks, names[..|names| - 1], today), names[|names| - 1], today)
  }

  function WithoutEmptyDays(t: Table): Table {
    map d | d in t && t[d].total != 0 :: t[d]
  }

  class SqliteStore {
    var stats: Table
    var snapshots: Snapshots
    var streaks: map<string, Streak>

    /** Opening the database removes the zero-total rows of market holidays. */
    constructor (stats: Table, snapshots: Snapshots, streaks: map<string, Streak>)
      ensures this.stats == WithoutEmptyDays(stats) && this.snapshots == snapshots && this.streaks == streaks
      ensures forall d :: d in this.stats <==> d in stats && stats[d].total != 0
      ensures forall d <- this.stats :: this.stats[d] == stats[d]
    {
      this.stats := map d | d in stats && !(stats[d].total == 0) :: stats[d];
      this.snapshots := snapshots;
      this.streaks := streaks;
    }

    method UpsertToday(today: Day, day: Counts)
      modifies this`stats
      ensures stats == old(stats)[today := day]
    {
      stats := stats[today := day];
    }

    method UpsertDay(date: Day, day: Counts)
      modifies this`stats
      ensures stats == old(stats)[date := day]
    {
      stats := stats[date := day];
    }

    /** ORDER BY date DESC LIMIT days: a negative limit means no limit. */
    method SelectLatest(days: int) returns (out: seq<DailyMarket>)
      ensures var n := if days < 0 then |stats| else days; IsLatest(Reversed(out), stats, n)
    {
      var n := if days < 0 then |stats| else days;
      out := [];
      var rest := stats;
      while |out| < n && |rest| > 0
        invariant |out| <= n && |out| + |rest| == |stats| && Picked(out, rest, stats)
        decreases |rest|
      {
        MaxExists(rest.Keys);
        var m :| m in rest.Keys && forall d <- rest.Keys :: d <= m;
        RemoveOne(rest, m);
        PickNext(out, rest, stats, m);
        out := out + [DailyMarket(m, stats[m])];
        rest := rest - {m};
      }
      ReversedIsLatest(out, rest, stats, n);
    }

    method LastDays(days: int) returns (out: seq<DailyMarket>)
      ensures IsLatest(out, stats, if days < 0 then |stats| else days)
    {
      out := SelectLatest(days);
      ghost var desc := out;
      var i, j := 0, |out| - 1;
      while i < j
        invariant 0 <= i <= |desc| && j == |desc| - 1 - i && |out| == |desc|
        invariant i <= j + 2
        invariant forall k :: 0 <= k < i ==> out[k] == desc[|desc| - 1 - k] && out[|desc| - 1 - k] == desc[k]
        invariant forall k :: i <= k <= j ==> out[k] == desc[k]
      {
        out := out[i := out[j]][j := out[i]];
        i, j := i + 1, j - 1;
      }
      assert out == Reversed(desc);
    }

    method ExistingDays(from: Day, to: Day) returns (out: set<Day>)
      ensures out == Window(stats.Keys, from, to) == set d | d in stats && from <= d <= to
    {
      out := set d | d in stats && d >= from && d <= to;
    }

    method ExistingSnapshotDays(from: Day, to: Day) returns (out: set<Day>)
      ensures out == Window(snapshots.Keys, from, to) == set d | d in snapshots && from <= d <= to
    {
      out := set d | d in snapshots && d >= from && d <= to;
    }

    /** One transaction: the day's rows are deleted and inserted, or nothing changes. */
    method UpsertSymbolSnapshot(date: Day, rows: seq<SymbolRow>) returns (ok: bool)
      modifies this`snapshots
      ensures ok <==> forall i, j :: 0 <= i < j < |rows| ==> rows[i].name != rows[j].name
      ensures snapshots == if ok then Stored(old(snapshots), date, rows) else old(snapshots)
      ensures snapshots == if !ok then old(snapshots) else if rows == [] then old(snapshots) - {date} else old(snapshots)[date := rows]
    {
      var inserted: seq<SymbolRow> := [];
      for i := 0 to |rows|
        invariant inserted == rows[..i] && DistinctNames(inserted)
      {
        if exists r <- inserted :: r.name == rows[i].name {
          return false;
        }
        inserted := inserted + [rows[i]];
      }
      assert rows[..|rows|] == rows;
      snapshots := if inserted == [] then snapshots - {date} else snapshots[date := inserted];
      return true;
    }

    method UpsertQueueStreaks(names: seq<string>, today: Day) returns (out: map<string, int>)
      modifies this`streaks
      ensures streaks == ExtendedAll(old(streaks), names, today)
      ensures out.Keys == (set n <- names) && forall n <- out :: n in streaks && out[n] == streaks[n].days
    {
      for i := 0 to |names|
        invariant streaks == ExtendedAll(old(streaks), names[..i], today)
        invariant forall k :: 0 <= k < i ==> names[k] in streaks
      {
        var n := names[i];
        assert names[..i + 1][..i] == names[..i];
        if n in streaks {
          var s := streaks[n];
          streaks := streaks[n := Streak(if today - s.last <= 4 then s.days + 1 else 1, today)];
        } else {
          streaks := streaks[n := Streak(1, today)];
        }
      }
      assert names[..|names|] == names;
      out := map n | n in names :: streaks[n].days;
    }
  }

  function Reversed(s: seq<DailyMarket>): seq<DailyMarket> {
    seq(|s|, i requires 0 <= i < |s| => s[|s| - 1 - i])
  }

  lemma RemoveOne(t: Table, d: Day)
    requires d in t
    ensures |t - {d}| == |t| - 1
  {
    assert t.Keys == (t - {d}).Keys + {d};
  }

  /** Newest first, some rows have been read and the older ones remain. */
  ghost predicate Picked(out: seq<DailyMarket>, rest: Table, t: Table) {
    && rest.Keys <= t.Keys
    && (forall i :: 0 <= i < |out| ==> out[i].date in t && out[i].counts == t[out[i].date])
    && (forall i, j :: 0 <= i < j < |out| ==> out[i].date > out[j].date)
    && (forall d :: d in t ==> d in rest || d in Dates(out))
    && (forall d, i :: d in rest && 0 <= i < |out| ==> d < out[i].date)
  }

  lemma PickNext(out: seq<DailyMarket>, rest: Table, t: Table, m: Day)
    requires Picked(out, rest, t) && m in rest && forall d <- rest :: d <= m
    ensures Picked(out + [DailyMarket(m, t[m])], rest - {m}, t)
  {
    var out' := out + [DailyMarket(m, t[m])];
    DatesExtended(out, DailyMarket(m, t[m]));
    assert forall i :: 0 <= i < |out| ==> out'[i] == out[i];
  }

  lemma ReversedDates(out: seq<DailyMarket>, d: Day)
    ensures d in Dates(Reversed(out)) <==> d in Dates(out)
  {
    var r := Reversed(out);
    if d in Dates(out) {
      var i :| 0 <= i < |out| && out[i].date == d;
      assert r[|out| - 1 - i] == out[i];
    }
  }

  lemma ReversedAscends(out: seq<DailyMarket>)
    requires forall i, j :: 0 <= i < j < |out| ==> out[i].date > out[j].date
    ensures Ascending(Reversed(out))
  {
  }

  lemma ReversedIsLatest(out: seq<DailyMarket>, rest: Table, t: Table, n: nat)
    requires Picked(out, rest, t) && |out| + |rest| == |t| && |out| <= n && (|out| == n || |rest| == 0)
    ensures IsLatest(Reversed(out), t, n)
  {
    var r := Reversed(out);
    ReversedAscends(out);
    forall d, i | d in t && d !in Dates(r) && 0 <= i < |r| ensures d < r[i].date {
      ReversedDates(out, d);
    }
  }
}
