/**
 What the stored queue streak of a symbol means after any history of calls: first the
 table is taken apart by name, then the streak of one name is read off its sightings.
 */
module QueueStreaks {
  import opened DailyTable
  import opened SqlHistory

  datatype Call = Call(names: seq<string>, day: Day)

  function After(calls: seq<Call>): map<string, Streak> {
    if calls == [] then map[]
    else
      var c := calls[|calls| - 1];
      ExtendedAll(After(calls[..|calls| - 1]), c.names, c.day)
  }

  function Occurrences(names: seq<string>, name: string, day: Day): seq<Day> {
    if names == [] then []
    else Occurrences(names[..|names| - 1], name, day) + if names[|names| - 1] == name then [day] else []
  }

  /** The days on which a name was passed, once for each time it was passed. */
  function Sightings(calls: seq<Call>, name: string): seq<Day> {
    if calls == [] then []
    else
      var c := calls[|calls| - 1];
      Sightings(calls[..|calls| - 1], name) + Occurrences(c.names, name, c.day)
  }

  /** The last k sightings follow each other by at most four days. */
  ghost predicate Unbroken(ds: seq<Day>, k: nat) {
    k <= |ds| && forall i :: |ds| - k < i < |ds| ==> ds[i] - ds[i - 1] <= 4
  }

  /** The longest unbroken run up to now has k sightings. */
  ghost predicate LongestRun(ds: seq<Day>, k: nat) {
    Unbroken(ds, k) && forall m: nat :: Unbroken(ds, m) ==> m <= k
  }

  /** The stored row says how long the longest unbroken run up to now is. */
  ghost predicate Describes(streaks: map<string, Streak>, name: string, ds: seq<Day>) {
    if ds == [] then name !in streaks
    else
      && name in streaks
      && streaks[name].last == ds[|ds| - 1]
      && 1 <= streaks[name].days
      && LongestRun(ds, streaks[name].days)
  }

  lemma ExtendDescribes(streaks: map<string, Streak>, name: string, ds: seq<Day>, day: Day)
    requires Describes(streaks, name, ds)
    ensures Describes(Extended(streaks, name, day), name, ds + [day])
  {
    var ds' := ds + [day];
    var s' := Extended(streaks, name, day)[name];
    if ds != [] {
      var s := streaks[name];
      forall k: nat | Unbroken(ds', k)
        ensures k <= s'.days
      {
        if k >= 2 {
          assert ds'[|ds'| - 1] - ds'[|ds'| - 2] <= 4;
          assert forall i :: 0 <= i < |ds| ==> ds'[i] == ds[i];
          assert Unbroken(ds, k - 1);
        }
      }
    }
  }

  lemma {:induction false} CallDescribes(streaks: map<string, Streak>, names: seq<string>, day: Day, name: string, ds: seq<Day>)
    requires Describes(streaks, name, ds)
    ensures Describes(ExtendedAll(streaks, names, day), name, ds + Occurrences(names, name, day))
  {
    if names == [] {
      assert ds + [] == ds;
    } else {
      var front, last := names[..|names| - 1], names[|names| - 1];
      CallDescribes(streaks, front, day, name, ds);
      var ds' := ds + Occurrences(front, name, day);
      if last == name {
        ExtendDescribes(ExtendedAll(streaks, front, day), name, ds', day);
        assert ds + Occurrences(names, name, day) == ds' + [day];
      } else {
        assert ds + Occurrences(names, name, day) == ds';
      }
    }
  }

  /**
   After any history of calls, a symbol's streak is the length of the longest suffix of
   its sightings in which neighbours are at most four days apart.
   */
  lemma {:induction false} StreakIsLongestRun(calls: seq<Call>, name: string)
    ensures Describes(After(calls), name, Sightings(calls, name))
  {
    if calls != [] {
      var front, c := calls[..|calls| - 1], calls[|calls| - 1];
      StreakIsLongestRun(front, name);
      CallDescribes(After(front), c.names, c.day, name, Sightings(front, name));
    }
  }

  // ---------- days, not calls ----------

  ghost predicate OncePerDay(ds: seq<Day>) {
    forall i, j :: 0 <= i < j < |ds| ==> ds[i] != ds[j]
  }

  function DaySet(ds: seq<Day>): set<Day> {
    set d <- ds
  }

  lemma {:induction false} CountDays(ds: seq<Day>)
    ensures |DaySet(ds)| <= |ds|
    ensures |DaySet(ds)| == |ds| <==> OncePerDay(ds)
  {
    if ds != [] {
      var front, last := ds[..|ds| - 1], ds[|ds| - 1];
      CountDays(front);
      assert ds == front + [last];
      assert DaySet(ds) == DaySet(front) + {last};
      if last in front {
        var i :| 0 <= i < |front| && front[i] == last;
        assert ds[i] == ds[|ds| - 1];
        assert DaySet(ds) == DaySet(front);
      } else {
        assert forall i :: 0 <= i < |front| ==> ds[i] == front[i] && ds[i] in front;
      }
    }
  }

  lemma RunDays(ds: seq<Day>, k: nat, m: nat)
    requires LongestRun(ds, k) && LongestRun(ds, m)
    ensures m == |DaySet(Last(ds, k))| <==> OncePerDay(Last(ds, k))
  {
    assert k == m && |Last(ds, k)| == k;
    CountDays(Last(ds, k));
  }

  /**
   The streak is documented as a number of days.  It is the number of distinct days of the
   longest unbroken run of sightings exactly when the symbol was passed at most once on
   each of them.
   */
  lemma StreakCountsDaysIff(calls: seq<Call>, name: string, k: nat)
    requires Sightings(calls, name) != [] && LongestRun(Sightings(calls, name), k)
    ensures var run := Last(Sightings(calls, name), k);
            name in After(calls) && (After(calls)[name].days == |DaySet(run)| <==> OncePerDay(run))
  {
    StreakIsLongestRun(calls, name);
    RunDays(Sightings(calls, name), k, After(calls)[name].days);
  }

  /** Two refreshes of one day count as a streak of two. */
  lemma RefreshTwiceCountsTwice(name: string, day: Day)
    ensures var calls := [Call([name], day), Call([name], day)];
            After(calls)[name] == Streak(2, day)
  {
    var calls := [Call([name], day), Call([name], day)];
    assert calls[..1] == [Call([name], day)];
    assert After(calls[..1][..0]) == map[];
    assert ExtendedAll(map[], [name][..0], day) == map[];
    assert After(calls[..1]) == map[name := Streak(1, day)];
    assert ExtendedAll(After(calls[..1]), [name][..0], day) == After(calls[..1]);
  }
}
