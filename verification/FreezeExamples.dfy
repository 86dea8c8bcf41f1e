/** Concrete runs in which a recorded day does not stay as it was, or is taken for a holiday. */
module FreezeExamples {
  import opened Backfill
  import opened Classify
  import opened DailyTable
  import opened FileHistory
  import opened FreezeProtocol
  import opened Scanner
  import opened SqlHistory

  /** 13:30 in Tehran on day 0. */
  const AFTERNOON := 600

  const UP := SymbolQuote("aa", "", 1.0, 1.0)
  const DOWN := SymbolQuote("aa", "", 1.0, -1.0)

  function Start(): State {
    State(AFTERNOON, map[], map[], map[], [], None)
  }

  lemma OneTraded(q: SymbolQuote)
    requires q == UP || q == DOWN
    ensures Universe([q]) == [RowOf(q)]
    ensures Tally([RowOf(q)]) == if q == UP then Counts(1, 0, 1) else Counts(0, 1, 1)
  {
    assert [q][..0] == [];
    assert [] + [RowOf(q)] == [RowOf(q)];
    CountOneMore([], RowOf(q), Positive);
    CountOneMore([], RowOf(q), Negative);
  }

  lemma SymbolsOf(q: SymbolQuote) returns (symbols: seq<SymbolQuote>)
    requires q == UP || q == DOWN
    ensures symbols == [q] && Tally(Universe(symbols)) == if q == UP then Counts(1, 0, 1) else Counts(0, 1, 1)
  {
    OneTraded(q);
    symbols := [q];
  }

  lemma TwoTraded()
    ensures Universe([UP, UP]) == [RowOf(UP), RowOf(UP)]
    ensures Tally([RowOf(UP), RowOf(UP)]) == Counts(2, 0, 2)
  {
    OneTraded(UP);
    assert [UP, UP][..1] == [UP];
    assert [RowOf(UP)] + [RowOf(UP)] == [RowOf(UP), RowOf(UP)];
    CountOneMore([RowOf(UP)], RowOf(UP), Positive);
    CountOneMore([RowOf(UP)], RowOf(UP), Negative);
  }

  /** A refresh that has read an empty table records, even if another has recorded since. */
  lemma EmptyHistoryRecords(s: State, who: Reader, symbols: seq<SymbolQuote>, rows: seq<SymbolRow>, c: Counts)
    requires s.now == AFTERNOON && who in s.reading && s.reading[who] == [] && symbols != []
    requires Tally(Universe(symbols)) == c && c.total > 0
    ensures var s' := Next(s, Record(who, symbols, rows, true));
            Recording(s, Record(who, symbols, rows, true)) && s'.stats == s.stats[0 := c] && s'.log == s.log + [DailyMarket(0, c)]
            && s'.reading == s.reading - {who} && s'.now == s.now && s'.backfill == s.backfill
            && (!DistinctNames(rows) ==> s'.snapshots == s.snapshots)
  {
  }

  /** The market has turned since the day was recorded, and still the day looks like a holiday. */
  lemma StoredDayExample()
    ensures var t := map[0 := Counts(1, 0, 1)];
            var history := [DailyMarket(0, Counts(1, 0, 1))];
            && DatesPast(Start().(stats := t)) && IsLatest(history, t, HISTORY_DAYS)
            && LooksLikeHoliday(history, [DOWN], UtcDay(AFTERNOON)) && Tally(Universe([DOWN])) == Counts(0, 1, 1)
  {
    OneTraded(DOWN);
    OneDay(Counts(1, 0, 1));
    StoredDayLooksLikeHoliday(Start().(stats := map[0 := Counts(1, 0, 1)]), [DOWN], [DailyMarket(0, Counts(1, 0, 1))]);
  }

  lemma OneDay(c: Counts)
    ensures IsLatest([DailyMarket(0, c)], map[0 := c], HISTORY_DAYS)
  {
    var l := [DailyMarket(0, c)];
    assert l[0] in l;
    assert map[0 := c].Keys == {0};
  }

  /** A name occurs twice, so the recorded day has no symbol rows; the next backfill overwrites it. */
  lemma DuplicateNamesLoseDay() returns (before: seq<Step>, after: seq<Step>)
    ensures Init(Start()) && PossibleRun(Start(), before) && FreshRun(Start(), before)
    ensures var s := Run(Start(), before);
            && s.log == [DailyMarket(0, Counts(2, 0, 2))] && s.stats == map[0 := Counts(2, 0, 2)]
            && PossibleRun(s, after) && FreshRun(s, after)
            && 0 in Run(s, after).stats && Run(s, after).stats[0] != Counts(2, 0, 2)
  {
    TwoTraded();
    var rows := [RowOf(UP), RowOf(UP)];
    assert rows[0].name == rows[1].name;
    before := [Read(1, []), Record(1, [UP, UP], rows, true)];
    TwoSteps(Start(), Read(1, []), Record(1, [UP, UP], rows, true));
    EmptyHistoryRecords(Next(Start(), Read(1, [])), 1, [UP, UP], rows, Counts(2, 0, 2));
    RunKeepsInv(Start(), before);
    after := UnprotectedDayIsLost(Run(Start(), before), 0);
  }

  lemma BothRead() returns (s: State)
    ensures Possible(Start(), Read(1, [])) && Possible(Next(Start(), Read(1, [])), Read(2, []))
    ensures s == Next(Next(Start(), Read(1, [])), Read(2, []))
    ensures s.now == AFTERNOON && s.stats == map[] && s.log == []
    ensures 1 in s.reading && 2 in s.reading && s.reading[1] == s.reading[2] == []
  {
    s := Next(Next(Start(), Read(1, [])), Read(2, []));
  }

  lemma FirstRecords(s: State, a: seq<SymbolQuote>, c: Counts) returns (step: Step, s': State)
    requires s.now == AFTERNOON && s.stats == map[] && 1 in s.reading && s.reading[1] == [] && a != []
    requires Tally(Universe(a)) == c && c.total > 0
    ensures step == Record(1, a, Universe(a), true) && Possible(s, step) && s' == Next(s, step)
    ensures s'.now == AFTERNOON && s'.stats == map[0 := c] && s'.reading == s.reading - {1}
  {
    step := Record(1, a, Universe(a), true);
    EmptyHistoryRecords(s, 1, a, Universe(a), c);
    s' := Next(s, step);
  }

  lemma SecondReplaces(s: State, b: seq<SymbolQuote>, c: Counts, d: Counts) returns (step: Step)
    requires s.now == AFTERNOON && s.stats == map[0 := c] && 2 in s.reading && s.reading[2] == [] && b != []
    requires Tally(Universe(b)) == d && d.total > 0
    ensures step == Record(2, b, Universe(b), true) && Possible(s, step) && !Fresh(s, step)
    ensures Next(s, step).stats == map[0 := d]
  {
    step := Record(2, b, Universe(b), true);
    EmptyHistoryRecords(s, 2, b, Universe(b), d);
  }

  /** Two refreshes read the empty table, the market turns, and both record: the second row replaces the first. */
  lemma OverlapExample() returns (s: State, up: Step, down: Step)
    ensures Possible(Start(), Read(1, [])) && Possible(Next(Start(), Read(1, [])), Read(2, []))
    ensures s == Next(Next(Start(), Read(1, [])), Read(2, []))
    ensures up.Record? && up.symbols == [UP] && down.Record? && down.symbols == [DOWN]
    ensures Possible(s, up) && Possible(Next(s, up), down) && !Fresh(Next(s, up), down)
    ensures Next(s, up).stats == map[0 := Counts(1, 0, 1)]
    ensures Next(Next(s, up), down).stats == map[0 := Counts(0, 1, 1)]
  {
    s := BothRead();
    var ups := SymbolsOf(UP);
    var downs := SymbolsOf(DOWN);
    var s1;
    up, s1 := FirstRecords(s, ups, Counts(1, 0, 1));
    down := SecondReplaces(s1, downs, Counts(1, 0, 1), Counts(0, 1, 1));
  }

  /** A refresh has read the empty table, then a backfill has passed its gate and started. */
  lemma BackfillStarts() returns (s: State)
    ensures s == Next(Next(Next(Start(), Read(1, [])), CheckGate), StartBackfill)
    ensures Possible(Start(), Read(1, [])) && s.backfill == Running(0, {}) && s.stats == map[] && s.now == AFTERNOON
    ensures 1 in s.reading && s.reading[1] == []
  {
    s := Next(Next(Next(Start(), Read(1, [])), CheckGate), StartBackfill);
  }

  /** Meanwhile the backfill writes yesterday with the counts of today, and the refresh records them once more. */
  lemma RepeatExample() returns (s: State, write: Step, record: Step)
    ensures s == Next(Next(Next(Start(), Read(1, [])), CheckGate), StartBackfill)
    ensures write == WriteDay(-1, Counts(1, 0, 1)) && Possible(s, write)
    ensures record.Record? && record.symbols == [UP] && Possible(Next(s, write), record) && Fresh(Next(s, write), record)
    ensures RepeatsLatest(Next(s, write).stats, Counts(1, 0, 1))
    ensures Next(Next(s, write), record).stats == map[-1 := Counts(1, 0, 1), 0 := Counts(1, 0, 1)]
  {
    s := BackfillStarts();
    write := WriteDay(-1, Counts(1, 0, 1));
    var ups := SymbolsOf(UP);
    record := RecordsAgain(Next(s, write), ups);
  }

  lemma RecordsAgain(s: State, symbols: seq<SymbolQuote>) returns (record: Step)
    requires s.now == AFTERNOON && s.stats == map[-1 := Counts(1, 0, 1)] && 1 in s.reading && s.reading[1] == []
    requires symbols != [] && Tally(Universe(symbols)) == Counts(1, 0, 1)
    ensures record == Record(1, symbols, Universe(symbols), true) && Possible(s, record) && Fresh(s, record)
    ensures RepeatsLatest(s.stats, Counts(1, 0, 1))
    ensures Next(s, record).stats == map[-1 := Counts(1, 0, 1), 0 := Counts(1, 0, 1)]
  {
    record := Record(1, symbols, Universe(symbols), true);
    EmptyHistoryRecords(s, 1, symbols, Universe(symbols), Counts(1, 0, 1));
    assert s.stats[-1] == Counts(1, 0, 1);
  }

  const FLAT := SymbolRow("aa", 0.0, Neutral)

  const RECENT: set<Day> := {20, 21, 22, 23, 24, 25, 26, 27, 28, 29, 30}

  /** Day 30: days 0 and 20 to 30 are stored, all but day 0 with their symbol rows. */
  function FullMonth(): State {
    State(AFTERNOON + 30 * MINUTES_PER_DAY, map d <- RECENT + {0} :: Counts(0, 0, 1), map d <- RECENT :: [FLAT], map[], [], None)
  }

  lemma OneFlat()
    ensures Tally([FLAT]) == Counts(0, 0, 1)
  {
    assert [] + [FLAT] == [FLAT];
    CountOneMore([], FLAT, Positive);
    CountOneMore([], FLAT, Negative);
  }

  lemma UniformIsInitial(s: State, days: set<Day>, c: Counts, rows: seq<SymbolRow>)
    requires (forall d <- days :: d <= UtcDay(s.now)) && 0 <= UtcDay(s.now) && Tally(rows) == c && c.total > 0
    requires s.stats == (map d <- days + {0} :: c) && s.snapshots == map d <- days :: rows
    requires s.log == [] && s.reading == map[] && s.backfill.None?
    ensures Init(s)
  {
  }

  lemma FullMonthIsInitial()
    ensures var s := FullMonth();
            && Init(s) && UtcDay(s.now) == 30 && s.stats.Keys == RECENT + {0} && 0 !in s.snapshots
  {
    OneFlat();
    UniformIsInitial(FullMonth(), RECENT, Counts(0, 0, 1), [FLAT]);
  }

  lemma InitKeepsInv(s: State)
    requires Init(s)
    ensures Inv(s)
  {
  }

  lemma ElevenDays()
    ensures |Window(RECENT + {0}, 14, 30)| >= REQUIRED_DAYS
  {
    assert |RECENT| == 11;
    assert RECENT <= Window(RECENT + {0}, 14, 30);
    SubsetSize(RECENT, Window(RECENT + {0}, 14, 30));
  }

  lemma GateKeepsFrozen(s: State)
    requires Init(s) && s.stats.Keys == RECENT + {0}
    ensures Frozen(s, 0)
  {
    assert 0 in s.stats.Keys;
    InitKeepsInv(s);
    ElevenDays();
    FrozenIff(s, 0);
  }

  /** Day 0 has no symbol rows and is still in reach, but the closed gate keeps every backfill out until it no longer is. */
  lemma FrozenByGate() returns (s: State)
    ensures s == FullMonth() && Init(s) && 0 in s.stats && 0 !in s.snapshots && 0 >= UtcDay(s.now) - LOOKBACK_DAYS && Frozen(s, 0)
  {
    s := FullMonth();
    FullMonthIsInitial();
    GateKeepsFrozen(s);
  }
}
