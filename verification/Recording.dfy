/**
 One service refreshes, backfills and synchronises the daily statistics.  Time is counted
 in minutes since the epoch, in UTC; Tehran is three and a half hours ahead.
 */
module Scanner {
  import opened Classify
  import opened DailyTable
  import opened FileHistory
  import opened SqlHistory
  import opened Indicators
  import opened Backfill

  const MINUTES_PER_DAY := 1440
  const TEHRAN_OFFSET := 210
  const HISTORY_DAYS: nat := 30

  function UtcDay(now: int): Day {
    now / MINUTES_PER_DAY
  }

  function TehranDay(now: int): Day {
    (now + TEHRAN_OFFSET) / MINUTES_PER_DAY
  }

  /** At or after 13:00 on the Tehran clock. */
  predicate TehranAfterClose(now: int) {
    (now + TEHRAN_OFFSET) % MINUTES_PER_DAY >= 13 * 60
  }

  predicate InHistory(history: seq<DailyMarket>, d: Day) {
    IndexOf(history, d) < |history|
  }

  /** The counts a refresh works with: the frozen row of the day when there is one. */
  function TodayCounts(history: seq<DailyMarket>, symbols: seq<SymbolQuote>, today: Day): Counts {
    if InHistory(history, today) then history[IndexOf(history, today)].counts
    else Tally(Universe(symbols))
  }

  /** A day that repeats the latest stored counts is taken for a holiday. */
  predicate LooksLikeHoliday(history: seq<DailyMarket>, symbols: seq<SymbolQuote>, today: Day) {
    var c := TodayCounts(history, symbols, today);
    symbols != [] && c.total > 0 && history != [] && history[|history| - 1].counts == c
  }

  predicate Records(history: seq<DailyMarket>, symbols: seq<SymbolQuote>, now: int) {
    var today := UtcDay(now);
    && TehranAfterClose(now) && symbols != [] && TodayCounts(history, symbols, today).total > 0
    && !LooksLikeHoliday(history, symbols, today) && !InHistory(history, today)
  }

  /** The counts c are those of the latest stored day. */
  ghost predicate RepeatsLatest(t: Table, c: Counts) {
    exists d <- t :: t[d] == c && forall e <- t :: e <= d
  }

  lemma LatestIsLast(t: Table, history: seq<DailyMarket>, c: Counts)
    requires IsLatest(history, t, HISTORY_DAYS)
    ensures RepeatsLatest(t, c) <==> history != [] && history[|history| - 1].counts == c
  {
    if history == [] {
      assert |t| == 0;
    } else {
      LastIsNewest(history, t, HISTORY_DAYS);
      assert history[|history| - 1].date in t;
    }
  }

  lemma TodayListedIff(t: Table, history: seq<DailyMarket>, today: Day)
    requires IsLatest(history, t, HISTORY_DAYS) && forall d <- t :: d <= today
    ensures InHistory(history, today) <==> today in t
  {
    IndexOfMissing(history, today);
    if history == [] {
      assert |t| == 0;
    } else if today in t {
      LastIsNewest(history, t, HISTORY_DAYS);
      assert history[|history| - 1] in history;
    }
  }

  /**
   When a refresh records, told from the clock, the quotes and the stored rows: from 13:00
   on in Tehran, when some share traded, on a day of which nothing is stored, with counts
   that are not those of the latest stored day.
   */
  lemma RecordsIff(t: Table, history: seq<DailyMarket>, symbols: seq<SymbolQuote>, now: int)
    requires IsLatest(history, t, 30) && forall d <- t :: d <= now / 1440
    ensures Records(history, symbols, now) <==>
      && (now + 210) % 1440 >= 780
      && |Shares(symbols)| > 0
      && now / 1440 !in t
      && !exists d <- t :: t[d] == Counts(|Risers(symbols)|, |Fallers(symbols)|, |Shares(symbols)|) && forall e <- t :: e <= d
  {
    DayCounts(symbols);
    TodayListedIff(t, history, now / 1440);
    LatestIsLast(t, history, Tally(Universe(symbols)));
    if symbols == [] {
      assert Shares(symbols) == {};
    }
  }

  /** The table after a refresh, told in the same way. */
  lemma RefreshedTable(t: Table, after: Table, history: seq<DailyMarket>, symbols: seq<SymbolQuote>, now: int)
    requires IsLatest(history, t, 30)
    requires after == if Records(history, symbols, now) then t[UtcDay(now) := Tally(Universe(symbols))] else t
    ensures var c := Counts(|Risers(symbols)|, |Fallers(symbols)|, |Shares(symbols)|);
      (forall d <- t :: d <= now / 1440) ==>
        after ==
          if (now + 210) % 1440 >= 780 && c.total > 0 && now / 1440 !in t && !exists d <- t :: t[d] == c && forall e <- t :: e <= d
          then t[now / 1440 := c] else t
  {
    if forall d <- t :: d <= now / 1440 {
      RecordsIff(t, history, symbols, now);
      DayCounts(symbols);
    }
  }

  method MergeTodayIntoHistory(history: seq<DailyMarket>, today: DailyMarket) returns (merged: seq<DailyMarket>)
    ensures merged == SetOrAppend(history, today)
  {
    merged := history;
    for i := 0 to |merged|
      invariant merged == history && IndexOf(history[..i], today.date) == i
    {
      assert history[..i + 1][..i] == history[..i];
      if merged[i].date == today.date {
        IndexOfPrefix(history, i + 1, today.date);
        merged := merged[i := today];
        return;
      }
    }
    assert history[..|history|] == history;
    merged := merged + [today];
  }

  class Service {
    const store: SqliteStore
    const breadth: Thresholds
    const advance: Thresholds

    constructor (store: SqliteStore, breadth: Thresholds, advance: Thresholds)
      ensures this.store == store && this.breadth == breadth && this.advance == advance
    {
      this.store := store;
      this.breadth := breadth;
      this.advance := advance;
    }

    /** The recording part of a refresh.  `read` is the history it starts from, `history` the one it evaluates. */
    method Refresh(symbols: seq<SymbolQuote>, now: int)
      returns (holiday: bool, ghost read: seq<DailyMarket>, history: seq<DailyMarket>, rows: seq<SymbolRow>,
               b: Outcome<Indicator>, ad: Outcome<Indicator>)
      modifies store`stats, store`snapshots
      ensures IsLatest(read, old(store.stats), HISTORY_DAYS)
      ensures multiset(rows) == multiset(Universe(symbols))
      ensures holiday == LooksLikeHoliday(read, symbols, UtcDay(now))
      ensures Records(read, symbols, now) ==>
        && store.stats == old(store.stats)[UtcDay(now) := Tally(Universe(symbols))]
        && store.snapshots == (if DistinctNames(rows) then Stored(old(store.snapshots), UtcDay(now), rows) else old(store.snapshots))
        && history == SetOrAppend(read, DailyMarket(UtcDay(now), Tally(Universe(symbols))))
      ensures !Records(read, symbols, now) ==>
        store.stats == old(store.stats) && store.snapshots == old(store.snapshots) && history == read
      ensures var c, t := Counts(|Risers(symbols)|, |Fallers(symbols)|, |Shares(symbols)|), old(store.stats);
        (forall d <- t :: d <= now / 1440) ==>
          store.stats ==
            if (now + 210) % 1440 >= 780 && c.total > 0 && now / 1440 !in t && !exists d <- t :: t[d] == c && forall e <- t :: e <= d
            then t[now / 1440 := c] else t
      ensures Evaluates(Breadth, breadth, history, b) && Evaluates(AdvanceDecline, advance, history, ad)
    {
      history := store.LastDays(HISTORY_DAYS);
      read := history;
      rows := SymbolRows(symbols);
      var todayDate := UtcDay(now);
      var hasToday := |symbols| > 0;
      var today := Counts(0, 0, 0);
      if hasToday {
        today := ClassifyDay(symbols);
      }
      var at := IndexOf(history, todayDate);
      var alreadyFrozen := at < |history|;
      if alreadyFrozen {
        today := history[at].counts;
      }
      holiday := hasToday && today.total > 0 && |history| > 0 && history[|history| - 1].counts == today;
      if TehranAfterClose(now) && hasToday && today.total > 0 && !holiday && !alreadyFrozen {
        store.UpsertToday(todayDate, today);
        var ok := store.UpsertSymbolSnapshot(todayDate, rows);
        history := MergeTodayIntoHistory(history, DailyMarket(todayDate, today));
      }
      RefreshedTable(old(store.stats), store.stats, read, symbols, now);
      b := Evaluate(Breadth, breadth, history);
      ad := Evaluate(AdvanceDecline, advance, history);
    }

    /** The scheduled backfill: nothing unless the gate is open. */
    method RunBackfill(symbols: seq<SymbolQuote>, service: Backfill.Service, now: int, cancelAt: nat)
      returns (ran: bool, days: Table, ghost written: set<Day>)
      modifies store`stats
      ensures ran <==> symbols != [] && |set d | d in old(store.stats) && now / 1440 - 16 <= d <= now / 1440| < 10
      ensures ran ==>
        Backfilled(old(store.stats), store.stats, days, written, TradedNames(symbols), service, now / 1440,
                   (set d | d in store.snapshots && now / 1440 - 30 <= d <= now / 1440), cancelAt)
      ensures !ran ==> store.stats == old(store.stats)
    {
      days, written := map[], {};
      var need := NeedsBackfill(store, UtcDay(now));
      ran := need && |symbols| > 0;
      if ran {
        days, written := BackfillUnpreserved(symbols, service, UtcDay(now), cancelAt);
      }
    }

    /** Never a day with a snapshot.  `written` are the days whose write got through before the context died. */
    method BackfillUnpreserved(symbols: seq<SymbolQuote>, service: Backfill.Service, today: Day, cancelAt: nat)
      returns (days: Table, ghost written: set<Day>)
      modifies store`stats
      ensures Backfilled(old(store.stats), store.stats, days, written, TradedNames(symbols), service, today,
                         (set d | d in store.snapshots && today - 30 <= d <= today), cancelAt)
    {
      var preserve := store.ExistingSnapshotDays(today - LOOKBACK_DAYS, today);
      var cancelled;
      cancelled, days, written := BackfillHistory(store, symbols, service, today, preserve, cancelAt);
    }
  }

  /** The cron script: the day of the Tehran clock is recomputed from its stored rows. */
  method SyncFromSnapshot(store: SqliteStore, now: int)
    modifies store`stats
    ensures store.stats == Synced(old(store.stats), store.snapshots, TehranDay(now))
    ensures var d := (now + 210) / 1440;
      store.stats ==
        if d in store.snapshots && store.snapshots[d] != []
        then old(store.stats)[d := Counts(|WithStatus(store.snapshots[d], Positive)|, |WithStatus(store.snapshots[d], Negative)|,
                                          |store.snapshots[d]|)]
        else old(store.stats)
  {
    var today := TehranDay(now);
    if today !in store.snapshots {
      return;
    }
    var rows := store.snapshots[today];
    var pos, neg, tot := 0, 0, 0;
    for i := 0 to |rows|
      invariant pos == Count(rows[..i], Positive) && neg == Count(rows[..i], Negative) && tot == i
      invariant store.stats == old(store.stats)
    {
      assert rows[..i + 1] == rows[..i] + [rows[i]];
      CountOneMore(rows[..i], rows[i], Positive);
      CountOneMore(rows[..i], rows[i], Negative);
      match rows[i].status {
        case Positive => pos := pos + 1;
        case Negative => neg := neg + 1;
        case Neutral =>
      }
      tot := tot + 1;
    }
    assert rows[..|rows|] == rows;
    assert Tally(rows) == Counts(pos, neg, tot);
    CountsRows(rows, Positive);
    CountsRows(rows, Negative);
    if tot == 0 {
      return;
    }
    store.stats := store.stats[today := Counts(pos, neg, tot)];
  }

  function Synced(t: Table, snapshots: Snapshots, d: Day): Table {
    if d in snapshots && Tally(snapshots[d]).total != 0 then t[d := Tally(snapshots[d])] else t
  }

  /** After the script the Tehran day agrees with its stored rows, whatever was stored before; no other day changes. */
  lemma SyncRestoresAgreement(t: Table, snapshots: Snapshots, now: int, d: Day)
    ensures var t' := Synced(t, snapshots, TehranDay(now));
            if d == (now + 210) / 1440 && d in snapshots && snapshots[d] != []
            then d in t' && t'[d] == Counts(|WithStatus(snapshots[d], Positive)|, |WithStatus(snapshots[d], Negative)|, |snapshots[d]|)
            else (d in t' <==> d in t) && (d in t ==> t'[d] == t[d])
  {
    if d in snapshots {
      CountsRows(snapshots[d], Positive);
      CountsRows(snapshots[d], Negative);
    }
  }
}

/**
 Runs of the three writers.  A refresh is two steps, because it decides on a history it has
 read earlier; any number of them may be between the two.  A backfill passes its gate, later
 reads the preserved days, and then takes one step for each row that gets written; it may
 stop at any point.
 */
module FreezeProtocol {
  import opened Classify
  import opened DailyTable
  import opened FileHistory
  import opened SqlHistory
  import opened Backfill
  import opened Indicators
  import opened Scanner
  import opened Sequences

  type Reader = nat

  /** A backfill that has passed its gate is fetching symbols; one that runs knows its preserved days. */
  datatype Pending = None | Gated | Running(start: Day, preserve: set<Day>)

  /** `reading` holds the histories of unfinished refreshes, `log` what refreshes have recorded, in order. */
  datatype State = State(now: int, stats: Table, snapshots: Snapshots, reading: map<Reader, seq<DailyMarket>>,
                         log: seq<DailyMarket>, backfill: Pending)

  datatype Step =
    | Tick(minutes: nat)
    | Read(who: Reader, history: seq<DailyMarket>)
    | Record(who: Reader, symbols: seq<SymbolQuote>, rows: seq<SymbolRow>, kept: bool)
    | CheckGate
    | StartBackfill
    | WriteDay(date: Day, counts: Counts)
    | EndBackfill
    | Sync
    | Reopen

  /** Step arguments that the code can produce: history and rows as read, candle days in the window and not preserved. */
  ghost predicate Possible(s: State, step: Step) {
    match step
    case Read(_, history) => IsLatest(history, s.stats, HISTORY_DAYS)
    case Record(_, symbols, rows, _) => multiset(rows) == multiset(Universe(symbols))
    case WriteDay(d, c) =>
      s.backfill.Running? ==> Plausible(d, c, s.backfill.start) && d !in s.backfill.preserve
    case _ => true
  }

  predicate Recording(s: State, step: Step) {
    step.Record? && step.who in s.reading && Records(s.reading[step.who], step.symbols, s.now)
  }

  /**
   The day's row is set.  Its symbol rows are stored unless a name repeats, which rolls them
   back, or the context dies between the two writes, when they are not `kept`.
   */
  function Recorded(s: State, symbols: seq<SymbolQuote>, rows: seq<SymbolRow>, kept: bool): State {
    var r := DailyMarket(UtcDay(s.now), Tally(Universe(symbols)));
    s.(stats := s.stats[r.date := r.counts],
       snapshots := if kept && DistinctNames(rows) then Stored(s.snapshots, r.date, rows) else s.snapshots,
       log := s.log + [r])
  }

  function Next(s: State, step: Step): State {
    match step
    case Tick(m) => s.(now := s.now + m)
    case Read(who, history) => s.(reading := s.reading[who := history])
    case Record(who, symbols, rows, kept) =>
      var s' := s.(reading := s.reading - {who});
      if Recording(s, step) then Recorded(s', symbols, rows, kept) else s'
    case CheckGate =>
      var today := UtcDay(s.now);
      if s.backfill.None? && GateOpen(Window(s.stats.Keys, today - GATE_WINDOW_DAYS, today)) then s.(backfill := Gated) else s
    case StartBackfill =>
      var today := UtcDay(s.now);
      if s.backfill.Gated? then s.(backfill := Running(today, Window(s.snapshots.Keys, today - LOOKBACK_DAYS, today))) else s
    case WriteDay(d, c) => if s.backfill.Running? then s.(stats := s.stats[d := c]) else s
    case EndBackfill => s.(backfill := None)
    case Sync => s.(stats := Synced(s.stats, s.snapshots, TehranDay(s.now)))
    case Reopen => s.(stats := WithoutEmptyDays(s.stats), reading := map[], backfill := None)
  }

  ghost predicate PossibleRun(s: State, steps: seq<Step>)
    decreases |steps|
  {
    steps == [] || (Possible(s, steps[0]) && PossibleRun(Next(s, steps[0]), steps[1..]))
  }

  function Run(s: State, steps: seq<Step>): State
    decreases |steps|
  {
    if steps == [] then s else Run(Next(s, steps[0]), steps[1..])
  }

  /** A recording step is fresh when nothing is stored of its day: no other refresh has recorded since it read. */
  ghost predicate Fresh(s: State, step: Step) {
    Recording(s, step) ==> UtcDay(s.now) !in s.stats
  }

  ghost predicate FreshRun(s: State, steps: seq<Step>)
    decreases |steps|
  {
    steps == [] || (Fresh(s, steps[0]) && FreshRun(Next(s, steps[0]), steps[1..]))
  }

  /** A database of rows up to today, whose snapshots, if any, agree with them. */
  ghost predicate Init(s: State) {
    DatesPast(s) && SnapshotsAgree(s) && s.log == [] && s.reading == map[] && s.backfill.None?
  }

  ghost predicate DatesPast(s: State) {
    forall d <- s.stats :: d <= UtcDay(s.now) && s.stats[d].total > 0
  }

  /** Each snapshot day has a daily row with exactly the counts of its stored rows. */
  ghost predicate SnapshotsAgree(s: State) {
    forall d <- s.snapshots :: d in s.stats && s.stats[d] == Tally(s.snapshots[d])
  }

  /** Recorded days ascend and are stored; those with symbol rows still have their counts. */
  ghost predicate LogAgrees(s: State) {
    && Ascending(s.log)
    && forall i :: 0 <= i < |s.log| ==>
         s.log[i].date in s.stats && (s.log[i].date in s.snapshots ==> s.stats[s.log[i].date] == s.log[i].counts)
  }

  /** A running backfill preserves every snapshot day it could write. */
  ghost predicate BackfillSafe(s: State) {
    s.backfill.Running? ==>
      && s.backfill.start <= UtcDay(s.now)
      && forall d <- s.snapshots :: s.backfill.start - LOOKBACK_DAYS <= d < s.backfill.start ==> d in s.backfill.preserve
  }

  /** When today is stored, an unfinished refresh has either read it or been overtaken by one that recorded it. */
  ghost predicate ReadersSeen(s: State) {
    UtcDay(s.now) in s.stats ==>
      forall who <- s.reading :: InHistory(s.reading[who], UtcDay(s.now)) || UtcDay(s.now) in Dates(s.log)
  }

  ghost predicate Inv(s: State) {
    DatesPast(s) && SnapshotsAgree(s) && LogAgrees(s) && BackfillSafe(s) && ReadersSeen(s)
  }

  // ---------- what one refresh records ----------

  lemma InHistoryIff(s: State, history: seq<DailyMarket>)
    requires DatesPast(s) && IsLatest(history, s.stats, HISTORY_DAYS)
    ensures InHistory(history, UtcDay(s.now)) <==> UtcDay(s.now) in s.stats
    ensures InHistory(history, UtcDay(s.now)) ==> IndexOf(history, UtcDay(s.now)) == |history| - 1
  {
    var today := UtcDay(s.now);
    IndexOfMissing(history, today);
    if today in s.stats && history != [] {
      LastIsNewest(history, s.stats, HISTORY_DAYS);
      assert history[|history| - 1].date == today;
      assert history[|history| - 1] in history;
    } else if history == [] {
      assert |s.stats| == 0;
    }
  }

  /**
   A refresh records only a day of which nothing is stored, after every stored day, with
   counts that differ from the latest stored ones; and the day it uses is the Tehran day.
   */
  lemma RecordedDayIsNew(s: State, symbols: seq<SymbolQuote>, history: seq<DailyMarket>)
    requires DatesPast(s) && IsLatest(history, s.stats, HISTORY_DAYS)
    requires Records(history, symbols, s.now)
    ensures forall d <- s.stats :: d < UtcDay(s.now)
    ensures !RepeatsLatest(s.stats, Tally(Universe(symbols)))
    ensures TehranDay(s.now) == UtcDay(s.now)
    ensures Tally(Universe(symbols)).total > 0
  {
    InHistoryIff(s, history);
    LatestIsLast(s.stats, history, Tally(Universe(symbols)));
    ClosingDay(s.now);
  }

  /** From 13:00 to midnight in Tehran both clocks show one date. */
  lemma ClosingDay(now: int)
    requires TehranAfterClose(now)
    ensures TehranDay(now) == UtcDay(now)
  {
  }

  /**
   A refresh that gets symbols takes the day for a holiday exactly when the day is stored
   already, whatever the market does, or when its counts repeat the latest stored day.
   */
  lemma StoredDayLooksLikeHoliday(s: State, symbols: seq<SymbolQuote>, history: seq<DailyMarket>)
    requires DatesPast(s) && IsLatest(history, s.stats, HISTORY_DAYS)
    ensures LooksLikeHoliday(history, symbols, UtcDay(s.now))
            <==> symbols != [] && (UtcDay(s.now) in s.stats || RepeatsLatest(s.stats, Tally(Universe(symbols))))
    ensures UtcDay(s.now) in s.stats ==> !Records(history, symbols, s.now)
  {
    InHistoryIff(s, history);
    LatestIsLast(s.stats, history, Tally(Universe(symbols)));
    if history != [] {
      assert history[|history| - 1].date in s.stats;
    }
  }

  /** What the refresh method leaves in the two tables is a read followed at once by a record. */
  lemma RefreshIsReadThenRecord(s: State, who: Reader, symbols: seq<SymbolQuote>, read: seq<DailyMarket>, rows: seq<SymbolRow>,
                                stats: Table, snapshots: Snapshots)
    requires IsLatest(read, s.stats, HISTORY_DAYS) && multiset(rows) == multiset(Universe(symbols))
    requires stats == if Records(read, symbols, s.now) then s.stats[UtcDay(s.now) := Tally(Universe(symbols))] else s.stats
    requires snapshots == if Records(read, symbols, s.now) && DistinctNames(rows)
                          then Stored(s.snapshots, UtcDay(s.now), rows) else s.snapshots
    ensures var s1 := Next(s, Read(who, read));
            var s2 := Next(s1, Record(who, symbols, rows, true));
            && Possible(s, Read(who, read)) && Possible(s1, Record(who, symbols, rows, true))
            && s2.stats == stats && s2.snapshots == snapshots && s2.backfill == s.backfill && s2.now == s.now
  {
  }

  // ---------- the invariant over runs ----------

  lemma TickKeepsInv(s: State, minutes: nat)
    requires Inv(s)
    ensures Inv(Next(s, Tick(minutes)))
  {
    assert UtcDay(s.now) <= UtcDay(s.now + minutes);
  }

  lemma ReadKeepsInv(s: State, who: Reader, history: seq<DailyMarket>)
    requires Inv(s) && IsLatest(history, s.stats, HISTORY_DAYS)
    ensures Inv(Next(s, Read(who, history)))
  {
    InHistoryIff(s, history);
  }

  lemma NewDayKeepsInv(s: State, s': State, r: DailyMarket)
    requires Inv(s) && r.date == UtcDay(s.now) && r.date !in s.stats && r.counts.total > 0
    requires s'.stats == s.stats[r.date := r.counts] && s'.log == s.log + [r] && s'.now == s.now && s'.backfill == s.backfill
    requires s'.snapshots == s.snapshots
             || (r.date in s'.snapshots && Tally(s'.snapshots[r.date]) == r.counts && s'.snapshots - {r.date} == s.snapshots)
    ensures Inv(s')
  {
    assert forall d <- s.stats :: d < r.date;
    assert forall i :: 0 <= i < |s.log| ==> s.log[i].date < r.date;
    DatesExtended(s.log, r);
    forall d | d in s'.snapshots && d != r.date ensures d in s.snapshots && s'.snapshots[d] == s.snapshots[d] {
      assert d in s'.snapshots - {r.date};
    }
  }

  /** A fresh record keeps the invariant. */
  lemma RefreshKeepsInv(s: State, who: Reader, symbols: seq<SymbolQuote>, rows: seq<SymbolRow>, kept: bool)
    requires var step := Record(who, symbols, rows, kept); Inv(s) && Possible(s, step) && Fresh(s, step)
    ensures Inv(Next(s, Record(who, symbols, rows, kept)))
  {
    if Recording(s, Record(who, symbols, rows, kept)) {
      RowsReproduceDay(symbols, rows);
      NotInHistoryTotals(s.reading[who], symbols, s.now);
      assert UtcDay(s.now) !in s.snapshots;
      NewDayKeepsInv(s, Next(s, Record(who, symbols, rows, kept)), DailyMarket(UtcDay(s.now), Tally(Universe(symbols))));
    }
  }

  lemma NotInHistoryTotals(history: seq<DailyMarket>, symbols: seq<SymbolQuote>, now: int)
    requires Records(history, symbols, now)
    ensures Tally(Universe(symbols)).total > 0
  {
  }

  /** So does every single write of a backfill that started any number of refreshes earlier. */
  lemma FinishKeepsInv(s: State, d: Day, c: Counts)
    requires Inv(s) && Possible(s, WriteDay(d, c))
    ensures Inv(Next(s, WriteDay(d, c)))
  {
    if s.backfill.Running? {
      assert d !in s.snapshots;
    }
  }

  lemma StartKeepsInv(s: State)
    requires Inv(s)
    ensures Inv(Next(s, StartBackfill))
  {
  }

  /** The sync script changes nothing in a state with the invariant, whenever it runs. */
  lemma SyncIsNoOp(s: State)
    requires SnapshotsAgree(s)
    ensures Next(s, Sync) == s
  {
    var d := TehranDay(s.now);
    if d in s.snapshots {
      assert s.stats[d := s.stats[d]] == s.stats;
    }
  }

  lemma ReopenKeepsTable(s: State)
    requires DatesPast(s)
    ensures Next(s, Reopen).stats == s.stats
  {
    var t := WithoutEmptyDays(s.stats);
    forall d | d in s.stats ensures d in t && t[d] == s.stats[d] {
      assert s.stats[d].total > 0;
    }
    assert t.Keys == s.stats.Keys;
    assert t == s.stats;
  }

  lemma StepKeepsInv(s: State, step: Step)
    requires Inv(s) && Possible(s, step) && Fresh(s, step)
    ensures Inv(Next(s, step))
  {
    match step
    case Tick(m) => TickKeepsInv(s, m);
    case Read(who, history) => ReadKeepsInv(s, who, history);
    case Record(who, symbols, rows, kept) => RefreshKeepsInv(s, who, symbols, rows, kept);
    case CheckGate =>
    case StartBackfill => StartKeepsInv(s);
    case WriteDay(d, c) => FinishKeepsInv(s, d, c);
    case EndBackfill =>
    case Sync => SyncIsNoOp(s);
    case Reopen => ReopenKeepsTable(s);
  }

  lemma {:induction false} RunKeepsInv(s: State, steps: seq<Step>)
    requires Inv(s) && PossibleRun(s, steps) && FreshRun(s, steps)
    ensures Inv(Run(s, steps))
    decreases |steps|
  {
    if steps != [] {
      StepKeepsInv(s, steps[0]);
      RunKeepsInv(Next(s, steps[0]), steps[1..]);
    }
  }

  lemma {:induction false} LogGrows(s: State, steps: seq<Step>)
    ensures s.log <= Run(s, steps).log
    decreases |steps|
  {
    if steps != [] {
      assert s.log <= Next(s, steps[0]).log;
      LogGrows(Next(s, steps[0]), steps[1..]);
    }
  }

  lemma SnapshotStep(s: State, step: Step, d: Day)
    requires Inv(s) && Possible(s, step) && Fresh(s, step) && d in s.snapshots
    ensures d in Next(s, step).snapshots && Next(s, step).snapshots[d] == s.snapshots[d]
  {
  }

  lemma {:induction false} SnapshotsGrow(s: State, steps: seq<Step>, d: Day)
    requires Inv(s) && PossibleRun(s, steps) && FreshRun(s, steps) && d in s.snapshots
    ensures d in Run(s, steps).snapshots && Run(s, steps).snapshots[d] == s.snapshots[d]
    decreases |steps|
  {
    if steps != [] {
      StepKeepsInv(s, steps[0]);
      SnapshotStep(s, steps[0], d);
      SnapshotsGrow(Next(s, steps[0]), steps[1..], d);
    }
  }

  /** Whatever was stored of a snapshot day stays as it is. */
  lemma SnapshotDayKept(s: State, steps: seq<Step>, d: Day)
    requires Inv(s) && PossibleRun(s, steps) && FreshRun(s, steps) && d in s.snapshots
    ensures d in Run(s, steps).stats && Run(s, steps).stats[d] == s.stats[d]
  {
    SnapshotsGrow(s, steps, d);
    RunKeepsInv(s, steps);
  }

  /**
   Frozen days stay frozen.  In a run of fresh records, whatever a refresh has recorded by
   some point is never recorded again and stays stored; when its symbol rows were stored
   too, its counts never change.
   */
  lemma FrozenDaysStayFrozen(s: State, before: seq<Step>, after: seq<Step>, i: nat)
    requires Init(s) && PossibleRun(s, before) && FreshRun(s, before)
    requires PossibleRun(Run(s, before), after) && FreshRun(Run(s, before), after)
    requires i < |Run(s, before).log|
    ensures var s1 := Run(s, before);
            var s2 := Run(s1, after);
            var r := s1.log[i];
            && i < |s2.log| && s2.log[i] == r && r.date in s2.stats
            && (forall j :: 0 <= j < |s2.log| && j != i ==> s2.log[j].date != r.date)
            && (r.date in s1.snapshots ==> s2.stats[r.date] == r.counts)
  {
    assert Inv(s);
    RunKeepsInv(s, before);
    var s1 := Run(s, before);
    RunKeepsInv(s1, after);
    LogGrows(s1, after);
    if s1.log[i].date in s1.snapshots {
      SnapshotDayKept(s1, after, s1.log[i].date);
    }
  }

  /** In every reachable state the stored rows of a snapshot day count up to its daily row. */
  lemma SnapshotsAlwaysAgree(s: State, steps: seq<Step>, d: Day)
    requires Init(s) && PossibleRun(s, steps) && FreshRun(s, steps) && d in Run(s, steps).snapshots
    ensures var s' := Run(s, steps); d in s'.stats && s'.stats[d] == Tally(s'.snapshots[d]) && Next(s', Sync) == s'
  {
    assert Inv(s);
    RunKeepsInv(s, steps);
    SyncIsNoOp(Run(s, steps));
  }

  // ---------- a backfill as a run of writes ----------

  lemma WriteFirst(t: Table, days: Table, written: set<Day>, d: Day)
    requires d in days && d in written
    ensures Written(t[d := days[d]], days, written - {d}) == Written(t, days, written)
  {
  }

  /** Writing plausible days that are not preserved is a possible run, in any order, with nothing else touched. */
  lemma {:induction false} WritesAreARun(s: State, days: Table, written: set<Day>) returns (steps: seq<Step>)
    requires s.backfill.Running? && written <= days.Keys - s.backfill.preserve
    requires forall d <- written :: Plausible(d, days[d], s.backfill.start)
    ensures PossibleRun(s, steps) && FreshRun(s, steps)
    ensures Run(s, steps) == s.(stats := Written(s.stats, days, written))
    decreases |written|
  {
    if written == {} {
      steps := [];
      WrittenNothing(s.stats, days);
    } else {
      var d := Pick(written);
      var step := WriteDay(d, days[d]);
      var rest := WritesAreARun(Next(s, step), days, written - {d});
      WriteFirst(s.stats, days, written, d);
      steps := [step] + rest;
      assert steps[1..] == rest;
    }
  }

  /**
   What the backfill method does to a table is a possible run of the protocol: its writes
   are plausible days of the window, whatever the service answers for it.
   */
  lemma BackfillIsARun(s: State, after: Table, days: Table, written: set<Day>, names: seq<string>, service: Backfill.Service,
                       cancelAt: nat) returns (steps: seq<Step>)
    requires s.backfill.Running? && ServiceWithin(names, service, s.backfill.start - LOOKBACK_DAYS, s.backfill.start)
    requires Backfilled(s.stats, after, days, written, names, service, s.backfill.start, s.backfill.preserve, cancelAt)
    ensures PossibleRun(s, steps) && FreshRun(s, steps)
    ensures Run(s, steps) == s.(stats := after)
  {
    forall d | d in written ensures Plausible(d, days[d], s.backfill.start) {
      SubsetSize({d}, written);
      TotalsArePlausible(days, names, service, s.backfill.start, d);
    }
    steps := WritesAreARun(s, days, written);
  }

  // ---------- exactly which days are frozen ----------

  /** No continuation changes what is stored of day d. */
  ghost predicate Frozen(s: State, d: Day)
    requires d in s.stats
  {
    forall steps :: PossibleRun(s, steps) && FreshRun(s, steps) ==> d in Run(s, steps).stats && Run(s, steps).stats[d] == s.stats[d]
  }

  /**
   No backfill, running or to come, reaches back to day d: it lies too far back, or the gate
   stays closed as long as it does not, because enough days are stored in the latest window
   from which a backfill could still reach it.
   */
  ghost predicate Sheltered(s: State, d: Day) {
    match s.backfill
    case None =>
      || d < UtcDay(s.now) - LOOKBACK_DAYS
      || |Window(s.stats.Keys, d + LOOKBACK_DAYS - GATE_WINDOW_DAYS, d + LOOKBACK_DAYS)| >= REQUIRED_DAYS
    case Gated => d < UtcDay(s.now) - LOOKBACK_DAYS
    case Running(start, _) => d < start - LOOKBACK_DAYS
  }

  lemma WindowGrows(a: set<Day>, b: set<Day>, from: Day, to: Day)
    requires a <= b
    ensures |Window(a, from, to)| <= |Window(b, from, to)|
  {
    SubsetSize(Window(a, from, to), Window(b, from, to));
  }

  /** While a backfill could still reach d, its gate is closed. */
  lemma GateStaysClosed(s: State, d: Day)
    requires DatesPast(s) && d >= UtcDay(s.now) - LOOKBACK_DAYS
    requires |Window(s.stats.Keys, d + LOOKBACK_DAYS - GATE_WINDOW_DAYS, d + LOOKBACK_DAYS)| >= REQUIRED_DAYS
    ensures !GateOpen(Window(s.stats.Keys, UtcDay(s.now) - GATE_WINDOW_DAYS, UtcDay(s.now)))
  {
    SubsetSize(Window(s.stats.Keys, d + LOOKBACK_DAYS - GATE_WINDOW_DAYS, d + LOOKBACK_DAYS),
               Window(s.stats.Keys, UtcDay(s.now) - GATE_WINDOW_DAYS, UtcDay(s.now)));
  }

  lemma KeysGrow(s: State, step: Step)
    requires Inv(s)
    ensures s.stats.Keys <= Next(s, step).stats.Keys && UtcDay(s.now) <= UtcDay(Next(s, step).now)
  {
    if step.Tick? {
      assert UtcDay(s.now) <= UtcDay(s.now + step.minutes);
    } else if step.Reopen? {
      ReopenKeepsTable(s);
    }
  }

  lemma ShelteredStep(s: State, step: Step, d: Day)
    requires Inv(s) && Possible(s, step) && d in s.stats && Sheltered(s, d)
    ensures Sheltered(Next(s, step), d)
  {
    KeysGrow(s, step);
    WindowGrows(s.stats.Keys, Next(s, step).stats.Keys, d + LOOKBACK_DAYS - GATE_WINDOW_DAYS, d + LOOKBACK_DAYS);
    if s.backfill.None? && d >= UtcDay(s.now) - LOOKBACK_DAYS {
      GateStaysClosed(s, d);
    }
  }

  lemma ShelteredValue(s: State, step: Step, d: Day)
    requires Inv(s) && Possible(s, step) && Fresh(s, step) && d in s.stats && Sheltered(s, d)
    ensures d in Next(s, step).stats && Next(s, step).stats[d] == s.stats[d]
  {
    if step.Sync? {
      SyncIsNoOp(s);
    } else if step.Reopen? {
      ReopenKeepsTable(s);
    }
  }

  lemma {:induction false} ShelteredDayKept(s: State, steps: seq<Step>, d: Day)
    requires Inv(s) && PossibleRun(s, steps) && FreshRun(s, steps) && d in s.stats && Sheltered(s, d)
    ensures d in Run(s, steps).stats && Run(s, steps).stats[d] == s.stats[d]
    decreases |steps|
  {
    if steps != [] {
      StepKeepsInv(s, steps[0]);
      ShelteredStep(s, steps[0], d);
      ShelteredValue(s, steps[0], d);
      ShelteredDayKept(Next(s, steps[0]), steps[1..], d);
    }
  }

  lemma TwoSteps(s: State, a: Step, b: Step)
    ensures var s1 := Next(s, a);
            && Run(s, [a, b]) == Next(s1, b)
            && (PossibleRun(s, [a, b]) <==> Possible(s, a) && Possible(s1, b))
            && (FreshRun(s, [a, b]) <==> Fresh(s, a) && Fresh(s1, b))
  {
    var s1 := Next(s, a);
    assert [a, b][1..] == [b] && [b][1..] == [];
    assert Run(s1, [b]) == Run(Next(s1, b), []);
    assert PossibleRun(s1, [b]) <==> Possible(s1, b) && PossibleRun(Next(s1, b), []);
    assert FreshRun(s1, [b]) <==> Fresh(s1, b) && FreshRun(Next(s1, b), []);
  }

  lemma ThreeSteps(s: State, a: Step, b: Step, c: Step)
    ensures var s1 := Next(s, a);
            var s2 := Next(s1, b);
            && Run(s, [a, b, c]) == Next(s2, c)
            && (PossibleRun(s, [a, b, c]) <==> Possible(s, a) && Possible(s1, b) && Possible(s2, c))
            && (FreshRun(s, [a, b, c]) <==> Fresh(s, a) && Fresh(s1, b) && Fresh(s2, c))
  {
    assert [a, b, c][1..] == [b, c];
    TwoSteps(Next(s, a), b, c);
  }

  lemma FourSteps(s: State, a: Step, b: Step, c: Step, d: Step)
    ensures var s1 := Next(s, a);
            var s2 := Next(s1, b);
            var s3 := Next(s2, c);
            && Run(s, [a, b, c, d]) == Next(s3, d)
            && (PossibleRun(s, [a, b, c, d]) <==> Possible(s, a) && Possible(s1, b) && Possible(s2, c) && Possible(s3, d))
            && (FreshRun(s, [a, b, c, d]) <==> Fresh(s, a) && Fresh(s1, b) && Fresh(s2, c) && Fresh(s3, d))
  {
    assert [a, b, c, d][1..] == [b, c, d];
    ThreeSteps(Next(s, a), b, c, d);
  }

  lemma DaysLater(now: int, days: int)
    ensures UtcDay(now + days * MINUTES_PER_DAY) == UtcDay(now) + days
  {
  }

  /**
   A stored day without symbol rows is lost to the backfill of the last day that can reach
   it, unless enough days are stored by then to keep the gate closed.
   */
  lemma UnprotectedDayIsLost(s: State, d: Day) returns (steps: seq<Step>)
    requires Inv(s) && s.backfill.None? && d in s.stats && d !in s.snapshots && !Sheltered(s, d)
    ensures PossibleRun(s, steps) && FreshRun(s, steps)
    ensures d in Run(s, steps).stats && Run(s, steps).stats[d] != s.stats[d]
  {
    var c := Counts(0, 0, s.stats[d].total + 1);
    var days := d + LOOKBACK_DAYS - UtcDay(s.now);
    var wait := Tick(days * MINUTES_PER_DAY);
    steps := [wait, CheckGate, StartBackfill, WriteDay(d, c)];
    DaysLater(s.now, days);
    FourSteps(s, wait, CheckGate, StartBackfill, WriteDay(d, c));
  }

  /**
   Between backfills, a stored day is frozen exactly when its symbol rows are stored, when it
   lies too far back for any backfill, or when at least ten days are stored in the 16 days up
   to the last day on which a backfill could reach it, so that the gate keeps it out.
   */
  lemma FrozenIff(s: State, d: Day)
    requires Inv(s) && s.backfill.None? && d in s.stats
    ensures Frozen(s, d) <==>
              || d in s.snapshots
              || d < s.now / 1440 - 30
              || |set e | e in s.stats && d + 14 <= e <= d + 30| >= 10
  {
    if d in s.snapshots {
      SnapshotIsFrozen(s, d);
    } else if Sheltered(s, d) {
      ShelteredIsFrozen(s, d);
    } else {
      var steps := UnprotectedDayIsLost(s, d);
    }
  }

  lemma SnapshotIsFrozen(s: State, d: Day)
    requires Inv(s) && d in s.snapshots
    ensures d in s.stats && Frozen(s, d)
  {
    forall steps | PossibleRun(s, steps) && FreshRun(s, steps)
      ensures d in Run(s, steps).stats && Run(s, steps).stats[d] == s.stats[d]
    {
      SnapshotDayKept(s, steps, d);
    }
  }

  lemma ShelteredIsFrozen(s: State, d: Day)
    requires Inv(s) && d in s.stats && Sheltered(s, d)
    ensures Frozen(s, d)
  {
    forall steps | PossibleRun(s, steps) && FreshRun(s, steps)
      ensures d in Run(s, steps).stats && Run(s, steps).stats[d] == s.stats[d]
    {
      ShelteredDayKept(s, steps, d);
    }
  }

  /**
   Protection rests on the snapshot alone: the writes of one backfill that would change a
   day inside its window leave it alone exactly when the day has stored rows.
   */
  lemma BackfillKeepsDayIff(t: Table, snapshots: Snapshots, days: Table, today: Day, d: Day)
    requires d in t && d in days && days[d] != t[d] && today - 30 <= d <= today
    ensures Written(t, days, days.Keys - Window(snapshots.Keys, today - LOOKBACK_DAYS, today))[d] == t[d] <==> d in snapshots
  {
  }

  // ---------- overlapping refreshes ----------

  ghost predicate RecordedOnce(log: seq<DailyMarket>) {
    forall i, j :: 0 <= i < j < |log| ==> log[i].date != log[j].date
  }

  lemma StaleRecordRepeats(s: State, step: Step)
    requires Inv(s) && !Fresh(s, step)
    ensures !RecordedOnce(Next(s, step).log)
  {
    var today, log' := UtcDay(s.now), Next(s, step).log;
    assert today in Dates(s.log);
    var r :| r in s.log && r.date == today;
    var i :| 0 <= i < |s.log| && s.log[i] == r;
    assert log'[i].date == log'[|s.log|].date;
  }

  lemma {:induction false} RecordedOnceIffFresh(s: State, steps: seq<Step>)
    requires Inv(s) && PossibleRun(s, steps)
    ensures RecordedOnce(Run(s, steps).log) <==> FreshRun(s, steps)
    decreases |steps|
  {
    if steps != [] {
      if Fresh(s, steps[0]) {
        StepKeepsInv(s, steps[0]);
        RecordedOnceIffFresh(Next(s, steps[0]), steps[1..]);
      } else {
        StaleRecordRepeats(s, steps[0]);
        LogGrows(Next(s, steps[0]), steps[1..]);
        RepeatsStay(Next(s, steps[0]).log, Run(s, steps).log);
      }
    }
  }

  lemma RepeatsStay(a: seq<DailyMarket>, b: seq<DailyMarket>)
    requires a <= b && !RecordedOnce(a)
    ensures !RecordedOnce(b)
  {
    var i, j :| 0 <= i < j < |a| && a[i].date == a[j].date;
    assert b[i] == a[i] && b[j] == a[j];
  }

  /**
   Every day is recorded at most once exactly in the runs in which no refresh records a day
   that another has recorded since it read its history.
   */
  lemma RecordedOnceIff(s: State, steps: seq<Step>)
    requires Init(s) && PossibleRun(s, steps)
    ensures RecordedOnce(Run(s, steps).log) <==> FreshRun(s, steps)
  {
    assert Inv(s);
    RecordedOnceIffFresh(s, steps);
  }

  /** Steps among which nobody records and this refresh does not read again. */
  ghost predicate Undisturbed(steps: seq<Step>, who: Reader) {
    forall i :: 0 <= i < |steps| ==> !steps[i].Record? && (steps[i].Read? ==> steps[i].who != who)
  }

  ghost predicate Seen(s: State, who: Reader) {
    who in s.reading && UtcDay(s.now) in s.stats ==> InHistory(s.reading[who], UtcDay(s.now))
  }

  lemma SeenStep(s: State, step: Step, who: Reader)
    requires Inv(s) && Possible(s, step) && Undisturbed([step], who) && Seen(s, who)
    ensures Inv(Next(s, step)) && Seen(Next(s, step), who)
  {
    assert [step][0] == step;
    StepKeepsInv(s, step);
    if step.Tick? {
      assert UtcDay(s.now) <= UtcDay(s.now + step.minutes);
    } else if step.Sync? {
      SyncIsNoOp(s);
    } else if step.Reopen? {
      ReopenKeepsTable(s);
    }
  }

  lemma {:induction false} StaysSeen(s: State, steps: seq<Step>, who: Reader)
    requires Inv(s) && PossibleRun(s, steps) && Undisturbed(steps, who) && Seen(s, who)
    ensures Seen(Run(s, steps), who)
    decreases |steps|
  {
    if steps != [] {
      assert Undisturbed([steps[0]], who);
      SeenStep(s, steps[0], who);
      StaysSeen(Next(s, steps[0]), steps[1..], who);
    }
  }

  /** A refresh is fresh whenever nobody records between its read and its record, whatever else happens and however long it takes. */
  lemma UndisturbedRefreshIsFresh(s: State, who: Reader, history: seq<DailyMarket>, between: seq<Step>,
                                  symbols: seq<SymbolQuote>, rows: seq<SymbolRow>, kept: bool)
    requires Inv(s) && Possible(s, Read(who, history)) && Undisturbed(between, who)
    requires PossibleRun(Next(s, Read(who, history)), between)
    ensures Fresh(Run(Next(s, Read(who, history)), between), Record(who, symbols, rows, kept))
  {
    ReadKeepsInv(s, who, history);
    InHistoryIff(s, history);
    StaysSeen(Next(s, Read(who, history)), between, who);
  }

  lemma {:induction false} NowGrows(s: State, steps: seq<Step>)
    ensures s.now <= Run(s, steps).now && UtcDay(s.now) <= UtcDay(Run(s, steps).now)
    decreases |steps|
  {
    if steps != [] {
      NowGrows(Next(s, steps[0]), steps[1..]);
    }
  }

  /** What concerns today: its rows and the log. */
  ghost predicate SameToday(s: State, s': State) {
    && UtcDay(s'.now) == UtcDay(s.now) && s'.log == s.log && s'.snapshots == s.snapshots
    && UtcDay(s.now) in s.stats && UtcDay(s.now) in s'.stats && s'.stats[UtcDay(s.now)] == s.stats[UtcDay(s.now)]
  }

  lemma TodayStep(s: State, step: Step)
    requires Inv(s) && Possible(s, step) && !step.Record? && UtcDay(s.now) in s.stats
    requires UtcDay(Next(s, step).now) == UtcDay(s.now)
    ensures SameToday(s, Next(s, step))
  {
    if step.Sync? {
      SyncIsNoOp(s);
    } else if step.Reopen? {
      ReopenKeepsTable(s);
    }
  }

  /** Nothing but a record changes what is stored of today. */
  lemma {:induction false} TodayKept(s: State, steps: seq<Step>)
    requires Inv(s) && PossibleRun(s, steps) && UtcDay(s.now) in s.stats
    requires forall i :: 0 <= i < |steps| ==> !steps[i].Record?
    requires UtcDay(Run(s, steps).now) == UtcDay(s.now)
    ensures Inv(Run(s, steps)) && SameToday(s, Run(s, steps))
    decreases |steps|
  {
    if steps != [] {
      var s1 := Next(s, steps[0]);
      StepKeepsInv(s, steps[0]);
      NowGrows(s, [steps[0]]);
      assert Run(s, [steps[0]]) == Run(s1, []);
      NowGrows(s1, steps[1..]);
      TodayStep(s, steps[0]);
      TodayKept(s1, steps[1..]);
    }
  }

  /** A fresh record leaves the day with its counts, and with its symbol rows if those were stored. */
  lemma FirstOfTwo(s: State, i: Reader, a: seq<SymbolQuote>, rows: seq<SymbolRow>, kept: bool)
    requires var step := Record(i, a, rows, kept); Inv(s) && Possible(s, step) && Recording(s, step) && Fresh(s, step)
    ensures var s1, day := Next(s, Record(i, a, rows, kept)), UtcDay(s.now);
            && Inv(s1) && s1.now == s.now && day in s1.stats && s1.stats[day] == Tally(Universe(a)) == Tally(rows)
            && (if kept && DistinctNames(rows) then day in s1.snapshots && s1.snapshots[day] == rows else day !in s1.snapshots)
  {
    RefreshKeepsInv(s, i, a, rows, kept);
    RowsReproduceDay(a, rows);
    NotInHistoryTotals(s.reading[i], a, s.now);
    assert UtcDay(s.now) !in s.snapshots;
  }

  /** A later record of a day already stored. */
  lemma SecondOfTwo(s: State, j: Reader, b: seq<SymbolQuote>, rowsB: seq<SymbolRow>, keptB: bool, rowsA: seq<SymbolRow>, storedA: bool)
    requires var step := Record(j, b, rowsB, keptB); Inv(s) && Possible(s, step) && Recording(s, step) && !Fresh(s, step)
    requires s.stats[UtcDay(s.now)] == Tally(rowsA)
    requires if storedA then UtcDay(s.now) in s.snapshots && s.snapshots[UtcDay(s.now)] == rowsA else UtcDay(s.now) !in s.snapshots
    ensures var s', day := Next(s, Record(j, b, rowsB, keptB)), UtcDay(s.now);
            && !RecordedOnce(s'.log) && s'.stats == s.stats[day := Tally(Universe(b))]
            && (SnapshotsAgree(s') <==> (keptB && DistinctNames(rowsB)) || !storedA || Tally(rowsA) == Tally(Universe(b)))
  {
    StaleRecordRepeats(s, Record(j, b, rowsB, keptB));
    RowsReproduceDay(b, rowsB);
    NotInHistoryTotals(s.reading[j], b, s.now);
    OverlapSnapshots(s, Next(s, Record(j, b, rowsB, keptB)), rowsA, rowsB, storedA, keptB && DistinctNames(rowsB));
  }

  /**
   When a refresh has read before another records, and itself records later that day, the
   later row replaces the earlier one, whatever else happens between the two records.  The
   day keeps its counts exactly when both have seen the same market, and its symbol rows
   agree with it unless only the earlier ones were stored.
   */
  lemma OverlapKeepsDayIff(s: State, i: Reader, j: Reader, a: seq<SymbolQuote>, b: seq<SymbolQuote>, rowsA: seq<SymbolRow>,
                           rowsB: seq<SymbolRow>, keptA: bool, keptB: bool, between: seq<Step>)
    requires var first := Record(i, a, rowsA, keptA); Inv(s) && Possible(s, first) && Recording(s, first) && Fresh(s, first)
    requires PossibleRun(Next(s, Record(i, a, rowsA, keptA)), between) && Undisturbed(between, j)
    requires var s1' := Run(Next(s, Record(i, a, rowsA, keptA)), between);
      UtcDay(s1'.now) == UtcDay(s.now) && Possible(s1', Record(j, b, rowsB, keptB)) && Recording(s1', Record(j, b, rowsB, keptB))
    ensures var day := UtcDay(s.now);
            var s1 := Next(s, Record(i, a, rowsA, keptA));
            var s1' := Run(s1, between);
            var s2 := Next(s1', Record(j, b, rowsB, keptB));
            && !RecordedOnce(s2.log)
            && s1.stats[day] == Tally(Universe(a)) && s2.stats == s1'.stats[day := Tally(Universe(b))]
            && (s2.stats[day] == s1.stats[day] <==> Tally(Universe(a)) == Tally(Universe(b)))
            && (SnapshotsAgree(s2) <==>
                  (keptB && DistinctNames(rowsB)) || !(keptA && DistinctNames(rowsA)) || Tally(Universe(a)) == Tally(Universe(b)))
  {
    var s1 := Next(s, Record(i, a, rowsA, keptA));
    FirstOfTwo(s, i, a, rowsA, keptA);
    TodayKept(s1, between);
    SecondOfTwo(Run(s1, between), j, b, rowsB, keptB, rowsA, keptA && DistinctNames(rowsA));
  }

  lemma OverlapSnapshots(s: State, s': State, rowsA: seq<SymbolRow>, rowsB: seq<SymbolRow>, storedA: bool, storedB: bool)
    requires var day := UtcDay(s.now);
      && SnapshotsAgree(s) && Tally(rowsB).total > 0
      && (if storedA then day in s.snapshots && s.snapshots[day] == rowsA else day !in s.snapshots)
      && s'.stats == s.stats[day := Tally(rowsB)]
      && s'.snapshots == if storedB then Stored(s.snapshots, day, rowsB) else s.snapshots
    ensures SnapshotsAgree(s') <==> storedB || !storedA || Tally(rowsA) == Tally(rowsB)
  {
    var day := UtcDay(s.now);
    forall d | d in s'.snapshots && d != day ensures d in s'.stats && s'.stats[d] == Tally(s'.snapshots[d]) {
      assert d in s.snapshots;
    }
  }

  // ---------- does a record repeat the latest stored day? ----------

  /** The latest stored day, if any. */
  datatype Newest = Nothing | Newest(row: DailyMarket)

  ghost predicate IsNewest(t: Table, n: Newest) {
    match n
    case Nothing => t == map[]
    case Newest(r) => r.date in t && t[r.date] == r.counts && forall e <- t :: e <= r.date
  }

  function NewestOf(history: seq<DailyMarket>): Newest {
    if history == [] then Nothing else Newest(history[|history| - 1])
  }

  /** A row that was written, if it is not older. */
  function Later(n: Newest, r: DailyMarket): Newest {
    if n.Newest? && r.date < n.row.date then n else Newest(r)
  }

  /** The latest day after a run, from the latest day before it and the rows that the run records and writes. */
  function NewestAfter(s: State, steps: seq<Step>, n: Newest): Newest
    decreases |steps|
  {
    if steps == [] then n
    else
      var step := steps[0];
      var n' :=
        if Recording(s, step) then Later(n, DailyMarket(UtcDay(s.now), Tally(Universe(step.symbols))))
        else if step.WriteDay? && s.backfill.Running? then Later(n, DailyMarket(step.date, step.counts))
        else n;
      NewestAfter(Next(s, step), steps[1..], n')
  }

  lemma NewestUpdate(t: Table, n: Newest, r: DailyMarket)
    requires IsNewest(t, n)
    ensures IsNewest(t[r.date := r.counts], Later(n, r))
  {
  }

  lemma NewestStep(s: State, step: Step, n: Newest)
    requires Inv(s) && Possible(s, step) && IsNewest(s.stats, n)
    ensures NewestAfter(s, [step], n) == NewestAfter(Next(s, step), [], NewestAfter(s, [step], n))
    ensures IsNewest(Next(s, step).stats, NewestAfter(s, [step], n))
  {
    assert [step][1..] == [];
    if step.WriteDay? {
      NewestUpdate(s.stats, n, DailyMarket(step.date, step.counts));
    } else if step.Record? {
      NewestUpdate(s.stats, n, DailyMarket(UtcDay(s.now), Tally(Universe(step.symbols))));
    } else if step.Sync? {
      SyncIsNoOp(s);
    } else if step.Reopen? {
      ReopenKeepsTable(s);
    }
  }

  lemma {:induction false} NewestTracks(s: State, steps: seq<Step>, n: Newest)
    requires Inv(s) && PossibleRun(s, steps) && FreshRun(s, steps) && IsNewest(s.stats, n)
    ensures IsNewest(Run(s, steps).stats, NewestAfter(s, steps, n))
    decreases |steps|
  {
    if steps != [] {
      var n' := NewestAfter(s, [steps[0]], n);
      NewestStep(s, steps[0], n);
      assert [steps[0]][1..] == [];
      StepKeepsInv(s, steps[0]);
      NewestTracks(Next(s, steps[0]), steps[1..], n');
    }
  }

  lemma NewestRepeats(t: Table, n: Newest, c: Counts)
    requires IsNewest(t, n)
    ensures RepeatsLatest(t, c) <==> n.Newest? && n.row.counts == c
  {
  }

  lemma HistoryIsNewest(t: Table, history: seq<DailyMarket>)
    requires IsLatest(history, t, HISTORY_DAYS)
    ensures IsNewest(t, NewestOf(history))
  {
    if history == [] {
      assert |t| == 0;
    } else {
      LastIsNewest(history, t, HISTORY_DAYS);
    }
  }

  /** Steps among which this refresh does not read again. */
  ghost predicate NoReread(steps: seq<Step>, who: Reader) {
    forall i :: 0 <= i < |steps| && steps[i].Read? ==> steps[i].who != who
  }

  lemma {:induction false} HistoryStays(s: State, steps: seq<Step>, who: Reader, history: seq<DailyMarket>)
    requires who in s.reading ==> s.reading[who] == history
    requires NoReread(steps, who)
    ensures who in Run(s, steps).reading ==> Run(s, steps).reading[who] == history
    decreases |steps|
  {
    if steps != [] {
      assert steps[0].Read? ==> steps[0].who != who;
      HistoryStays(Next(s, steps[0]), steps[1..], who, history);
    }
  }

  /**
   A refresh compares with the latest day it has read.  After any run between its read and
   its record, what it records repeats the day that is then the latest exactly when the rows
   recorded or written meanwhile have made a row of those very counts the latest.
   */
  lemma RecordRepeatsIff(s: State, who: Reader, history: seq<DailyMarket>, between: seq<Step>,
                         symbols: seq<SymbolQuote>, rows: seq<SymbolRow>, kept: bool)
    requires Inv(s) && Possible(s, Read(who, history)) && NoReread(between, who)
    requires var s1 := Next(s, Read(who, history)); PossibleRun(s1, between) && FreshRun(s1, between)
    requires Recording(Run(Next(s, Read(who, history)), between), Record(who, symbols, rows, kept))
    ensures var s1, c := Next(s, Read(who, history)), Tally(Universe(symbols));
            var before, after := NewestOf(history), NewestAfter(s1, between, NewestOf(history));
            && (before.Newest? ==> before.row.counts != c)
            && (RepeatsLatest(Run(s1, between).stats, c) <==> after.Newest? && after.row.counts == c)
            && (RepeatsLatest(Run(s1, between).stats, c) ==> after != before)
  {
    var s1 := Next(s, Read(who, history));
    ReadKeepsInv(s, who, history);
    HistoryIsNewest(s.stats, history);
    NewestTracks(s1, between, NewestOf(history));
    HistoryStays(s1, between, who, history);
    NewestRepeats(Run(s1, between).stats, NewestAfter(s1, between, NewestOf(history)), Tally(Universe(symbols)));
    RecordsDiffers(history, symbols, Run(s1, between).now);
  }

  lemma RecordsDiffers(history: seq<DailyMarket>, symbols: seq<SymbolQuote>, now: int)
    requires Records(history, symbols, now)
    ensures history != [] ==> history[|history| - 1].counts != Tally(Universe(symbols))
  {
  }

  // ---------- merging in memory ----------

  /**
   After recording, the indicators of the history merged in memory are those of a fresh
   read of the 30 latest days.
   */
  lemma MergedHistoryEvaluatesLikeReread(s: State, symbols: seq<SymbolQuote>, history: seq<DailyMarket>, reread: seq<DailyMarket>,
                                         kind: Kind, th: Thresholds, r: Outcome<Indicator>)
    requires DatesPast(s) && IsLatest(history, s.stats, HISTORY_DAYS) && Records(history, symbols, s.now)
    requires IsLatest(reread, s.stats[UtcDay(s.now) := Tally(Universe(symbols))], HISTORY_DAYS)
    ensures var merged := SetOrAppend(history, DailyMarket(UtcDay(s.now), Tally(Universe(symbols))));
            Evaluates(kind, th, merged, r) <==> Evaluates(kind, th, reread, r)
  {
    var today, c := UtcDay(s.now), Tally(Universe(symbols));
    var rec := DailyMarket(today, c);
    RecordedDayIsNew(s, symbols, history);
    InHistoryIff(s, history);
    var merged := history + [rec];
    assert SetOrAppend(history, rec) == merged;
    IndexOfMissing(history, today);
    UpsertTodayRefinesIff(history, s.stats, today, c);
    LatestIsUnique(reread, Last(merged, HISTORY_DAYS), s.stats[today := c], HISTORY_DAYS);
    if |merged| > HISTORY_DAYS {
      var older := merged[..|merged| - HISTORY_DAYS];
      assert merged == older + reread;
      assert AllPositive(reread);
      OlderDaysDoNotMatter(kind, th, older, reread, r);
    }
  }
}
