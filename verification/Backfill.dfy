/**
 History rebuilt from per-symbol candles, in batches.  Every answer of the candle service
 is an input, and so is the moment at which the context is cancelled.
 */
module Backfill {
  import opened Classify
  import opened DailyTable
  import opened FileHistory
  import opened Sequences
  import opened SqlHistory

  const LOOKBACK_DAYS := 30
  const BATCH_SIZE: nat := 20
  const REQUIRED_DAYS := 10
  const GATE_WINDOW_DAYS := 16

  datatype Candle = Candle(close: real, time: int)

  datatype Fetch = Candles(candles: seq<Candle>) | FetchError

  type Service = string -> Fetch

  function DayOf(time: int): Day {
    time / 86400
  }

  function ChangePct(prev: Candle, cur: Candle): real
    requires prev.close > 0.0
  {
    (cur.close - prev.close) / prev.close * 100.0
  }

  /** One of the three numbers of a day. */
  datatype Part = Up | Down | All

  function PartOf(c: Counts, p: Part): int {
    match p
    case Up => c.positive
    case Down => c.negative
    case All => c.total
  }

  function StatusPart(s: Status, p: Part): nat {
    match p
    case Up => if s.Positive? then 1 else 0
    case Down => if s.Negative? then 1 else 0
    case All => 1
  }

  /** What one candle step adds to a day. */
  function StepPart(prev: Candle, cur: Candle, d: Day, p: Part): nat {
    if prev.close <= 0.0 || cur.time <= 0 || DayOf(cur.time) != d then 0
    else StatusPart(StatusOf(ChangePct(prev, cur)), p)
  }

  /** The steps between the first n candles. */
  function CandlePart(cs: seq<Candle>, n: nat, d: Day, p: Part): nat
    requires n <= |cs|
  {
    if n < 2 then 0 else CandlePart(cs, n - 1, d, p) + StepPart(cs[n - 2], cs[n - 1], d, p)
  }

  function SymbolPart(f: Fetch, d: Day, p: Part): nat {
    if f.Candles? then CandlePart(f.candles, |f.candles|, d, p) else 0
  }

  /** The day's numbers over a whole list of symbols: the single fold that the batches must reproduce. */
  function UniversePart(names: seq<string>, service: Service, d: Day, p: Part): nat {
    if names == [] then 0
    else UniversePart(names[..|names| - 1], service, d, p) + SymbolPart(service(names[|names| - 1]), d, p)
  }

  function Get(m: Table, d: Day, p: Part): int {
    if d in m then PartOf(m[d], p) else 0
  }

  ghost predicate Positives(m: Table) {
    forall d <- m :: m[d].total > 0
  }

  function TradedNames(symbols: seq<SymbolQuote>): seq<string> {
    if symbols == [] then []
    else
      var rest := TradedNames(symbols[..|symbols| - 1]);
      if Traded(symbols[|symbols| - 1]) then rest + [symbols[|symbols| - 1].name] else rest
  }

  // ---------- accumulation ----------

  /** r holds what m held plus the steps between the first n candles. */
  ghost predicate HasCandles(r: Table, m: Table, cs: seq<Candle>, n: nat)
    requires n <= |cs|
  {
    Positives(r) && forall d, p :: Get(r, d, p) == Get(m, d, p) + CandlePart(cs, n, d, p)
  }

  lemma SkipStep(r: Table, m: Table, cs: seq<Candle>, i: nat)
    requires 1 <= i < |cs| && HasCandles(r, m, cs, i)
    requires cs[i - 1].close <= 0.0 || cs[i].time <= 0
    ensures HasCandles(r, m, cs, i + 1)
  {
  }

  function Bumped(m: Table, d: Day, s: Status): Table {
    m[d := Counts(Get(m, d, Up) + StatusPart(s, Up), Get(m, d, Down) + StatusPart(s, Down), Get(m, d, All) + 1)]
  }

  lemma AddStep(r: Table, m: Table, cs: seq<Candle>, i: nat, day: Day, s: Status)
    requires 1 <= i < |cs| && HasCandles(r, m, cs, i)
    requires cs[i - 1].close > 0.0 && cs[i].time > 0 && day == DayOf(cs[i].time)
    requires s == StatusOf(ChangePct(cs[i - 1], cs[i]))
    ensures HasCandles(Bumped(r, day, s), m, cs, i + 1)
  {
    assert forall d, p :: Get(Bumped(r, day, s), d, p) == Get(r, d, p) + StepPart(cs[i - 1], cs[i], d, p);
  }

  method AddCandles(m: Table, cs: seq<Candle>) returns (r: Table)
    requires Positives(m)
    ensures HasCandles(r, m, cs, |cs|)
  {
    r := m;
    if |cs| < 2 {
      return;
    }
    for i := 1 to |cs|
      invariant HasCandles(r, m, cs, i)
    {
      var prev, cur := cs[i - 1], cs[i];
      if prev.close <= 0.0 || cur.time <= 0 {
        SkipStep(r, m, cs, i);
        continue;
      }
      var date := DayOf(cur.time);
      var pct := ChangePct(prev, cur);
      AddStep(r, m, cs, i, date, StatusOf(pct));
      var agg := if date in r then r[date] else Counts(0, 0, 0);
      agg := agg.(total := agg.total + 1);
      if pct > 0.5 {
        agg := agg.(positive := agg.positive + 1);
      } else if pct < -0.5 {
        agg := agg.(negative := agg.negative + 1);
      }
      r := r[date := agg];
    }
  }

  /** r holds exactly the totals of the named symbols. */
  ghost predicate HasTotals(r: Table, names: seq<string>, service: Service) {
    Positives(r) && forall d, p :: Get(r, d, p) == UniversePart(names, service, d, p)
  }

  lemma UniverseStep(names: seq<string>, i: nat, service: Service, d: Day, p: Part)
    requires i < |names|
    ensures UniversePart(names[..i + 1], service, d, p) == UniversePart(names[..i], service, d, p) + SymbolPart(service(names[i]), d, p)
  {
    assert names[..i + 1][..i] == names[..i];
  }

  lemma AddSymbol(r: Table, m: Table, names: seq<string>, i: nat, service: Service)
    requires i < |names| && HasTotals(m, names[..i], service)
    requires match service(names[i]) case Candles(cs) => HasCandles(r, m, cs, |cs|) case FetchError => r == m
    ensures HasTotals(r, names[..i + 1], service)
  {
    forall d, p ensures Get(r, d, p) == UniversePart(names[..i + 1], service, d, p) {
      UniverseStep(names, i, service, d, p);
    }
  }

  function Min(a: int, b: int): int {
    if a < b then a else b
  }

  /** One batch; no symbol at or after `limit` is fetched once the context is cancelled. */
  method ProcessBatch(batch: seq<string>, service: Service, limit: nat) returns (perDay: Table)
    ensures HasTotals(perDay, batch[..Min(limit, |batch|)], service)
  {
    perDay := map[];
    var i := 0;
    while i < |batch| && i < limit
      invariant i <= |batch| && i <= limit
      invariant HasTotals(perDay, batch[..i], service)
    {
      var f := service(batch[i]);
      ghost var before := perDay;
      if f.Candles? {
        perDay := AddCandles(perDay, f.candles);
      }
      AddSymbol(perDay, before, batch, i, service);
      i := i + 1;
    }
  }

  method AddDay(m: Table, d: Day, agg: Counts) returns (r: Table)
    ensures r == Added(m, d, agg)
  {
    var existing := if d in m then m[d] else Counts(0, 0, 0);
    r := m[d := Counts(existing.positive + agg.positive, existing.negative + agg.negative, existing.total + agg.total)];
  }

  /** Adds a batch to the running totals, leaving out today.  The map is walked in no particular order. */
  method MergeBatch(all: Table, perDay: Table, today: Day) returns (r: Table)
    requires Positives(all) && Positives(perDay)
    ensures Merged(r, all, perDay, perDay.Keys - {today})
  {
    r := all;
    var left := perDay.Keys;
    ghost var done := {};
    while left != {}
      invariant left <= perDay.Keys && done !! left
      invariant done <= perDay.Keys - {today} <= done + left
      invariant Merged(r, all, perDay, done)
      decreases |left|
    {
      ghost var some := Pick(left);
      var d :| d in left;
      left := left - {d};
      if d != today {
        MergeStep(r, all, perDay, done, d);
        done := done + {d};
        r := AddDay(r, d, perDay[d]);
      }
    }
    assert done == perDay.Keys - {today};
  }

  /** The days in `done` have been added, no others. */
  ghost predicate Merged(r: Table, all: Table, perDay: Table, done: set<Day>) {
    && Positives(r)
    && forall d, p :: Get(r, d, p) == Get(all, d, p) + if d in done then Get(perDay, d, p) else 0
  }

  function Added(m: Table, d: Day, c: Counts): Table {
    m[d := Counts(Get(m, d, Up) + c.positive, Get(m, d, Down) + c.negative, Get(m, d, All) + c.total)]
  }

  lemma MergeStep(r: Table, all: Table, perDay: Table, done: set<Day>, d: Day)
    requires Merged(r, all, perDay, done) && Positives(perDay) && d in perDay && d !in done
    ensures Merged(Added(r, d, perDay[d]), all, perDay, done + {d})
  {
  }

  // ---------- the whole backfill ----------

  /** Start of the last batch: the latest point at which a cancelled context stops the run. */
  function LastBatchStart(total: nat, size: nat): nat
    requires size > 0
  {
    if total == 0 then 0 else (total - 1) / size * size
  }

  /** r holds the totals of the named symbols for every day but today. */
  ghost predicate HasPastTotals(r: Table, names: seq<string>, service: Service, today: Day) {
    && Positives(r)
    && forall d, p :: Get(r, d, p) == if d == today then 0 else UniversePart(names, service, d, p)
  }

  lemma {:induction false} UniverseConcat(a: seq<string>, b: seq<string>, service: Service, d: Day, p: Part)
    ensures UniversePart(a + b, service, d, p) == UniversePart(a, service, d, p) + UniversePart(b, service, d, p)
    decreases |b|
  {
    if b == [] {
      assert a + b == a;
    } else {
      assert (a + b)[..|a + b| - 1] == a + b[..|b| - 1];
      UniverseConcat(a, b[..|b| - 1], service, d, p);
    }
  }

  lemma MergeTotals(r: Table, all: Table, perDay: Table, a: seq<string>, b: seq<string>, service: Service, today: Day)
    requires HasPastTotals(all, a, service, today) && HasTotals(perDay, b, service)
    requires Merged(r, all, perDay, perDay.Keys - {today})
    ensures HasPastTotals(r, a + b, service, today)
  {
    forall d, p ensures Get(r, d, p) == if d == today then 0 else UniversePart(a + b, service, d, p) {
      UniverseConcat(a, b, service, d, p);
    }
  }

  lemma BatchBounds(k: nat, total: nat, size: nat)
    requires size > 0 && k * size < total
    ensures k * size <= LastBatchStart(total, size)
    ensures k * size + size >= total <==> k * size == LastBatchStart(total, size)
  {
    var q := (total - 1) / size;
    assert total - 1 == q * size + (total - 1) % size;
    if k > q {
      Scaled(q + 1, k, size);
    } else {
      Scaled(k, q, size);
      if k < q {
        Scaled(k + 1, q, size);
      }
    }
  }

  lemma Scaled(a: int, b: int, size: nat)
    requires a <= b
    ensures a * size <= b * size && (a + 1) * size == a * size + size
  {
  }

  /**
   All batches.  The context reads as cancelled from the moment `cancelAt` symbols have
   been fetched; that is noticed before and after each batch, and inside one.
   */
  method Accumulate(traded: seq<string>, service: Service, today: Day, size: nat, cancelAt: nat)
    returns (cancelled: bool, all: Table)
    requires size > 0
    ensures cancelled <==> traded != [] && cancelAt <= LastBatchStart(|traded|, size)
    ensures !cancelled ==> HasPastTotals(all, traded[..Min(cancelAt, |traded|)], service, today)
  {
    cancelled, all := false, map[];
    var total := |traded|;
    var batchStart := 0;
    ghost var k := 0;
    ghost var seen: seq<string> := [];
    while batchStart < total
      invariant k >= 0 && batchStart == k * size
      invariant batchStart < total ==> batchStart == 0 || cancelAt > batchStart
      invariant total <= batchStart ==> total == 0 || cancelAt > LastBatchStart(total, size)
      invariant seen == traded[..Min(cancelAt, Min(batchStart, total))]
      invariant HasPastTotals(all, seen, service, today)
      decreases total - batchStart
    {
      BatchBounds(k, total, size);
      if cancelAt <= batchStart {
        return true, all;
      }
      var batchEnd := batchStart + size;
      if batchEnd > total {
        batchEnd := total;
      }
      var merged;
      merged, seen := AddBatch(all, traded, service, today, batchStart, batchEnd, cancelAt, seen);
      all := merged;
      Scaled(k, k, size);
      if batchEnd < total && cancelAt <= batchEnd {
        BatchBounds(k + 1, total, size);
        return true, all;
      }
      batchStart := batchStart + size;
      k := k + 1;
    }
  }

  /** One batch fetched and merged. */
  method AddBatch(all: Table, traded: seq<string>, service: Service, today: Day, batchStart: nat, batchEnd: nat,
                  cancelAt: nat, ghost seen: seq<string>)
    returns (merged: Table, ghost seen': seq<string>)
    requires batchStart <= batchEnd <= |traded| && batchStart < cancelAt
    requires seen == traded[..batchStart] && HasPastTotals(all, seen, service, today)
    ensures seen' == traded[..Min(cancelAt, batchEnd)] && HasPastTotals(merged, seen', service, today)
  {
    var batch := traded[batchStart..batchEnd];
    var perDay := ProcessBatch(batch, service, cancelAt - batchStart);
    merged := MergeBatch(all, perDay, today);
    ghost var part := batch[..Min(cancelAt - batchStart, |batch|)];
    MergeTotals(merged, all, perDay, seen, part, service, today);
    seen' := seen + part;
    assert seen' == traded[..Min(cancelAt, batchEnd)];
  }

  /** A table after the rows of some of the accumulated days have been written. */
  function Written(t: Table, days: Table, written: set<Day>): Table {
    t + map d | d in days && d in written :: days[d]
  }

  /** How many writes get through when the context lets `cancelAt` operations pass and `fetched` of them were fetches. */
  function WritesLeft(cancelAt: nat, fetched: nat): nat {
    if cancelAt > fetched then cancelAt - fetched else 0
  }

  /**
   What a backfill has done to a table: it has written all days that are not preserved, or
   as many as its context let through, with full-universe totals.
   */
  ghost predicate Backfilled(before: Table, after: Table, days: Table, written: set<Day>, names: seq<string>, service: Service,
                             today: Day, preserve: set<Day>, cancelAt: nat) {
    && after == Written(before, days, written)
    && written <= days.Keys - preserve
    && |written| <= WritesLeft(cancelAt, |names|)
    && (|written| < WritesLeft(cancelAt, |names|) ==> written == days.Keys - preserve)
    && (cancelAt >= |names| ==> HasPastTotals(days, names, service, today))
  }

  /**
   The backfill.  Its context lets `cancelAt` operations pass, fetches first and then
   writes.  The SQL store refuses every later statement, and the refusals are ignored, so a
   context that dies among the writes leaves some days written and the others as they were.
   */
  method BackfillHistory(store: SqliteStore, symbols: seq<SymbolQuote>, service: Service, today: Day,
                         preserve: set<Day>, cancelAt: nat)
    returns (cancelled: bool, days: Table, ghost written: set<Day>)
    modifies store`stats
    ensures var names := TradedNames(symbols); cancelled <==> names != [] && cancelAt <= (|names| - 1) / 20 * 20
    ensures Backfilled(old(store.stats), store.stats, days, written, TradedNames(symbols), service, today, preserve, cancelAt)
  {
    var traded := [];
    for i := 0 to |symbols|
      invariant traded == TradedNames(symbols[..i])
    {
      assert symbols[..i + 1][..i] == symbols[..i];
      if !Traded(symbols[i]) {
        continue;
      }
      traded := traded + [symbols[i].name];
    }
    assert symbols[..|symbols|] == symbols;

    cancelled, days := Accumulate(traded, service, today, BATCH_SIZE, cancelAt);
    written := {};
    WrittenNothing(store.stats, days);
    if cancelled {
      return;
    }
    assert traded[..|traded|] == traded;
    written := WriteDays(store, days, preserve, WritesLeft(cancelAt, |traded|));
  }

  /** The write loop, in no particular order; `alive` statements succeed, the others fail unnoticed. */
  method WriteDays(store: SqliteStore, days: Table, preserve: set<Day>, alive: nat)
    returns (ghost written: set<Day>)
    modifies store`stats
    ensures written <= days.Keys - preserve && |written| <= alive && (|written| < alive ==> written == days.Keys - preserve)
    ensures store.stats == Written(old(store.stats), days, written)
  {
    var left := days.Keys;
    var statements := 0;
    written := {};
    WrittenNothing(store.stats, days);
    while left != {}
      invariant Progress(days.Keys - preserve, days.Keys, left, written, alive, statements)
      invariant store.stats == Written(old(store.stats), days, written)
      decreases |left|
    {
      ghost var some := Pick(left);
      var d :| d in left;
      ProgressStep(days.Keys - preserve, days.Keys, left, written, alive, statements, d);
      left := left - {d};
      if d in preserve {
        continue;
      }
      if statements < alive {
        WriteOne(old(store.stats), days, written, d);
        store.UpsertDay(d, days[d]);
        written := written + {d};
      }
      statements := statements + 1;
    }
  }

  /** All writable days seen so far are written, or as many as there were live statements. */
  ghost predicate Progress(writable: set<Day>, all: set<Day>, left: set<Day>, written: set<Day>, alive: nat, statements: nat) {
    && left <= all && writable <= all && written <= writable - left
    && |written| == Min(alive, statements)
    && (statements <= alive ==> written == writable - left)
  }

  lemma ProgressStep(writable: set<Day>, all: set<Day>, left: set<Day>, written: set<Day>, alive: nat, statements: nat, d: Day)
    requires Progress(writable, all, left, written, alive, statements) && d in left
    ensures d in all
    ensures d !in writable ==> Progress(writable, all, left - {d}, written, alive, statements)
    ensures d in writable && statements < alive ==> Progress(writable, all, left - {d}, written + {d}, alive, statements + 1)
    ensures d in writable && statements >= alive ==> Progress(writable, all, left - {d}, written, alive, statements + 1)
  {
    assert d !in written;
  }

  /** The written days have their accumulated counts, all others are as they were. */
  lemma WrittenMeans(t: Table, days: Table, written: set<Day>, d: Day)
    requires written <= days.Keys
    ensures d in Written(t, days, written) <==> d in t || d in written
    ensures d in Written(t, days, written) ==> Written(t, days, written)[d] == if d in written then days[d] else t[d]
  {
  }

  lemma WrittenNothing(t: Table, days: Table)
    ensures Written(t, days, {}) == t
  {
  }

  lemma WriteOne(t: Table, days: Table, written: set<Day>, d: Day)
    requires d in days
    ensures Written(t, days, written + {d}) == Written(t, days, written)[d := days[d]]
  {
  }

  /** A backfill leaves a table untouched exactly when no write that got through changed a row. */
  lemma WrittenUnchangedIff(t: Table, days: Table, written: set<Day>)
    requires written <= days.Keys
    ensures Written(t, days, written) == t <==> forall d <- written :: d in t && t[d] == days[d]
  {
    var w := Written(t, days, written);
    if w == t {
      forall d | d in written ensures d in t && t[d] == days[d] {
        assert w[d] == days[d];
      }
    }
    if forall d <- written :: d in t && t[d] == days[d] {
      assert w.Keys == t.Keys;
      assert w == t;
    }
  }

  /** Two days to write and a context that dies after the first write: one row is stored, the other lost. */
  method PartialWrite() returns (store: SqliteStore, days: Table)
    ensures |days| == 2 && |store.stats| == 1 && forall d <- store.stats :: d in days && store.stats[d] == days[d]
  {
    store := new SqliteStore(map[], map[], map[]);
    days := map[1 := Counts(1, 0, 1), 2 := Counts(0, 1, 1)];
    assert days.Keys == {1, 2};
    ghost var written := WriteDays(store, days, {}, 1);
    assert days.Keys - {} == {1, 2};
    assert store.stats.Keys == written;
  }

  predicate GateOpen(existing: set<Day>) {
    |existing| < REQUIRED_DAYS
  }

  method NeedsBackfill(store: SqliteStore, today: Day) returns (need: bool)
    ensures need <==> |set d | d in store.stats && today - 16 <= d <= today| < 10
  {
    var existing := store.ExistingDays(today - GATE_WINDOW_DAYS, today);
    assert existing == set d | d in store.stats && today - 16 <= d <= today;
    return |existing| < REQUIRED_DAYS;
  }

  /** The gate cannot tell the trimmed file from the table. */
  lemma GateAgrees(p: Pair)
    requires Agree(p)
    ensures GateOpen(Window(Dates(p.file), p.today - GATE_WINDOW_DAYS, p.today))
            <==> GateOpen(Window(p.table.Keys, p.today - GATE_WINDOW_DAYS, p.today))
  {
    WindowsAgree(p, GATE_WINDOW_DAYS);
  }

  // ---------- the totals themselves ----------

  /**
   There is one table with given totals.  `Accumulate` reaches them for every batch size and
   merge order, so neither can show in it.
   */
  lemma PastTotalsAreUnique(a: Table, b: Table, names: seq<string>, service: Service, today: Day)
    requires HasPastTotals(a, names, service, today) && HasPastTotals(b, names, service, today)
    ensures a == b
  {
    forall d ensures d in a <==> d in b {
      assert Get(a, d, All) == Get(b, d, All);
    }
    forall d | d in a ensures a[d] == b[d] {
      assert Get(a, d, Up) == Get(b, d, Up) && Get(a, d, Down) == Get(b, d, Down) && Get(a, d, All) == Get(b, d, All);
    }
  }

  /** Symbols may be merged in any order. */
  lemma {:induction false} UniversePermutes(a: seq<string>, b: seq<string>, service: Service, d: Day, p: Part)
    requires multiset(a) == multiset(b)
    ensures UniversePart(a, service, d, p) == UniversePart(b, service, d, p)
    decreases |a|
  {
    if a == [] {
      assert |multiset(b)| == 0;
    } else {
      var i := FindLast(a, b);
      UniversePermutes(a[..|a| - 1], Without(b, i), service, d, p);
      var x, y := b[..i], b[i + 1..];
      UniverseConcat(x, y, service, d, p);
      UniverseConcat(x + [b[i]], y, service, d, p);
      UniverseStep(b, i, service, d, p);
      assert x + [b[i]] == b[..i + 1];
      assert b == (x + [b[i]]) + y;
    }
  }

  lemma {:induction false} CandleBounds(cs: seq<Candle>, n: nat, d: Day)
    requires n <= |cs|
    ensures CandlePart(cs, n, d, Up) + CandlePart(cs, n, d, Down) <= CandlePart(cs, n, d, All)
  {
    if n >= 2 {
      CandleBounds(cs, n - 1, d);
    }
  }

  /** Advancing and declining symbols never outnumber the symbols counted. */
  lemma {:induction false} UniverseBounds(names: seq<string>, service: Service, d: Day)
    ensures UniversePart(names, service, d, Up) + UniversePart(names, service, d, Down) <= UniversePart(names, service, d, All)
  {
    if names != [] {
      UniverseBounds(names[..|names| - 1], service, d);
      var f := service(names[|names| - 1]);
      if f.Candles? {
        CandleBounds(f.candles, |f.candles|, d);
      }
    }
  }

  /** The usable candles of a symbol lie on the days from..to; the first candle of all only opens the series. */
  ghost predicate DaysWithin(cs: seq<Candle>, from: Day, to: Day) {
    forall i :: 1 <= i < |cs| && cs[i].time > 0 ==> from <= DayOf(cs[i].time) <= to
  }

  ghost predicate ServiceWithin(names: seq<string>, service: Service, from: Day, to: Day) {
    forall n <- names :: service(n).Candles? ==> DaysWithin(service(n).candles, from, to)
  }

  lemma {:induction false} NoCandlesOutside(cs: seq<Candle>, n: nat, from: Day, to: Day, d: Day, p: Part)
    requires DaysWithin(cs, from, to) && n <= |cs| && !(from <= d <= to)
    ensures CandlePart(cs, n, d, p) == 0
  {
    if n >= 2 {
      NoCandlesOutside(cs, n - 1, from, to, d, p);
    }
  }

  /** A day outside the window has no totals. */
  lemma {:induction false} NoTotalsOutside(names: seq<string>, service: Service, from: Day, to: Day, d: Day, p: Part)
    requires ServiceWithin(names, service, from, to) && !(from <= d <= to)
    ensures UniversePart(names, service, d, p) == 0
  {
    if names != [] {
      var front, n := names[..|names| - 1], names[|names| - 1];
      assert forall m <- front :: m in names;
      NoTotalsOutside(front, service, from, to, d, p);
      assert n in names;
      if service(n).Candles? {
        NoCandlesOutside(service(n).candles, |service(n).candles|, from, to, d, p);
      }
    }
  }

  /** What a day of a backfill can look like: inside the window, before today, with counts that add up. */
  ghost predicate Plausible(d: Day, c: Counts, today: Day) {
    && today - LOOKBACK_DAYS <= d < today
    && 0 <= c.positive && 0 <= c.negative && c.positive + c.negative <= c.total && c.total > 0
  }

  /** The service answers for the window it was asked for, so every accumulated day is plausible. */
  lemma TotalsArePlausible(days: Table, names: seq<string>, service: Service, today: Day, d: Day)
    requires HasPastTotals(days, names, service, today) && ServiceWithin(names, service, today - LOOKBACK_DAYS, today)
    requires d in days
    ensures Plausible(d, days[d], today)
  {
    assert Get(days, d, All) > 0;
    assert Get(days, d, Up) >= 0 && Get(days, d, Down) >= 0;
    assert d != today && Get(days, d, All) == UniversePart(names, service, d, All);
    assert Get(days, d, Up) == UniversePart(names, service, d, Up) && Get(days, d, Down) == UniversePart(names, service, d, Down);
    UniverseBounds(names, service, d);
    if !(today - LOOKBACK_DAYS <= d <= today) {
      NoTotalsOutside(names, service, today - LOOKBACK_DAYS, today, d, All);
    }
  }

  // ---------- which candles rise ----------

  lemma RiseInPercent(prev: Candle, cur: Candle)
    requires prev.close > 0.0
    ensures ChangePct(prev, cur) > 0.5 <==> cur.close > 1.005 * prev.close
    ensures ChangePct(prev, cur) < -0.5 <==> cur.close < 0.995 * prev.close
  {
    var p := prev.close;
    var q := (cur.close - p) / p;
    assert ChangePct(prev, cur) == q * 100.0;
    QuotientTimes(cur.close - p, p);
    Percent(q, p, cur.close);
  }

  lemma Percent(q: real, p: real, x: real)
    requires p > 0.0 && q * p == x - p
    ensures q * 100.0 > 0.5 <==> x > 1.005 * p
    ensures q * 100.0 < -0.5 <==> x < 0.995 * p
  {
    Scale(q, p, 0.005);
    Scale(q, p, -0.005);
  }

  lemma QuotientTimes(x: real, p: real)
    requires p > 0.0
    ensures x / p * p == x
  {
  }

  lemma Scale(q: real, p: real, c: real)
    requires p > 0.0
    ensures q > c <==> q * p > c * p
    ensures q < c <==> q * p < c * p
  {
    if q > c {
      MultiplyLess(c, q, p);
    } else if q < c {
      MultiplyLess(q, c, p);
    } else {
      assert q == c;
    }
  }

  lemma MultiplyLess(a: real, b: real, p: real)
    requires a < b && p > 0.0
    ensures a * p < b * p
  {
    assert (b - a) * p == b * p - a * p;
  }

  lemma DayBounds(time: int, d: Day)
    ensures DayOf(time) == d <==> 86400 * d <= time < 86400 * (d + 1)
  {
  }

  /**
   What a step between two closes counts for: nothing unless the earlier close and the later
   time are positive and the time lies on the UTC day; else one symbol of that day, rising
   above 1.005 times the earlier close, falling below 0.995 times it, and neither in between.
   */
  lemma StepMeans(prev: Candle, cur: Candle, d: Day)
    ensures var usable := prev.close > 0.0 && cur.time > 0 && 86400 * d <= cur.time < 86400 * (d + 1);
            && StepPart(prev, cur, d, All) == (if usable then 1 else 0)
            && StepPart(prev, cur, d, Up) == (if usable && cur.close > 1.005 * prev.close then 1 else 0)
            && StepPart(prev, cur, d, Down) == (if usable && cur.close < 0.995 * prev.close then 1 else 0)
  {
    DayBounds(cur.time, d);
    if prev.close > 0.0 {
      RiseInPercent(prev, cur);
    }
  }

  /** The usable steps among the first n candles that end on day d, by the index of the later candle. */
  ghost function Steps(cs: seq<Candle>, n: nat, d: Day): set<nat>
    requires n <= |cs|
  {
    set i: nat | 1 <= i < n && cs[i - 1].close > 0.0 && cs[i].time > 0 && 86400 * d <= cs[i].time < 86400 * (d + 1)
  }

  ghost function RisingSteps(cs: seq<Candle>, n: nat, d: Day): set<nat>
    requires n <= |cs|
  {
    set i <- Steps(cs, n, d) | cs[i].close > 1.005 * cs[i - 1].close
  }

  ghost function FallingSteps(cs: seq<Candle>, n: nat, d: Day): set<nat>
    requires n <= |cs|
  {
    set i <- Steps(cs, n, d) | cs[i].close < 0.995 * cs[i - 1].close
  }

  lemma StepsGrow(cs: seq<Candle>, n: nat, d: Day)
    requires 1 <= n < |cs|
    ensures var last: nat := n;
            var usable := cs[n - 1].close > 0.0 && cs[n].time > 0 && 86400 * d <= cs[n].time < 86400 * (d + 1);
            && Steps(cs, n + 1, d) == Steps(cs, n, d) + (if usable then {last} else {})
            && RisingSteps(cs, n + 1, d) == RisingSteps(cs, n, d) + (if usable && cs[n].close > 1.005 * cs[n - 1].close then {last} else {})
            && FallingSteps(cs, n + 1, d) == FallingSteps(cs, n, d) + (if usable && cs[n].close < 0.995 * cs[n - 1].close then {last} else {})
  {
  }

  lemma NoSteps(cs: seq<Candle>, n: nat, d: Day)
    requires n <= |cs| && n < 2
    ensures Steps(cs, n, d) == RisingSteps(cs, n, d) == FallingSteps(cs, n, d) == {}
  {
  }

  lemma StepSizes(cs: seq<Candle>, n: nat, d: Day)
    requires 1 <= n < |cs|
    ensures |Steps(cs, n + 1, d)| == |Steps(cs, n, d)| + StepPart(cs[n - 1], cs[n], d, All)
    ensures |RisingSteps(cs, n + 1, d)| == |RisingSteps(cs, n, d)| + StepPart(cs[n - 1], cs[n], d, Up)
    ensures |FallingSteps(cs, n + 1, d)| == |FallingSteps(cs, n, d)| + StepPart(cs[n - 1], cs[n], d, Down)
  {
    StepMeans(cs[n - 1], cs[n], d);
    StepsGrow(cs, n, d);
  }

  /** What one symbol counts for on a day, told from its closes and times. */
  lemma {:induction false} CandlesMean(cs: seq<Candle>, n: nat, d: Day)
    requires n <= |cs|
    ensures CandlePart(cs, n, d, All) == |Steps(cs, n, d)|
    ensures CandlePart(cs, n, d, Up) == |RisingSteps(cs, n, d)|
    ensures CandlePart(cs, n, d, Down) == |FallingSteps(cs, n, d)|
  {
    if n < 2 {
      NoSteps(cs, n, d);
    } else {
      CandlesMean(cs, n - 1, d);
      StepSizes(cs, n - 1, d);
    }
  }

  /** One symbol: all its candles, or nothing when the service fails. */
  lemma UniverseOfOne(n: string, service: Service, d: Day)
    ensures service(n).Candles? ==>
      var cs := service(n).candles;
      && UniversePart([n], service, d, All) == |Steps(cs, |cs|, d)|
      && UniversePart([n], service, d, Up) == |RisingSteps(cs, |cs|, d)|
      && UniversePart([n], service, d, Down) == |FallingSteps(cs, |cs|, d)|
    ensures service(n).FetchError? ==> forall p :: UniversePart([n], service, d, p) == 0
  {
    assert [n][..0] == [];
    if service(n).Candles? {
      CandlesMean(service(n).candles, |service(n).candles|, d);
    }
  }

  /** Every usable step of day d rises by more than half a percent. */
  ghost predicate AllRise(names: seq<string>, service: Service, d: Day) {
    forall n <- names :: service(n).Candles? ==>
      var cs := service(n).candles;
      forall i :: 1 <= i < |cs| && cs[i - 1].close > 0.0 && cs[i].time > 0 && 86400 * d <= cs[i].time < 86400 * (d + 1) ==>
        cs[i].close > 1.005 * cs[i - 1].close
  }

  lemma RisingSymbol(cs: seq<Candle>, d: Day)
    requires forall i :: 1 <= i < |cs| && cs[i - 1].close > 0.0 && cs[i].time > 0 && 86400 * d <= cs[i].time < 86400 * (d + 1) ==>
                           cs[i].close > 1.005 * cs[i - 1].close
    ensures CandlePart(cs, |cs|, d, Up) == CandlePart(cs, |cs|, d, All) && CandlePart(cs, |cs|, d, Down) == 0
  {
    CandlesMean(cs, |cs|, d);
    assert RisingSteps(cs, |cs|, d) == Steps(cs, |cs|, d);
    assert FallingSteps(cs, |cs|, d) == {};
  }

  lemma {:induction false} RisingUniverse(names: seq<string>, service: Service, d: Day)
    requires AllRise(names, service, d)
    ensures UniversePart(names, service, d, Up) == UniversePart(names, service, d, All) && UniversePart(names, service, d, Down) == 0
  {
    if names != [] {
      var front, n := names[..|names| - 1], names[|names| - 1];
      assert forall m <- front :: m in names;
      RisingUniverse(front, service, d);
      assert n in names;
      if service(n).Candles? {
        RisingSymbol(service(n).candles, d);
      }
    }
  }

  /** A day on which every symbol rose is backfilled with all its symbols positive and none negative. */
  lemma RisingDay(days: Table, names: seq<string>, service: Service, today: Day, d: Day)
    requires HasPastTotals(days, names, service, today) && d in days && AllRise(names, service, d)
    ensures days[d].positive == days[d].total > 0 && days[d].negative == 0
  {
    RisingUniverse(names, service, d);
    assert days[d].total > 0;
    assert Get(days, d, All) == days[d].total && Get(days, d, Up) == days[d].positive && Get(days, d, Down) == days[d].negative;
  }

  /** Closes of 100 on day 1 and 110 on day 2 make one symbol up on day 2, none down. */
  lemma RiseExample()
    ensures var a, b := Candle(100.0, 86400), Candle(110.0, 2 * 86400);
            StepPart(a, b, 2, Up) == 1 && StepPart(a, b, 2, Down) == 0 && StepPart(a, b, 2, All) == 1 && StepPart(a, b, 1, All) == 0
  {
    StepMeans(Candle(100.0, 86400), Candle(110.0, 2 * 86400), 2);
    StepMeans(Candle(100.0, 86400), Candle(110.0, 2 * 86400), 1);
  }

  /** The symbols fetched are the shares of the day, in order. */
  lemma {:induction false} FetchedAreShares(symbols: seq<SymbolQuote>)
    ensures |TradedNames(symbols)| == |Universe(symbols)| == |Shares(symbols)|
    ensures forall k :: 0 <= k < |TradedNames(symbols)| ==> TradedNames(symbols)[k] == Universe(symbols)[k].name
  {
    DayCounts(symbols);
    if symbols != [] {
      FetchedAreShares(symbols[..|symbols| - 1]);
    }
  }
}
