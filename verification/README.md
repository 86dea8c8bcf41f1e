# A verified model of the market scanner's core

The scanner is a Go service that polls a market data source, records daily breadth
statistics, looks for option spreads and sends alerts.  This project models the parts of it
that keep state or compute something a reader cannot check at a glance, and proves what
their comments, decision records and callers rely on.

| module | models |
|---|---|
| `SolarHijri` | Gregorian to Solar Hijri conversion, against day-by-day calendars |
| `AlertHistory`, `AlertProtocol` | the alert table and engine; every interleaving of many senders, failures, clock ticks and restarts |
| `ImpliedVolatility` | the bisection, for an arbitrary price function |
| `Classify`, `Indicators` | daily counts, per-symbol rows, breadth and advance/decline averages |
| `DailyTable`, `FileHistory`, `SqlHistory`, `QueueStreaks` | the two implementations of the daily store, and queue streaks |
| `Backfill`, `Scanner`, `FreezeProtocol`, `FreezeExamples` | the batched candle backfill, the recording part of a refresh, the sync script; runs of all three writers |
| `Pairs`, `Spreads`, `SpreadAlerts`, `RefreshAlerts` | both spread engines, the mirror law between them, the thresholds in front of the alerts, the holiday gate in front of those |
| `Broadcast`, `BroadcastRuns` | message fan-out with small buffers |

`Sequences` and `Pairs` hold general facts about sequences.  Check everything with
`dafny verify dfyconfig.toml`.

## What the proofs showed

Places where the code and what is said of it differ.  The model follows the code.

- **A key re-arms only on a restart.** Decision record 0007 says an opportunity triggers
  again the next day and calls the startup prune optional.  `TryClaim` uses a plain INSERT,
  so the row of an old alert makes every later claim fail with an error.  Once an alert has
  gone out, its row stays and its key is silent exactly until a restart more than 24 hours
  after the claim; earlier restarts change nothing (`PolicyMetIffNotStale`,
  `StaleRowRefused`, `RestartRearms`, `SilentUntilRestart`, `RearmNeedsLateRestart`).
  `Record` would refresh the row, but the engine does not call it.
- **A recorded day looks like a holiday.** From the moment the day's row is stored, every
  later refresh of that day compares the row with itself and takes the day for a holiday,
  whatever the market does; the alerts behind that flag then stay silent
  (`StoredDayLooksLikeHoliday`, `StoredDayExample`, `RefreshAndAlert`).
- **What freezes a day is its snapshot, not its record.** A stored day is frozen exactly when
  it has stored symbol rows, or lies too far back for any backfill, or ten days are stored in
  the 16 days up to the last day that could reach it, so that the backfill gate stays closed
  (`FrozenIff`, `FrozenByGate`).  Two symbols of one name roll the rows back, a context that
  dies between the two writes leaves them out, and if the gate opens in time the next
  backfill overwrites the recorded day (`UnprotectedDayIsLost`, `BackfillKeepsDayIff`,
  `DuplicateNamesLoseDay`).
- **A record can repeat the latest stored day.** The holiday check compares with the history
  as it was read.  A backfill write or another record in between can make a day of the same
  counts the latest, and nothing else can (`RecordRepeatsIff`, `RepeatExample`).
- **Overlapping refreshes break the freeze.** Two that have read the same history both record,
  and the later counts replace the earlier ones.  Every day is recorded at most once exactly
  in the runs without such a stale record (`RecordedOnceIff`, `OverlapKeepsDayIff`,
  `OverlapExample`); a refresh that nobody overtakes is never stale
  (`UndisturbedRefreshIsFresh`).
- **The queue streak counts calls.** It is documented as a number of days; it is one exactly
  when a symbol is passed at most once a day (`StreakCountsDaysIff`,
  `RefreshTwiceCountsTwice`).
- **Backfill writes only at the end, and a write can be lost.** Its comment says that every
  batch is stored at once.  In fact a context that dies before the first write leaves the
  table as it was, and one that dies among the writes leaves some days written and loses
  the others without an error (`Backfill.BackfillHistory`, `WrittenUnchangedIff`,
  `PartialWrite`).
- **The two out-of-the-money bands are not mirror images.** The put engine includes the 5%
  edge, the call engine does not; `MirrorLaw` says exactly which spreads that adds, and
  `EdgeExample` shows one.
- **Dates before 1600-03-20 convert wrongly**, most of them to no date at all and some to a
  wrong one: 1596-03-19 becomes 975/1/1 and should be 974/12/29 (`WrongDate`).
  Truncation drops days from the negative count and, before 1597, lets the leap corrections
  drift.  The few early days that come out right are the first days of a 33-year cycle in a
  year without drift, and of another four-year block in a year with a drift of -1
  (`ConvertsRightIff`, `RightBeforeRange`).
- **The upsert of today does not sort.** It keeps the file in order exactly when today is
  already listed or later than every listed day (`UpsertTodayRefinesIff`).

## Assumptions

- Numbers are exact: integers are unbounded and prices are reals.
- Store statements succeed unless a key constraint fails or their context is cancelled.
  The two outcomes an alert depends on, delivery of a message and release of a row, are inputs.
- The clock never goes back.  Tehran is 3:30 ahead of UTC all year.
- A refresh is two steps of `FreezeProtocol`, reading the history and recording, with
  anything in between (nothing in the service stops two from overlapping:
  `internal/server/refresh.go:35`, `internal/server/pages.go:119`).  Recording is one step
  that writes the day's row and, unless the context dies in between, its symbol rows.
- A backfill checks its gate in one step, reads its preserved days and its idea of today in
  a later one, and writes each row in a step of its own.  The candle service answers for
  the 30 days it is asked for.
- The price of an option is Lipschitz in sigma between 0.001 and 5, the bracket that the
  bisection searches; nothing is assumed of it elsewhere.

## Model

| member | source | states |
|---|---|---|
| SolarHijri.GregorianToJalali | internal/server/jalali.go:20-55 | for every valid Gregorian date the two loops compute the conversion that the lemmas below are about |
| SolarHijri.FromDayCount | internal/server/jalali.go:37-54 | the 33-year and four-year reductions and the month loop give `DateOfCount` of any day count, negative ones included |
| SolarHijri.DriftIsExact | internal/server/jalali.go:28 | for every year, also before 1600, the truncated corrections make the closed form differ from the sum of year lengths by exactly the drift of the year |
| SolarHijri.ClosedFormIsDayNumber | internal/server/jalali.go:28-35 | the closed form with its +3, +99 and +399 corrections equals the sum of all year and month lengths since 1600-01-01; before 1600 it is off by the drift of the year |
| SolarHijri.TomorrowCountsOne | internal/server/jalali.go:21-22 | in both calendars, before their epochs too, tomorrow is a valid date whose day number is one higher |
| SolarHijri.DateOfCountIsDate | internal/server/jalali.go:37-54 | the reductions turn every count n >= 0 into the valid Jalali date that is n days after 979/1/1, also in the year where the 33-year cycle skips a leap day |
| SolarHijri.ConvertKeepsDayNumber | internal/server/jalali.go:24-54 | the converted date is valid and lies the same number of days after its epoch, less 79 |
| SolarHijri.ConvertCommutesWithTomorrow | internal/server/jalali.go:20-55 | converting tomorrow gives tomorrow's Jalali date, over month ends, leap days and cycle ends |
| SolarHijri.ConvertPreservesOrder | internal/server/jalali.go:20-55 | one date is before another exactly when its conversion is; distinct dates convert to distinct dates |
| SolarHijri.JalaliRoundTrip | internal/server/jalali.go:20-55 | every Jalali date from 979/1/1 is the conversion of the date its inverse names (surjective) |
| SolarHijri.GregorianRoundTrip | internal/server/jalali.go:20-55 | the inverse undoes the conversion on every date from 1600-03-20 |
| SolarHijri.KnownDate | internal/server/jalali.go:18-19 | 2026-06-21 converts to 1405/03/31, the example in the comment |
| SolarHijri.ConvertsRightIff | internal/server/jalali.go:20-55 | for every valid Gregorian date the conversion names the Jalali date at the same distance from the epoch if and only if the date is in range, starts a 33-year cycle in a year without drift, or starts another four-year block in a year with drift -1 |
| SolarHijri.ConvertsRightFrom1600Iff | internal/server/jalali.go:20-55 | from 1600 on the conversion is right, and yields 979/1/1 or later, if and only if the date is 1600-03-20 or later |
| SolarHijri.ConvertOutsideRange | internal/server/jalali.go:37-54 | the result is a calendar date at all if and only if the day count is not negative or starts a four-year block |
| SolarHijri.WrongDate | internal/server/jalali.go:28-54 | 1596-03-19 converts to the valid date 975/1/1 although it is 974/12/29 |
| SolarHijri.RightBeforeRange | internal/server/jalali.go:28-54 | 1501-03-21 and 1497-03-21 lie before the range and convert rightly |
| SolarHijri.DayBeforeRangeFails | internal/server/jalali.go:37-54 | 1600-03-19 converts to day 0 of a month |
| AlertHistory.Store.constructor | internal/alerts/store.go:53-58 | opening the table deletes exactly the rows strictly older than 24 hours |
| AlertHistory.Store.WasSent | internal/alerts/store.go:61-71 | true exactly when the key has a row strictly younger than 24 hours |
| AlertHistory.Store.Record | internal/alerts/store.go:73-84 | the key's row is inserted or replaced, nothing else changes |
| AlertHistory.Store.Release | internal/alerts/store.go:87-93 | the key's row is deleted, nothing else changes |
| AlertHistory.Store.TryClaim | internal/alerts/store.go:95-119 | the answer and the new table of a windowed count followed by a plain INSERT |
| AlertHistory.Engine.Send | internal/alerts/engine.go:166-186 | a message goes out exactly when a sender is configured, the key has no row and delivery succeeds; the table and the callback list after each outcome |
| AlertHistory.ClaimWinsIffAbsent | internal/alerts/store.go:95-119 | a claim wins exactly when the key has no row, errs exactly when its row is stale, and changes nothing when it does not win |
| AlertHistory.PolicyMetIffNotStale | docs/adr/0007-alert-dedup-once-per-day.md:71-75 | the documented rule, that a claim wins exactly when nothing was sent in 24 hours, holds if and only if the key has no stale row |
| AlertHistory.StaleRowRefused | internal/alerts/store.go:110-116 | a concrete table and time at which nothing was sent in 24 hours and the claim still fails |
| AlertHistory.RestartRearms | internal/alerts/store.go:53-57 | after a restart a claim wins exactly when the key had no row or one strictly older than 24 hours at the prune |
| AlertHistory.RecordRefreshes | internal/alerts/store.go:77-82 | recording makes the key live whatever row it had |
| AlertProtocol.ClaimKeepsInv | internal/alerts/store.go:95-119 | a claim by one of many senders keeps the protocol invariant: owners of rows, distinct keys in flight, sends a day apart |
| AlertProtocol.StepKeepsInv | internal/alerts/engine.go:166-186 | every step keeps that invariant: claims, deliveries, failures with or without release, ticks, restarts |
| AlertProtocol.RunKeepsInv | internal/alerts/engine.go:166-186 | so does every run |
| AlertProtocol.SendsAreADayApart | internal/alerts/engine.go:166-186 | in every run two successful sends of one key were claimed more than 86400 seconds apart, in the order they were sent |
| AlertProtocol.InFlightOwnsRow | internal/alerts/store.go:87-119 | between claim and outcome the row of the key is the sender's own, and no other sender holds that key |
| AlertProtocol.FailedSendRearms | internal/alerts/engine.go:178-181 | a failed send with a successful release deletes the sender's own row and no other, and after any steps of others on other keys the next claim on the key wins |
| AlertProtocol.SilentUntilRestart | internal/alerts/store.go:53-57 | in every run from a state where a key has a settled row, the row is still the same at the end if and only if no restart came more than 24 hours after its claim, and until then the key is not sent again |
| AlertProtocol.RearmNeedsLateRestart | internal/alerts/store.go:110-116 | between a send and the next winning claim on its key, or the next send, there is a restart more than 24 hours after the claim |
| AlertProtocol.LateRestartRearms | internal/alerts/store.go:53-57 | after any wait and a restart, a claim on a key with a row wins if and only if the row is more than 86400 seconds old |
| ImpliedVolatility.ImpliedVolatility | internal/blackscholes/blackscholes.go:44-70 | both error branches by their conditions; an answer lies strictly between 0.001 and 5 and is priced within 0.01; a target inside its price bounds is answered for every Lipschitz price that brackets it, and for an increasing one if and only if it is within 0.01 of the prices between the extreme sigmas |
| ImpliedVolatility.BisectIsSound | internal/blackscholes/blackscholes.go:55-69 | an answer lies strictly inside the bracket and is priced within the tolerance, for any price function |
| ImpliedVolatility.BracketedConverges | internal/blackscholes/blackscholes.go:56-68 | a bracketed price of a function that is L-Lipschitz inside the bracket is always found when L times the width is below the tolerance times 2^iterations; monotonicity is not needed |
| ImpliedVolatility.BracketedPriceIsFound | internal/blackscholes/blackscholes.go:8-13 | for a price that is Lipschitz from 0.001 to 5 and a target between its values there: a sigma strictly between them priced within 0.01, never ErrNoConvergence |
| ImpliedVolatility.FoundIff | internal/blackscholes/blackscholes.go:8-13 | for an increasing price the search as called answers if and only if the target is within 0.01 of the prices between 0.001 and 5, each end moved in by 4.999/2^100 |
| ImpliedVolatility.JumpOutsideBracket | internal/blackscholes/blackscholes.go:25-28 | a price that is 0 at sigma 0 and jumps above it, as that of an in-the-money call, is still found |
| ImpliedVolatility.AnswerBetweenMids | internal/blackscholes/blackscholes.go:55-68 | an answer lies between the smallest and the largest sigma the search can try |
| ImpliedVolatility.ConvergesIffReachable | internal/blackscholes/blackscholes.go:55-69 | for a price increasing and Lipschitz inside the bracket the search answers if and only if the target is within a tolerance of the prices between those two sigmas |
| Classify.ClassifyDay | internal/market/classify.go:23-45 | the day's counts are the numbers of shares that rose by more than half a percent, fell by more than half a percent, and traded |
| Classify.DayCounts | internal/market/classify.go:13-39 | the same of the rows behind the counts, with the trade value, name and market conditions written out on the quotes |
| Classify.RowsAreShares | internal/market/classify.go:52-71 | a row is listed if and only if it tells the name, the change and the direction of a share that traded |
| Classify.CountsRows | internal/market/sqlitestore.go:214-234 | the aggregate of stored rows counts the rows of each status |
| Classify.SymbolRows | internal/market/classify.go:50-74 | the rows are a permutation of the same universe, best change first |
| Classify.CountPermutes | internal/market/classify.go:72-73 | status counts do not depend on row order |
| Classify.RowsReproduceDay | internal/market/classify.go:23-74 | any arrangement of the rows aggregates to the counts of the day |
| Classify.TallyBounds | internal/market/classify.go:32-38 | positive and negative together never exceed the total |
| DailyTable.LatestIsUnique | internal/market/sqlitestore.go:138-165 | a table has exactly one list of its n latest days |
| DailyTable.SuffixIsLatest | internal/market/filestore.go:107-110 | the end of a list of latest days is the list of fewer latest days |
| FileHistory.FileStore.SetRecord | internal/market/filestore.go:39-56 | the scan updates the first record of the date or appends one |
| FileHistory.FileStore.UpsertToday | internal/market/filestore.go:32-63 | the new file, trimmed but not sorted |
| FileHistory.FileStore.SiftDown | internal/market/filestore.go:93-95 | the inner swap loop inserts record i into the sorted records before it and leaves those after it |
| FileHistory.FileStore.UpsertDay | internal/market/filestore.go:65-101 | the new file, insertion-sorted in place and trimmed to 30 |
| FileHistory.FileStore.LastDays | internal/market/filestore.go:103-122 | the last records, or all of them |
| FileHistory.FileStore.ExistingDays | internal/market/filestore.go:124-139 | the dates in the window |
| FileHistory.UpsertDayRefines | internal/market/filestore.go:65-101 | a file holding the 30 latest days of a table still does after both upsert any day, old, listed or new |
| FileHistory.UpsertTodayRefinesIff | internal/market/filestore.go:32-63 | the unsorted upsert keeps that relation if and only if today is listed or after every listed day |
| FileHistory.ApplyKeepsAgree | internal/market/filestore.go:32-101 | one call of either store keeps the two in agreement |
| FileHistory.RunsAgree | internal/market/filestore.go:32-101 | after any run of upserts dated today or earlier the file holds exactly the 30 latest days of the unbounded table |
| FileHistory.LastDaysAgreeIff | internal/market/filestore.go:103-111 | the two stores answer LastDays(n) alike if and only if n <= 30 or the table has at most 30 days |
| FileHistory.WindowsAgree | internal/market/filestore.go:124-139 | they answer alike for every window of at most 30 days ending today |
| SqlHistory.SqliteStore.constructor | internal/market/sqlitestore.go:105-107 | opening the database deletes exactly the rows with total zero |
| SqlHistory.SqliteStore.UpsertToday | internal/market/sqlitestore.go:110-122 | the row of today is set, nothing else changes |
| SqlHistory.SqliteStore.UpsertDay | internal/market/sqlitestore.go:124-136 | the row of the day is set, nothing else changes |
| SqlHistory.SqliteStore.LastDays | internal/market/sqlitestore.go:138-165 | reading newest first and reversing in place yields the latest days in chronological order; a negative limit is none |
| SqlHistory.SqliteStore.ExistingDays | internal/market/sqlitestore.go:192-212 | the dates in the window |
| SqlHistory.SqliteStore.ExistingSnapshotDays | internal/market/sqlitestore.go:170-190 | the snapshot dates in the window |
| SqlHistory.SqliteStore.UpsertSymbolSnapshot | internal/market/sqlitestore.go:214-234 | the transaction commits exactly when names are distinct, and otherwise changes nothing |
| SqlHistory.SqliteStore.UpsertQueueStreaks | internal/market/sqlitestore.go:259-311 | every passed name extends or restarts its streak, in order; the answer holds exactly the passed names |
| QueueStreaks.StreakIsLongestRun | internal/market/sqlitestore.go:269-282 | after any history of calls a streak is the length of the longest suffix of the symbol's sightings with gaps of at most four days |
| QueueStreaks.StreakCountsDaysIff | internal/market/sqlitestore.go:256-258 | the stored streak is the number of distinct days in the longest unbroken run of sightings if and only if the symbol was passed at most once on each |
| QueueStreaks.RefreshTwiceCountsTwice | internal/scanner/service.go:185-193 | two refreshes of one day count as a streak of two |
| Indicators.AverageLast | internal/indicators/market.go:48-65 | an error exactly for no values or no days; otherwise the average times the window length is the sum of the last values |
| Indicators.Evaluate | internal/indicators/market.go:94-159 | both engines: current value, average, window length and alert state over the days with a positive total, or an error when there are none |
| Indicators.ValueOfDay | internal/indicators/market.go:67-83 | a day without a positive total has no value; else breadth times the total is the number that rose, and advance/decline times the number that fell, or times one, is that number, or zero when nothing moved |
| Indicators.BreadthFollows | internal/indicators/market.go:67-72 | breadth rises with the rising symbols |
| Indicators.AdvanceFollows | internal/indicators/market.go:74-83 | advance/decline rises with the rising symbols and never with the falling ones |
| Indicators.AdvanceDeclineExample | internal/indicators/market.go:67-83 | 80 up and 20 down of 100 give 4 and 0.8 |
| Indicators.SumOne | internal/indicators/market.go:60-63 | the sum of one value is that value |
| Indicators.SumConcat | internal/indicators/market.go:60-63 | the sum of two lists of values is the sum of their sums |
| Indicators.EvaluationMeans | internal/indicators/market.go:94-110 | an evaluation fails if and only if no day has a positive total, and its current value is the ratio of the latest day that has |
| Indicators.SummaryMeans | internal/indicators/market.go:38-46 | the average times the window is the sum of the last ten values or all of them; high if and only if it reaches a positive high threshold, low if and only if it is not high and at most a positive low threshold |
| Indicators.EvaluationIsUnique | internal/indicators/market.go:94-159 | that description has one answer |
| Indicators.OlderDaysDoNotMatter | internal/indicators/market.go:106-115 | with positive totals nothing but the latest ten days can change the result |
| Indicators.BreadthIsFraction | internal/indicators/market.go:67-72 | the breadth and its average lie between 0 and 1 |
| Backfill.AddCandles | internal/market/backfill.go:199-225 | one symbol's candles add to every day exactly the steps that end on it, skipping the unusable ones |
| Backfill.StepMeans | internal/market/backfill.go:206-224 | told from two closes and a time alone: an unusable step counts for nothing, any other counts one symbol on its UTC day, up above 1.005 times the earlier close, down below 0.995 times it |
| Backfill.CandlesMean | internal/market/backfill.go:206-225 | a symbol's numbers for a day are the numbers of its usable, rising and falling steps that end on it |
| Backfill.UniverseOfOne | internal/market/backfill.go:195-225 | a single symbol contributes just those, or nothing when its candles cannot be fetched |
| Backfill.RiseExample | internal/market/backfill.go:212-223 | closes of 100 and then 110 make one symbol up on the second day and none down |
| Backfill.ProcessBatch | internal/market/backfill.go:168-231 | a batch holds exactly the totals of the symbols fetched before a cancel |
| Backfill.MergeBatch | internal/market/backfill.go:118-130 | in whatever order its map is walked, a batch is added to every day but today |
| Backfill.Accumulate | internal/market/backfill.go:103-145 | for every batch size, all batches together hold the totals of a single fold over the symbols; a cancel is reported exactly when it comes by the start of the last batch |
| Backfill.BackfillHistory | internal/market/backfill.go:72-166 | the table changes exactly on the days whose write got through: all accumulated days but today and the preserved ones, or as many as were written before the context died (none when it died by the end of the fetches), each to its full-universe totals |
| Backfill.RisingDay | internal/market/backfill.go:118-130 | a day on which every usable step rose by more than half a percent is accumulated with positive equal to total and none negative |
| Backfill.FetchedAreShares | internal/market/backfill.go:75-84 | the symbols fetched are the shares of the day, in order |
| Backfill.WrittenMeans | internal/market/backfill.go:157-161 | the written days have their accumulated counts, every other day is as it was |
| Backfill.WriteDays | internal/market/backfill.go:149-163 | in any order, every accumulated day that is not preserved is written, or as many as statements succeed; refused writes are lost without an error |
| Backfill.WrittenUnchangedIff | internal/market/backfill.go:149-163 | a backfill leaves the table untouched if and only if every write that got through repeated what was stored |
| Backfill.PartialWrite | internal/market/backfill.go:157-161 | two days to write and a context that dies after the first write leave one row stored |
| Backfill.NeedsBackfill | internal/market/backfill.go:48-59 | a backfill is needed if and only if fewer than 10 days are stored from 16 days ago to today |
| Backfill.GateAgrees | internal/market/backfill.go:20-28 | the gate answers alike for the trimmed file and the table |
| Backfill.PastTotalsAreUnique | internal/market/backfill.go:93-145 | the totals determine the accumulated table, so the batch size and merge order of `Accumulate` cannot show in it |
| Backfill.UniversePermutes | internal/market/backfill.go:184-227 | symbols may be merged in any order |
| Backfill.UniverseBounds | internal/market/backfill.go:218-224 | rising and falling symbols never outnumber the symbols counted |
| Backfill.TotalsArePlausible | internal/market/backfill.go:89-130 | when the service answers for the window it is asked for, every accumulated day lies in the 30 days before today and has a positive total that its rising and falling symbols do not exceed |
| Scanner.MergeTodayIntoHistory | internal/scanner/service.go:571-584 | the day's entry is overlaid or appended |
| Scanner.Service.Refresh | internal/scanner/service.go:198-247 | over any table of days up to today: the day's counts are stored if and only if it is 13:00 or later in Tehran, a share traded, nothing is stored of the day and the counts are not those of the latest stored day; else the table is unchanged; also which rows are stored and which history the indicators are computed from |
| Scanner.RecordsIff | internal/scanner/service.go:208-227 | the same condition of the decision itself, written over the minute of the clock, the quotes and the stored rows |
| Scanner.Service.RunBackfill | internal/scanner/service.go:506-544 | nothing happens with the gate closed or no symbols; otherwise the table becomes what `BackfillHistory` makes of it with the snapshot days of the last 30 days preserved |
| Scanner.SyncFromSnapshot | scripts/sync-breadth-from-snapshot.py:12-43 | the row of the Tehran day becomes the numbers of its positive, negative and all stored symbol rows, when there are any |
| Scanner.SyncRestoresAgreement | scripts/sync-breadth-from-snapshot.py:16-43 | so row and symbol rows of that day agree afterwards, also when they disagreed before, and no other day changes |
| FreezeProtocol.RecordedDayIsNew | internal/scanner/service.go:208-227 | a refresh with an up-to-date history records only a day later than all stored ones, with counts other than the latest row's and a positive total, and that day is also the Tehran day |
| FreezeProtocol.StoredDayLooksLikeHoliday | internal/scanner/service.go:214-221 | a refresh that gets symbols takes its day for a holiday if and only if the day is stored or its counts repeat the latest stored row; a stored day is not recorded again |
| FreezeProtocol.RefreshIsReadThenRecord | internal/scanner/service.go:198-236 | what the refresh method leaves in both tables is a read followed at once by a record of the protocol |
| FreezeProtocol.RefreshKeepsInv | internal/scanner/service.go:213-236 | a fresh record keeps the invariant, whether its symbol rows get stored or not: dates up to today, positive totals, snapshots agreeing with rows, recorded days still stored, a running backfill harmless, open refreshes aware of today |
| FreezeProtocol.FinishKeepsInv | internal/market/backfill.go:149-163 | so does each write of a backfill that started any number of refreshes earlier |
| FreezeProtocol.BackfillIsARun | internal/market/backfill.go:147-163 | what `BackfillHistory` does to a table, cancelled or not, is a possible run of single writes that touches nothing else |
| FreezeProtocol.SyncIsNoOp | scripts/sync-breadth-from-snapshot.py:16-43 | while snapshots agree with the rows the sync script changes nothing, at any hour |
| FreezeProtocol.ReopenKeepsTable | internal/market/sqlitestore.go:105-106 | nor does the cleanup at startup |
| FreezeProtocol.StepKeepsInv | internal/scanner/service.go:198-236 | every step of every writer keeps the invariant |
| FreezeProtocol.RunKeepsInv | internal/scanner/service.go:491-544 | so does every run without stale records |
| FreezeProtocol.FrozenDaysStayFrozen | internal/scanner/service.go:223-227 | in a run without stale records, what a refresh recorded is never recorded again and stays stored; with stored symbol rows its counts never change |
| FreezeProtocol.SnapshotsAlwaysAgree | internal/market/sqlitestore.go:167-169 | in such a run each snapshot day has a daily row with exactly the counts of its symbol rows, so the sync script changes nothing |
| FreezeProtocol.UnprotectedDayIsLost | internal/market/backfill.go:48-59 | a stored day without symbol rows that the gate does not shelter has a continuation of the run, gate included, in which a backfill changes it |
| FreezeProtocol.FrozenIff | internal/scanner/service.go:506-543 | between backfills, no continuation changes a stored day d if and only if its symbol rows are stored, it lies more than 30 days back, or at least 10 days are stored from day d+14 to day d+30, which keeps the gate closed while d is in reach |
| FreezeProtocol.BackfillKeepsDayIff | internal/scanner/service.go:534-543 | a day that the writes of one backfill would change survives them if and only if it has stored symbol rows |
| FreezeProtocol.RecordedOnceIff | internal/scanner/service.go:202-236 | over every run of overlapping refreshes, each date is recorded at most once if and only if no refresh records a day stored since it read |
| FreezeProtocol.UndisturbedRefreshIsFresh | internal/scanner/service.go:202-236 | a refresh is never stale when nobody records between its read and its record, whatever else happens meanwhile |
| FreezeProtocol.OverlapKeepsDayIff | internal/scanner/service.go:223-236 | when one refresh records and another records later that day, with any steps but records in between, the later row replaces the earlier; the day keeps its counts if and only if both classified the same counts, and snapshot and row then disagree exactly when only the earlier symbol rows were stored and the counts differ |
| FreezeProtocol.RecordRepeatsIff | internal/scanner/service.go:202-227 | after any run between its read and its record, what a refresh records repeats the latest stored day if and only if rows recorded or written meanwhile have made a row of those counts the latest |
| FreezeExamples.StoredDayExample | internal/scanner/service.go:214-221 | a stored day with counts 1/0/1 and a market that now counts 0/1/1: still taken for a holiday |
| FreezeExamples.DuplicateNamesLoseDay | internal/market/sqlitestore.go:228-232 | a concrete run in which a name occurs twice, the recorded day has no symbol rows and a backfill overwrites it |
| FreezeExamples.OverlapExample | internal/scanner/service.go:223-236 | a concrete run of two overlapping refreshes in which the second row replaces the first |
| FreezeExamples.FrozenByGate | internal/market/backfill.go:36-43 | day 30 with days 0 and 20 to 30 stored: day 0 has no symbol rows and is in reach, and no continuation changes it |
| FreezeExamples.RepeatExample | internal/scanner/service.go:218-227 | a concrete run in which a backfill writes yesterday with the counts that the refresh then records for today |
| FreezeProtocol.MergedHistoryEvaluatesLikeReread | internal/scanner/service.go:229-247 | after recording, both indicators of the history merged in memory equal those of a fresh read of 30 days |
| Spreads.PricePair | internal/bullspread/engine.go:124-157 | one pair yields its spread, or nothing, exactly as qualification demands |
| Spreads.InBandCheck | internal/bearputspread/engine.go:108-120 | the moneyness filter of each engine is a band with the stated open and closed ends |
| Spreads.PairGroup | internal/bullspread/engine.go:107-159 | on a group sorted by strike the triangular loops find all pairs of the full square |
| Spreads.GroupByExpiry | internal/bullspread/engine.go:79-99 | each bucket holds exactly the listed options of its expiry, and no bucket is empty |
| Spreads.PairAll | internal/bullspread/engine.go:101-160 | visiting the buckets in any order finds, as a multiset, all qualifying pairs |
| Pairs.CrossOne | internal/bullspread/engine.go:107-159 | the enumeration of one bought against one sold option is the result of that pair; with `Pairs.CrossConcat` this is all there is to the enumeration |
| Pairs.CrossConcat | internal/bullspread/engine.go:107-159 | the enumeration over two lists of bought options is that of the first followed by that of the second |
| Spreads.CalculateAll | internal/bearputspread/engine.go:66-165 | both engines return exactly all qualifying pairs, as a multiset; a spread is returned if and only if, field by field, it reports an eligible pair of the options; rewards never increase |
| Spreads.SpreadsAreQualifyingPairs | internal/bullspread/engine.go:79-157 | a spread is reported if and only if two listed options of one expiry meet the strike, moneyness and debit filters |
| Spreads.SpreadsAreReports | internal/bullspread/engine.go:79-157 | the same with every filter and every field of the record written out on the two options: names, strikes and expiry of the legs, ask and bid rows or closes, width, debit, profit and ratios |
| Spreads.PairingReports | internal/bearputspread/engine.go:124-159 | an ordered pair gives at most one spread, and gives one if and only if that reports the pair |
| Spreads.RewardBounds | internal/bullspread/engine.go:133-156 | reward is at least 11/9 at the money and 3 out of the money, and debit plus profit is width |
| Spreads.ListedMirrors | internal/bearputspread/engine.go:80-99 | reflecting strikes turns the listed calls into the listed puts |
| Spreads.MirrorLaw | internal/bearputspread/engine.go:101-161 | on reflected options the put engine finds the mirror images of the call engine's spreads, plus exactly those bought on the 5% edge, which at the money are none |
| Spreads.EdgeExample | internal/bearputspread/engine.go:116-119 | a call bought at 105 with the underlying at 100 gives no out-of-the-money spread, its mirror image gives one |
| SpreadAlerts.MaybeSendSpread | internal/alerts/engine.go:106-140 | an alert goes out exactly when the reward meets the positive threshold of its engine and kind and the send succeeds; the new table and callback list in every case |
| SpreadAlerts.DueMeans | internal/alerts/engine.go:107-113 | which threshold guards which engine and kind, and that one of zero or less lets nothing through |
| SpreadAlerts.KeyIdentifies | internal/alerts/engine.go:114-136 | two spreads have one alert key if and only if engine, kind, expiry and both legs are the same, as long as expiries and bought legs hold no colon |
| SpreadAlerts.KeyCollision | internal/alerts/engine.go:114-136 | with a colon in a name two different pairs of legs can have one key |
| SpreadAlerts.AlertSpreads | internal/scanner/service.go:413-418 | one alert loop adds rows for due spreads only, changes none, sends at most one message for each new row, and when deliveries succeed leaves every due spread with its row |
| RefreshAlerts.RefreshAndAlert | internal/scanner/service.go:407-438 | on a day that is stored or repeats the latest counts a refresh sends no spread alert and writes no alert row; on every other day each due spread ends up with its row |
| SpreadAlerts.EveryOTMSpreadIsDue | internal/config/config.go:122-125 | with the default thresholds every out-of-the-money spread is due for an alert |
| Broadcast.Broadcaster.Subscribe | internal/server/broadcaster.go:15-21 | a new empty channel joins the subscribers |
| Broadcast.Broadcaster.Unsubscribe | internal/server/broadcaster.go:23-27 | only that channel leaves |
| Broadcast.Broadcaster.Publish | internal/server/broadcaster.go:30-39 | every subscriber is offered the message once and takes it exactly when fewer than four are waiting |
| BroadcastRuns.DeliveryIsExact | internal/server/broadcaster.go:15-39 | in every run, received plus waiting messages are exactly those published while subscribed that found fewer than four waiting, in order |
| BroadcastRuns.SubscribedMeans | internal/server/broadcaster.go:15-27 | in every run a subscriber is one if and only if it has subscribed and not unsubscribed since |
| BroadcastRuns.OffersMean | internal/server/broadcaster.go:30-38 | a message is added to a subscriber's offers if and only if it is published while it is subscribed, and by nothing else |
| BroadcastRuns.DeliveryIsOrdered | internal/server/broadcaster.go:29-38 | so they form a subsequence of what was published, no buffer exceeds four, and with room at every offer nothing is missed |

## Left out

- Rounding of floating-point numbers and overflow of Go integers.
- The Black-Scholes formula: the price is an arbitrary function of sigma, and what the search needs of it is a hypothesis of each lemma; `K*exp(-r*T)` is an input.
- `ParseDate` and the day count to an expiry: a spread engine receives them as a function from expiry strings to days.
- Time zones other than UTC and a fixed Tehran offset; calendar dates are day numbers, which order like ISO strings.
- SQLite itself, the hash of alert keys and digest collisions: tables are maps, and a key is a pair of strings.
- The file behind the file store: loading and saving are assumed to give back what was written.
- Backfill.ProcessBatch: runs the candle fetches of a batch in order, because the semaphore admits one at a time; `Backfill.UniversePermutes` covers any other order.
- Scheduling, timeouts and pauses: these are ticks and cancellation points.
- FreezeProtocol.FrozenDaysStayFrozen: is about runs without stale records, the only ones in which no day is recorded twice (`RecordedOnceIff`), and does not model another step between the two writes of one record or a backfill whose preserved dates and today are read on two sides of midnight.
- Backfill.BackfillHistory: is proved over the SQL store; the file store ignores the context, so a cancel inside the last batch writes partial totals there and none of its writes is refused.
- A negative number of days passed to the file store's `LastDays`, which makes the Go code panic.
- AlertProtocol.SendsAreADayApart: counts a message as sent when the sender reports success, so one that arrived although an error was reported is not counted.
- RefreshAlerts.RefreshAndAlert: covers the spread alerts; the covered call, arbitrage, matrix and indicator alerts stand behind the same flag (`internal/scanner/service.go:362`, `389`, `451`, `457`), reopening alerts are sent elsewhere and do not.
- The other `MaybeSend` guards, volatility, matrix, covered call, arbitrage and pair engines, halts and the symbol registry: single conditions or single loops.
- The progress callback, the debug log of a refresh, HTTP handlers, clients, templates and configuration parsing.
- `cmd/rebackfill`, a manual tool that preserves only today by design.
- The two spread packages and the two indicator engines are one definition each, with a parameter where the code differs.
- Loops nested in one Go function are split over several methods here (`FromDayCount`, `SiftDown`, `PricePair`, `PairOne`, `PairGroup`, `Accumulate`, `AddBatch`, `WriteDays`, `BackfillUnpreserved`, `SpreadLoop`).
- Aliasing: records and groups that the code edits in place in slices are sequences held in a field or a local variable here.
