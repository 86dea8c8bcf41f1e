/**
 The alerts at the end of a refresh.  All of them stand behind its holiday flag; the four
 spread loops are modelled here.
 */
module RefreshAlerts {
  import opened Classify
  import opened DailyTable
  import opened FreezeProtocol
  import opened Scanner
  import opened SpreadAlerts
  import opened Spreads
  import AlertHistory

  /** What every refresh of a stored day, or of a day repeating the latest stored counts, is taken for. */
  ghost predicate Quiet(t: Table, symbols: seq<SymbolQuote>, today: Day) {
    symbols != [] && (today in t || RepeatsLatest(t, Tally(Universe(symbols))))
  }

  ghost predicate RowsUpTo(t: Table, today: Day) {
    forall d <- t :: d <= today && t[d].total > 0
  }

  /** What the options market shows a refresh. */
  datatype Market = Market(options: seq<Option>, price: real, cal: Calendar)

  /** The attempts of one loop after another, for each engine and moneyness. */
  type Attempts = (Side, FilterKind) -> (nat -> Attempt)

  ghost predicate Delivers(attempts: nat -> Attempt) {
    forall n :: attempts(n).delivered
  }

  /** Each due spread that the engine of this side finds has a row. */
  ghost predicate AllClaimed(rows: AlertHistory.Table, cfg: Config, side: Side, kind: FilterKind, m: Market) {
    m.price > 0.0 ==> DueAreClaimed(rows, cfg, side, kind, AllSpreads(side, kind, m.price, m.cal, m.options))
  }

  lemma ClaimedStays(before: AlertHistory.Table, after: AlertHistory.Table, cfg: Config, side: Side, kind: FilterKind, m: Market)
    requires AllClaimed(before, cfg, side, kind, m) && forall k <- before :: k in after
    ensures AllClaimed(after, cfg, side, kind, m)
  {
  }

  /** One engine and moneyness: compute the spreads and, unless the day looks like a holiday, alert them. */
  method SpreadLoop(engine: AlertHistory.Engine, cfg: Config, side: Side, kind: FilterKind, m: Market, holiday: bool,
                    message: Spread -> string, attempts: nat -> Attempt)
    modifies engine, engine.store
    ensures holiday ==> engine.store.rows == old(engine.store.rows) && engine.notified == old(engine.notified)
    ensures forall k <- old(engine.store.rows) :: k in engine.store.rows
    ensures !holiday && engine.configured && Delivers(attempts) ==> AllClaimed(engine.store.rows, cfg, side, kind, m)
  {
    if m.price > 0.0 {
      var spreads := CalculateAll(side, m.options, m.price, kind, m.cal);
      if !holiday {
        AlertSpreads(engine, cfg, side, kind, spreads, message, attempts);
        SameElements(spreads, AllSpreads(side, kind, m.price, m.cal, m.options));
      }
    }
  }

  lemma SameElements<T>(a: seq<T>, b: seq<T>)
    requires multiset(a) == multiset(b)
    ensures forall x :: x in b <==> x in a
  {
    assert forall x :: x in a <==> x in multiset(a);
    assert forall x :: x in b <==> x in multiset(b);
  }

  /** Both kinds of moneyness of one engine. */
  method SideLoops(engine: AlertHistory.Engine, cfg: Config, side: Side, m: Market, holiday: bool,
                   message: Spread -> string, attempts: Attempts)
    modifies engine, engine.store
    ensures holiday ==> engine.store.rows == old(engine.store.rows) && engine.notified == old(engine.notified)
    ensures forall k <- old(engine.store.rows) :: k in engine.store.rows
    ensures !holiday && engine.configured && Delivers(attempts(side, ATM)) && Delivers(attempts(side, OTM)) ==>
              AllClaimed(engine.store.rows, cfg, side, ATM, m) && AllClaimed(engine.store.rows, cfg, side, OTM, m)
  {
    SpreadLoop(engine, cfg, side, ATM, m, holiday, message, attempts(side, ATM));
    ghost var rows := engine.store.rows;
    SpreadLoop(engine, cfg, side, OTM, m, holiday, message, attempts(side, OTM));
    if AllClaimed(rows, cfg, side, ATM, m) {
      ClaimedStays(rows, engine.store.rows, cfg, side, ATM, m);
    }
  }

  method AllLoops(engine: AlertHistory.Engine, cfg: Config, m: Market, holiday: bool, message: Spread -> string, attempts: Attempts)
    modifies engine, engine.store
    ensures holiday ==> engine.store.rows == old(engine.store.rows) && engine.notified == old(engine.notified)
    ensures !holiday && engine.configured && (forall side, kind :: Delivers(attempts(side, kind))) ==>
              forall side, kind :: AllClaimed(engine.store.rows, cfg, side, kind, m)
  {
    SideLoops(engine, cfg, BullCall, m, holiday, message, attempts);
    ghost var rows := engine.store.rows;
    SideLoops(engine, cfg, BearPut, m, holiday, message, attempts);
    forall kind | AllClaimed(rows, cfg, BullCall, kind, m) ensures AllClaimed(engine.store.rows, cfg, BullCall, kind, m) {
      ClaimedStays(rows, engine.store.rows, cfg, BullCall, kind, m);
    }
  }

  /**
   A refresh with its spread alerts.  On a quiet day no alert row is written and nobody is
   notified, whatever spreads there are; on any other day every due spread has its row.
   */
  method RefreshAndAlert(service: Service, engine: AlertHistory.Engine, cfg: Config, symbols: seq<SymbolQuote>, now: int,
                         m: Market, message: Spread -> string, attempts: Attempts)
    requires RowsUpTo(service.store.stats, UtcDay(now))
    modifies service.store`stats, service.store`snapshots, engine, engine.store
    ensures Quiet(old(service.store.stats), symbols, UtcDay(now)) ==>
              engine.store.rows == old(engine.store.rows) && engine.notified == old(engine.notified)
    ensures !Quiet(old(service.store.stats), symbols, UtcDay(now)) && engine.configured
            && (forall side, kind :: Delivers(attempts(side, kind))) ==>
              forall side, kind :: AllClaimed(engine.store.rows, cfg, side, kind, m)
  {
    ghost var stats := service.store.stats;
    var holiday, read, history, rows, b, ad := service.Refresh(symbols, now);
    HolidayIffQuiet(stats, symbols, now, read);
    AllLoops(engine, cfg, m, holiday, message, attempts);
  }

  lemma HolidayIffQuiet(t: Table, symbols: seq<SymbolQuote>, now: int, history: seq<DailyMarket>)
    requires IsLatest(history, t, HISTORY_DAYS) && RowsUpTo(t, UtcDay(now))
    ensures LooksLikeHoliday(history, symbols, UtcDay(now)) <==> Quiet(t, symbols, UtcDay(now))
  {
    StoredDayLooksLikeHoliday(State(now, t, map[], map[], [], None), symbols, history);
  }
}
