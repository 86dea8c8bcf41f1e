/** The day's market counts and the per-symbol rows behind them. */
module Classify {
  import opened Sequences

  datatype SymbolQuote = SymbolQuote(name: string, market: string, tradeValue: real, finalPriceChangePct: real)

  datatype Counts = Counts(positive: int, negative: int, total: int)

  datatype Status = Positive | Negative | Neutral

  datatype SymbolRow = SymbolRow(name: string, changePct: real, status: Status)

  /** Market categories that are not joint-stock companies. */
  const EXCLUDED_MARKETS := {
    "بازار صندوق های قابل معامله",
    "صندوق های قابل معامله",
    "صندوق های کالایی",
    "بازار ابزارهاي نوين مالي فرابورس",
    "بازار نوآفرین - رشد",
    "بازار نوآفرین - دانش بنیان",
    "بورس کالا"
  }

  /** Only derivative names contain digits. */
  predicate IsOptionSymbol(name: string) {
    exists i :: 0 <= i < |name| && '0' <= name[i] <= '9'
  }

  /** Pre-emptive rights end with the letter U+062D. */
  predicate IsHaqTaqadom(name: string) {
    |name| >= 2 && name[|name| - 1] == '\U{062D}'
  }

  predicate Traded(q: SymbolQuote) {
    q.tradeValue > 0.0 && !IsOptionSymbol(q.name) && !IsHaqTaqadom(q.name) && q.market !in EXCLUDED_MARKETS
  }

  function StatusOf(pct: real): Status {
    if pct > 0.5 then Positive else if pct < -0.5 then Negative else Neutral
  }

  function RowOf(q: SymbolQuote): SymbolRow {
    SymbolRow(q.name, q.finalPriceChangePct, StatusOf(q.finalPriceChangePct))
  }

  /** The rows of all traded symbols, in the order the symbols arrive. */
  function Universe(symbols: seq<SymbolQuote>): (rows: seq<SymbolRow>)
    ensures |rows| <= |symbols|
  {
    if symbols == [] then []
    else
      var q := symbols[|symbols| - 1];
      var rest := Universe(symbols[..|symbols| - 1]);
      if Traded(q) then rest + [RowOf(q)] else rest
  }

  function Count(rows: seq<SymbolRow>, s: Status): nat {
    if rows == [] then 0
    else Count(rows[..|rows| - 1], s) + if rows[|rows| - 1].status == s then 1 else 0
  }

  /** What the aggregate query over stored rows answers: rows per status and rows in all. */
  function Tally(rows: seq<SymbolRow>): Counts {
    Counts(Count(rows, Positive), Count(rows, Negative), |rows|)
  }

  lemma CountOneMore(rows: seq<SymbolRow>, r: SymbolRow, s: Status)
    ensures Count(rows + [r], s) == Count(rows, s) + if r.status == s then 1 else 0
  {
    assert (rows + [r])[..|rows|] == rows;
  }

  method ClassifyDay(symbols: seq<SymbolQuote>) returns (day: Counts)
    ensures day == Tally(Universe(symbols))
    ensures day == Counts(|Risers(symbols)|, |Fallers(symbols)|, |Shares(symbols)|)
  {
    var positive, negative, total := 0, 0, 0;
    for i := 0 to |symbols|
      invariant positive == Count(Universe(symbols[..i]), Positive)
      invariant negative == Count(Universe(symbols[..i]), Negative)
      invariant total == |Universe(symbols[..i])|
    {
      var sym := symbols[i];
      assert symbols[..i + 1][..i] == symbols[..i];
      if sym.tradeValue <= 0.0 || IsOptionSymbol(sym.name) || IsHaqTaqadom(sym.name) {
        continue;
      }
      if sym.market in EXCLUDED_MARKETS {
        continue;
      }
      assert Universe(symbols[..i + 1]) == Universe(symbols[..i]) + [RowOf(sym)];
      CountOneMore(Universe(symbols[..i]), RowOf(sym), Positive);
      CountOneMore(Universe(symbols[..i]), RowOf(sym), Negative);
      total := total + 1;
      if sym.finalPriceChangePct > 0.5 {
        positive := positive + 1;
      } else if sym.finalPriceChangePct < -0.5 {
        negative := negative + 1;
      }
    }
    assert symbols[..|symbols|] == symbols;
    DayCounts(symbols);
    return Counts(positive, negative, total);
  }

  /** The same symbols as rows, best performer first. */
  method SymbolRows(symbols: seq<SymbolQuote>) returns (rows: seq<SymbolRow>)
    ensures multiset(rows) == multiset(Universe(symbols))
    ensures forall i, j :: 0 <= i < j < |rows| ==> rows[i].changePct >= rows[j].changePct
  {
    var out := [];
    for i := 0 to |symbols|
      invariant out == Universe(symbols[..i])
    {
      var sym := symbols[i];
      assert symbols[..i + 1][..i] == symbols[..i];
      if sym.tradeValue <= 0.0 || IsOptionSymbol(sym.name) || IsHaqTaqadom(sym.name) {
        continue;
      }
      if sym.market in EXCLUDED_MARKETS {
        continue;
      }
      var status := Neutral;
      if sym.finalPriceChangePct > 0.5 {
        status := Positive;
      } else if sym.finalPriceChangePct < -0.5 {
        status := Negative;
      }
      out := out + [SymbolRow(sym.name, sym.finalPriceChangePct, status)];
    }
    assert symbols[..|symbols|] == symbols;
    var key := (r: SymbolRow) => r.changePct;
    rows := SortDescending(out, key);
    assert forall i, j :: 0 <= i < j < |rows| ==> key(rows[i]) >= key(rows[j]);
  }

  lemma {:induction false} CountConcat(a: seq<SymbolRow>, b: seq<SymbolRow>, s: Status)
    ensures Count(a + b, s) == Count(a, s) + Count(b, s)
    decreases |b|
  {
    if b == [] {
      assert a + b == a;
    } else {
      assert (a + b)[..|a + b| - 1] == a + b[..|b| - 1];
      CountConcat(a, b[..|b| - 1], s);
    }
  }

  lemma CountWithout(b: seq<SymbolRow>, i: nat, s: Status)
    requires i < |b|
    ensures Count(b, s) == Count(Without(b, i), s) + if b[i].status == s then 1 else 0
  {
    var x, y := b[..i], b[i + 1..];
    CountConcat(x, y, s);
    CountOneMore(x, b[i], s);
    CountConcat(x + [b[i]], y, s);
    assert b == (x + [b[i]]) + y;
  }

  /** The aggregate does not depend on the order of the rows. */
  lemma {:induction false} CountPermutes(a: seq<SymbolRow>, b: seq<SymbolRow>, s: Status)
    requires multiset(a) == multiset(b)
    ensures Count(a, s) == Count(b, s)
    decreases |a|
  {
    if a == [] {
      assert |multiset(b)| == 0;
    } else {
      var i := FindLast(a, b);
      CountPermutes(a[..|a| - 1], Without(b, i), s);
      CountWithout(b, i, s);
    }
  }

  lemma {:induction false} TallyBounds(rows: seq<SymbolRow>)
    ensures var t := Tally(rows); t.positive + t.negative <= t.total
  {
    if rows != [] {
      TallyBounds(rows[..|rows| - 1]);
    }
  }

  /** Sorted or not, the stored rows reproduce the counts recorded for the day. */
  lemma RowsReproduceDay(symbols: seq<SymbolQuote>, rows: seq<SymbolRow>)
    requires multiset(rows) == multiset(Universe(symbols))
    ensures Tally(rows) == Tally(Universe(symbols))
  {
    CountPermutes(rows, Universe(symbols), Positive);
    CountPermutes(rows, Universe(symbols), Negative);
    assert |rows| == |multiset(rows)| == |Universe(symbols)|;
  }

  // ---------- which symbols count, and how ----------

  /**
   A share that traded: money changed hands, its name has no digit and is not a longer name
   ending in the letter U+062D, and its market is none of the seven for funds, new
   instruments, start-ups and commodities.
   */
  ghost predicate Share(q: SymbolQuote) {
    && q.tradeValue > 0.0
    && (forall i :: 0 <= i < |q.name| ==> q.name[i] < '0' || '9' < q.name[i])
    && (|q.name| <= 1 || q.name[|q.name| - 1] != 'ح')
    && q.market != "بازار صندوق های قابل معامله" && q.market != "صندوق های قابل معامله" && q.market != "صندوق های کالایی"
    && q.market != "بازار ابزارهاي نوين مالي فرابورس" && q.market != "بورس کالا"
    && q.market != "بازار نوآفرین - رشد" && q.market != "بازار نوآفرین - دانش بنیان"
  }

  lemma TradedIsShare(q: SymbolQuote)
    ensures Traded(q) <==> Share(q)
  {
  }

  /** Positive means up by more than half a percent, negative down by more than half a percent. */
  lemma RowMeans(q: SymbolQuote)
    ensures var r := RowOf(q);
            && r.name == q.name && r.changePct == q.finalPriceChangePct
            && (r.status == Positive <==> q.finalPriceChangePct > 0.5)
            && (r.status == Negative <==> q.finalPriceChangePct < -0.5)
  {
  }

  ghost function Shares(symbols: seq<SymbolQuote>): set<nat> {
    set i: nat | i < |symbols| && Share(symbols[i])
  }

  ghost function Risers(symbols: seq<SymbolQuote>): set<nat> {
    set i: nat | i < |symbols| && Share(symbols[i]) && symbols[i].finalPriceChangePct > 0.5
  }

  ghost function Fallers(symbols: seq<SymbolQuote>): set<nat> {
    set i: nat | i < |symbols| && Share(symbols[i]) && symbols[i].finalPriceChangePct < -0.5
  }

  lemma OneMoreSymbol(front: seq<SymbolQuote>, q: SymbolQuote)
    ensures var n := |front|;
            && Shares(front + [q]) == Shares(front) + (if Share(q) then {n} else {})
            && Risers(front + [q]) == Risers(front) + (if Share(q) && q.finalPriceChangePct > 0.5 then {n} else {})
            && Fallers(front + [q]) == Fallers(front) + (if Share(q) && q.finalPriceChangePct < -0.5 then {n} else {})
  {
    assert forall i: nat :: i < |front| ==> (front + [q])[i] == front[i];
  }

  lemma CountsOneMore(front: seq<SymbolQuote>, q: SymbolQuote)
    ensures |Shares(front + [q])| == |Shares(front)| + if Share(q) then 1 else 0
    ensures |Risers(front + [q])| == |Risers(front)| + if Share(q) && q.finalPriceChangePct > 0.5 then 1 else 0
    ensures |Fallers(front + [q])| == |Fallers(front)| + if Share(q) && q.finalPriceChangePct < -0.5 then 1 else 0
  {
    OneMoreSymbol(front, q);
  }

  lemma UniverseStep(front: seq<SymbolQuote>, q: SymbolQuote)
    ensures Universe(front + [q]) == if Share(q) then Universe(front) + [RowOf(q)] else Universe(front)
  {
    assert (front + [q])[..|front|] == front;
    TradedIsShare(q);
  }

  /** The counts of a day, told from the quotes: shares, shares up and shares down by more than half a percent. */
  lemma {:induction false} DayCounts(symbols: seq<SymbolQuote>)
    ensures Tally(Universe(symbols)) == Counts(|Risers(symbols)|, |Fallers(symbols)|, |Shares(symbols)|)
  {
    if symbols == [] {
      assert Risers(symbols) == {} && Fallers(symbols) == {} && Shares(symbols) == {};
    } else {
      var front, q := symbols[..|symbols| - 1], symbols[|symbols| - 1];
      assert symbols == front + [q];
      DayCounts(front);
      CountsOneMore(front, q);
      UniverseStep(front, q);
      RowMeans(q);
      if Share(q) {
        CountOneMore(Universe(front), RowOf(q), Positive);
        CountOneMore(Universe(front), RowOf(q), Negative);
      }
    }
  }

  /** A row is listed exactly when it tells the name, the change and the direction of a share. */
  lemma {:induction false} RowsAreShares(symbols: seq<SymbolQuote>, r: SymbolRow)
    ensures r in Universe(symbols) <==> exists i: nat ::
      && i < |symbols| && Share(symbols[i]) && r.name == symbols[i].name && r.changePct == symbols[i].finalPriceChangePct
      && (r.status == Positive <==> r.changePct > 0.5) && (r.status == Negative <==> r.changePct < -0.5)
  {
    if symbols != [] {
      var front, q := symbols[..|symbols| - 1], symbols[|symbols| - 1];
      assert symbols == front + [q];
      RowsAreShares(front, r);
      UniverseStep(front, q);
      RowMeans(q);
      if r in Universe(front) {
        var i: nat :| i < |front| && Share(front[i]) && r.name == front[i].name && r.changePct == front[i].finalPriceChangePct
          && (r.status == Positive <==> r.changePct > 0.5) && (r.status == Negative <==> r.changePct < -0.5);
        assert symbols[i] == front[i];
      } else if Share(q) && r == RowOf(q) {
        assert symbols[|front|] == q;
      }
    }
  }

  ghost function WithStatus(rows: seq<SymbolRow>, s: Status): set<nat> {
    set i: nat | i < |rows| && rows[i].status == s
  }

  /** The aggregate query counts the rows of each status, by position. */
  lemma {:induction false} CountsRows(rows: seq<SymbolRow>, s: Status)
    ensures Count(rows, s) == |WithStatus(rows, s)|
  {
    if rows == [] {
      assert WithStatus(rows, s) == {};
    } else {
      var front, r := rows[..|rows| - 1], rows[|rows| - 1];
      CountsRows(front, s);
      assert rows == front + [r];
      OneMoreRow(front, r, s);
    }
  }

  lemma OneMoreRow(front: seq<SymbolRow>, r: SymbolRow, s: Status)
    ensures |WithStatus(front + [r], s)| == |WithStatus(front, s)| + if r.status == s then 1 else 0
  {
    StatusOfOneMore(front, r, s);
  }

  lemma StatusOfOneMore(front: seq<SymbolRow>, r: SymbolRow, s: Status)
    ensures var n: nat := |front|; WithStatus(front + [r], s) == WithStatus(front, s) + (if r.status == s then {n} else {})
  {
    assert forall i: nat :: i < |front| ==> (front + [r])[i] == front[i];
  }
}
