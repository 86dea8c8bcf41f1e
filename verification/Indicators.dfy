/** The breadth and advance/decline averages over the latest days. */
module Indicators {
  import opened Classify
  import opened DailyTable

  datatype Thresholds = Thresholds(high: real, low: real)

  datatype AlertState = High | Low | Normal

  datatype Indicator = Indicator(current: real, average: real, daysInWindow: int, state: AlertState)

  datatype Outcome<T> = Value(value: T) | Error

  const WINDOW: nat := 10

  function StateOf(th: Thresholds, value: real): AlertState {
    if th.high > 0.0 && value >= th.high then High
    else if th.low > 0.0 && value <= th.low then Low
    else Normal
  }

  function Sum(s: seq<real>): real {
    if s == [] then 0.0 else Sum(s[..|s| - 1]) + s[|s| - 1]
  }

  method AverageLast(values: seq<real>, days: int) returns (r: Outcome<real>)
    ensures r.Error? <==> days <= 0 || values == []
    ensures r.Value? ==> r.value * |Last(values, days)| as real == Sum(Last(values, days))
  {
    if days <= 0 || |values| == 0 {
      return Error;
    }
    var n := days;
    if |values| < n {
      n := |values|;
    }
    var slice := values[|values| - n..];
    assert slice == Last(values, days);
    var sum := SumUp(slice);
    QuotientTimes(sum, |slice| as real);
    return Value(sum / |slice| as real);
  }

  method SumUp(slice: seq<real>) returns (sum: real)
    ensures sum == Sum(slice)
  {
    sum := 0.0;
    for i := 0 to |slice|
      invariant sum == Sum(slice[..i])
    {
      assert slice[..i + 1][..i] == slice[..i];
      sum := sum + slice[i];
    }
    assert slice[..|slice|] == slice;
  }

  lemma QuotientTimes(x: real, n: real)
    requires n > 0.0
    ensures x / n * n == x
  {
  }

  datatype Kind = Breadth | AdvanceDecline

  /** The day's value; an advance/decline day without movers has none. */
  function DailyValue(kind: Kind, c: Counts): Outcome<real> {
    match kind
    case Breadth =>
      if c.total <= 0 then Error else Value(c.positive as real / c.total as real)
    case AdvanceDecline =>
      if c.positive <= 0 && c.negative <= 0 then Error
      else Value(c.positive as real / (if c.negative <= 0 then 1 else c.negative) as real)
  }

  /** The values of the days with a positive total; a missing value counts as zero. */
  function Values(kind: Kind, history: seq<DailyMarket>): seq<real> {
    if history == [] then []
    else
      var rest := Values(kind, history[..|history| - 1]);
      var c := history[|history| - 1].counts;
      if c.total <= 0 then rest
      else rest + [ValueOrZero(DailyValue(kind, c))]
  }

  function ValueOrZero(v: Outcome<real>): real {
    match v
    case Value(x) => x
    case Error => 0.0
  }

  /** An error without values; otherwise the latest value and the average of the last ten. */
  ghost predicate Summarizes(th: Thresholds, values: seq<real>, r: Outcome<Indicator>) {
    if values == [] then r.Error?
    else
      var window := Last(values, WINDOW);
      && r.Value?
      && r.value.current == values[|values| - 1]
      && r.value.average * |window| as real == Sum(window)
      && r.value.daysInWindow == |window|
      && r.value.state == StateOf(th, r.value.average)
  }

  ghost predicate Evaluates(kind: Kind, th: Thresholds, history: seq<DailyMarket>, r: Outcome<Indicator>) {
    Summarizes(th, Values(kind, history), r)
  }

  method Evaluate(kind: Kind, th: Thresholds, history: seq<DailyMarket>) returns (r: Outcome<Indicator>)
    ensures Evaluates(kind, th, history, r)
  {
    var values: seq<real> := [];
    for i := 0 to |history|
      invariant values == Values(kind, history[..i])
    {
      ValuesStep(kind, history, i);
      var day := history[i].counts;
      if day.total <= 0 {
        continue;
      }
      var v := DailyValue(kind, day);
      values := values + [ValueOrZero(v)];
    }
    assert history[..|history|] == history;
    r := Summarize(th, values);
  }

  method Summarize(th: Thresholds, values: seq<real>) returns (r: Outcome<Indicator>)
    ensures Summarizes(th, values, r)
  {
    if |values| == 0 {
      return Error;
    }
    var avg := AverageLast(values, WINDOW);
    if avg.Error? {
      return Error;
    }
    var n := WINDOW;
    if |values| < n {
      n := |values|;
    }
    return Value(Indicator(values[|values| - 1], avg.value, n, StateOf(th, avg.value)));
  }

  lemma ValuesStep(kind: Kind, history: seq<DailyMarket>, i: nat)
    requires i < |history|
    ensures var c, rest := history[i].counts, Values(kind, history[..i]);
            Values(kind, history[..i + 1]) == if c.total <= 0 then rest else rest + [ValueOrZero(DailyValue(kind, c))]
  {
    assert history[..i + 1][..i] == history[..i];
  }

  // ---------- properties ----------

  /** The evaluation has one answer. */
  lemma EvaluationIsUnique(kind: Kind, th: Thresholds, history: seq<DailyMarket>, a: Outcome<Indicator>, b: Outcome<Indicator>)
    requires Evaluates(kind, th, history, a) && Evaluates(kind, th, history, b)
    ensures a == b
  {
    var values := Values(kind, history);
    if values != [] {
      var n := |Last(values, WINDOW)| as real;
      assert n > 0.0;
      assert a.value.average == Sum(Last(values, WINDOW)) / n == b.value.average;
    }
  }

  ghost predicate AllPositive(history: seq<DailyMarket>) {
    forall i :: 0 <= i < |history| ==> history[i].counts.total > 0
  }

  lemma {:induction false} ValuesConcat(kind: Kind, a: seq<DailyMarket>, b: seq<DailyMarket>)
    ensures Values(kind, a + b) == Values(kind, a) + Values(kind, b)
  {
    if b == [] {
      assert a + b == a;
    } else {
      assert (a + b)[..|a + b| - 1] == a + b[..|b| - 1];
      ValuesConcat(kind, a, b[..|b| - 1]);
    }
  }

  lemma {:induction false} ValuesLength(kind: Kind, s: seq<DailyMarket>)
    ensures |Values(kind, s)| <= |s|
    ensures AllPositive(s) ==> |Values(kind, s)| == |s|
  {
    if s != [] {
      ValuesLength(kind, s[..|s| - 1]);
    }
  }

  /** With positive totals only the latest ten days matter. */
  lemma OlderDaysDoNotMatter(kind: Kind, th: Thresholds, older: seq<DailyMarket>, recent: seq<DailyMarket>, r: Outcome<Indicator>)
    requires AllPositive(recent) && |recent| >= WINDOW
    ensures Evaluates(kind, th, older + recent, r) <==> Evaluates(kind, th, recent, r)
  {
    ValuesConcat(kind, older, recent);
    ValuesLength(kind, recent);
    OlderValuesDoNotMatter(th, Values(kind, older), Values(kind, recent), r);
  }

  lemma OlderValuesDoNotMatter(th: Thresholds, a: seq<real>, b: seq<real>, r: Outcome<Indicator>)
    requires |b| >= WINDOW
    ensures Summarizes(th, a + b, r) <==> Summarizes(th, b, r)
  {
    LastOfTail(a, b, WINDOW);
  }

  lemma LastOfTail<T>(a: seq<T>, b: seq<T>, n: nat)
    requires |b| >= n > 0
    ensures Last(a + b, n) == Last(b, n) && (a + b)[|a + b| - 1] == b[|b| - 1]
  {
  }

  lemma {:induction false} BreadthValuesInUnit(s: seq<DailyMarket>, i: nat)
    requires i < |Values(Breadth, s)|
    requires forall k :: 0 <= k < |s| ==> 0 <= s[k].counts.positive <= s[k].counts.total
    ensures 0.0 <= Values(Breadth, s)[i] <= 1.0
  {
    var front := s[..|s| - 1];
    if i < |Values(Breadth, front)| {
      BreadthValuesInUnit(front, i);
    } else {
      var c := s[|s| - 1].counts;
      assert Values(Breadth, s)[i] * c.total as real == c.positive as real;
    }
  }

  lemma {:induction false} SumBounds(s: seq<real>)
    requires forall i :: 0 <= i < |s| ==> 0.0 <= s[i] <= 1.0
    ensures 0.0 <= Sum(s) <= |s| as real
  {
    if s != [] {
      SumBounds(s[..|s| - 1]);
    }
  }

  lemma QuotientInUnit(x: real, n: real, sum: real)
    requires n > 0.0 && x * n == sum && 0.0 <= sum <= n
    ensures 0.0 <= x <= 1.0
  {
    assert x == sum / n;
  }

  /** A breadth average is a fraction. */
  lemma BreadthIsFraction(th: Thresholds, history: seq<DailyMarket>, r: Outcome<Indicator>)
    requires Evaluates(Breadth, th, history, r) && r.Value?
    requires forall k :: 0 <= k < |history| ==> 0 <= history[k].counts.positive <= history[k].counts.total
    ensures 0.0 <= r.value.average <= 1.0 && 0.0 <= r.value.current <= 1.0
  {
    var values := Values(Breadth, history);
    forall i | 0 <= i < |values| ensures 0.0 <= values[i] <= 1.0 {
      BreadthValuesInUnit(history, i);
    }
    AverageInUnit(Last(values, WINDOW), r.value.average);
  }

  lemma AverageInUnit(window: seq<real>, average: real)
    requires window != [] && average * |window| as real == Sum(window)
    requires forall i :: 0 <= i < |window| ==> 0.0 <= window[i] <= 1.0
    ensures 0.0 <= average <= 1.0
  {
    SumBounds(window);
    QuotientInUnit(average, |window| as real, Sum(window));
  }

  // ---------- what the numbers mean ----------

  /**
   The value of one day, as a product so that it names no quotient: breadth times the
   total is the number of rising symbols; advance/decline times the falling symbols, or
   times one when none fell, is that number too, and zero when nothing moved.
   */
  lemma ValueOfDay(kind: Kind, day: DailyMarket)
    ensures day.counts.total <= 0 ==> Values(kind, [day]) == []
    ensures day.counts.total > 0 ==> |Values(kind, [day])| == 1
    ensures day.counts.total > 0 && kind == Breadth ==>
              Values(kind, [day])[0] * day.counts.total as real == day.counts.positive as real
    ensures day.counts.total > 0 && kind == AdvanceDecline && (day.counts.positive > 0 || day.counts.negative > 0) ==>
              Values(kind, [day])[0] * (if day.counts.negative > 1 then day.counts.negative else 1) as real == day.counts.positive as real
    ensures day.counts.total > 0 && kind == AdvanceDecline && day.counts.positive <= 0 && day.counts.negative <= 0 ==>
              Values(kind, [day])[0] == 0.0
  {
    assert [day][..0] == [];
    var c := day.counts;
    if c.total > 0 {
      QuotientTimes(c.positive as real, c.total as real);
      QuotientTimes(c.positive as real, (if c.negative > 1 then c.negative else 1) as real);
    }
  }

  /** With one more rising symbol breadth rises; it does not look at falling ones. */
  lemma BreadthFollows(v: real, w: real, a: Counts, b: Counts)
    requires a.total == b.total > 0 && 0 <= a.positive <= b.positive
    requires v * a.total as real == a.positive as real && w * b.total as real == b.positive as real
    ensures a.positive < b.positive ==> v < w
    ensures a.positive == b.positive ==> v >= w
  {
    CompareProducts(v, w, a.total as real, b.total as real, a.positive as real, b.positive as real);
  }

  /** v is the advance/decline value of a day that counts. */
  ghost predicate IsRatio(v: real, c: Counts) {
    if c.positive <= 0 && c.negative <= 0 then v == 0.0
    else v * (if c.negative > 1 then c.negative else 1) as real == c.positive as real
  }

  /** More rising symbols raise advance/decline; more falling ones never raise it. */
  lemma AdvanceFollows(v: real, w: real, a: Counts, b: Counts)
    requires 0 <= a.positive <= b.positive && 0 <= a.negative && 0 <= b.negative && IsRatio(v, a) && IsRatio(w, b)
    ensures a.positive < b.positive && a.negative == b.negative ==> v < w
    ensures a.positive == b.positive && a.negative <= b.negative ==> v >= w
  {
    var m := (if a.negative > 1 then a.negative else 1) as real;
    var n := (if b.negative > 1 then b.negative else 1) as real;
    CompareProducts(v, w, m, n, a.positive as real, b.positive as real);
  }

  lemma CompareProducts(v: real, w: real, m: real, n: real, p: real, q: real)
    requires m > 0.0 && n > 0.0 && p >= 0.0 && v * m == p && w * n == q
    ensures m == n && p < q ==> v < w
    ensures m <= n && p == q ==> v >= w
  {
    if m == n && p < q {
      assert (w - v) * m > 0.0;
    }
    if m <= n && p == q {
      assert w >= 0.0;
      assert w * m <= w * n;
      assert (v - w) * m >= 0.0;
    }
  }

  lemma {:induction false} SumConcat(a: seq<real>, b: seq<real>)
    ensures Sum(a + b) == Sum(a) + Sum(b)
  {
    if b == [] {
      assert a + b == a;
    } else {
      assert (a + b)[..|a + b| - 1] == a + b[..|b| - 1];
      SumConcat(a, b[..|b| - 1]);
    }
  }

  lemma SumOne(x: real)
    ensures Sum([x]) == x
  {
    assert [x][..0] == [];
  }

  /** The latest day that counts and the days after it that do not. */
  lemma {:induction false} LatestCounting(kind: Kind, history: seq<DailyMarket>) returns (k: nat)
    requires Values(kind, history) != []
    ensures k < |history| && history[k].counts.total > 0 && forall j :: k < j < |history| ==> history[j].counts.total <= 0
    ensures Values(kind, [history[k]]) == [Values(kind, history)[|Values(kind, history)| - 1]]
  {
    var last := |history| - 1;
    if history[last].counts.total > 0 {
      k := last;
      assert [history[last]][..0] == [];
    } else {
      k := LatestCounting(kind, history[..last]);
    }
  }

  /** There is nothing to evaluate exactly when no day counts. */
  lemma {:induction false} NoValuesIff(kind: Kind, history: seq<DailyMarket>)
    ensures Values(kind, history) == [] <==> forall i :: 0 <= i < |history| ==> history[i].counts.total <= 0
  {
    if history != [] {
      NoValuesIff(kind, history[..|history| - 1]);
    }
  }

  /**
   The average is over the last ten values or all of them, and the state compares that
   average, high first, with the thresholds that are positive.
   */
  lemma SummaryMeans(th: Thresholds, values: seq<real>, r: Outcome<Indicator>)
    requires Summarizes(th, values, r)
    ensures r.Error? <==> values == []
    ensures r.Value? ==> r.value.current == values[|values| - 1] && r.value.daysInWindow == if |values| < 10 then |values| else 10
    ensures r.Value? ==> r.value.average * r.value.daysInWindow as real == Sum(values[|values| - r.value.daysInWindow..])
    ensures r.Value? ==> (r.value.state == High <==> th.high > 0.0 && r.value.average >= th.high)
    ensures r.Value? ==> (r.value.state == Low <==> !(th.high > 0.0 && r.value.average >= th.high) && th.low > 0.0 && r.value.average <= th.low)
  {
    if values != [] {
      assert Last(values, WINDOW) == values[|values| - r.value.daysInWindow..];
    }
  }

  /** An evaluation fails exactly without a day that counts; its current value is that of day k, the latest one. */
  lemma EvaluationMeans(kind: Kind, th: Thresholds, history: seq<DailyMarket>, r: Outcome<Indicator>) returns (k: nat)
    requires Evaluates(kind, th, history, r)
    ensures r.Error? <==> forall i :: 0 <= i < |history| ==> history[i].counts.total <= 0
    ensures r.Value? ==> k < |history| && history[k].counts.total > 0 && forall j :: k < j < |history| ==> history[j].counts.total <= 0
    ensures r.Value? && kind == Breadth ==>
              r.value.current * history[k].counts.total as real == history[k].counts.positive as real
    ensures r.Value? && kind == AdvanceDecline ==> IsRatio(r.value.current, history[k].counts)
  {
    NoValuesIff(kind, history);
    k := 0;
    if r.Value? {
      k := LatestCounting(kind, history);
      CurrentIsLast(th, Values(kind, history), r);
      RatioOfDay(kind, history[k], r.value.current);
    }
  }

  lemma CurrentIsLast(th: Thresholds, values: seq<real>, r: Outcome<Indicator>)
    requires Summarizes(th, values, r) && r.Value?
    ensures values != [] && r.value.current == values[|values| - 1]
  {
  }

  lemma RatioOfDay(kind: Kind, day: DailyMarket, v: real)
    requires day.counts.total > 0 && Values(kind, [day]) != [] && v == Values(kind, [day])[0]
    ensures kind == Breadth ==> v * day.counts.total as real == day.counts.positive as real
    ensures kind == AdvanceDecline ==> IsRatio(v, day.counts)
  {
    ValueOfDay(kind, day);
  }

  /** 80 up and 20 down of 100 make an advance/decline of 4 and a breadth of 0.8. */
  lemma AdvanceDeclineExample()
    ensures Values(AdvanceDecline, [DailyMarket(0, Counts(80, 20, 100))]) == [4.0]
    ensures Values(Breadth, [DailyMarket(0, Counts(80, 20, 100))]) == [0.8]
  {
    ValueOfDay(AdvanceDecline, DailyMarket(0, Counts(80, 20, 100)));
    ValueOfDay(Breadth, DailyMarket(0, Counts(80, 20, 100)));
  }
}
