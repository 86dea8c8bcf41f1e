/**
 Gregorian to Solar Hijri (Jalali) conversion.

 The converter works on closed-form day numbers.  The reference below never uses
 them: a calendar is a leap-year rule and month lengths, a day number is a sum of
 year and month lengths (negative before the epoch), and "tomorrow" is a carry over
 days, months and years.
 */
module SolarHijri {

  datatype Date = Date(year: int, month: int, day: int)

  datatype Calendar = Gregorian | Jalali

  /** Go's integer division and remainder, which truncate towards zero. */
  function TruncDiv(a: int, b: int): int
    requires b > 0
  {
    if a >= 0 then a / b else -((-a) / b)
  }

  function TruncMod(a: int, b: int): int
    requires b > 0
  {
    if a >= 0 then a % b else -((-a) % b)
  }

  // ---------- reference calendars ----------

  predicate Leap(cal: Calendar, y: int) {
    match cal
    case Gregorian => (y % 4 == 0 && y % 100 != 0) || y % 400 == 0
    case Jalali => var c := (y - 979) % 33; c % 4 == 0 && c != 32
  }

  function MonthLength(cal: Calendar, y: int, m: int): nat {
    match cal
    case Gregorian =>
      if m == 2 then (if Leap(cal, y) then 29 else 28)
      else if m == 4 || m == 6 || m == 9 || m == 11 then 30 else 31
    case Jalali =>
      if m <= 6 then 31 else if m <= 11 then 30 else if Leap(cal, y) then 30 else 29
  }

  predicate Valid(cal: Calendar, d: Date) {
    1 <= d.month <= 12 && 1 <= d.day <= MonthLength(cal, d.year, d.month)
  }

  /** The year in which each calendar starts counting days. */
  function EpochYear(cal: Calendar): int {
    if cal.Gregorian? then 1600 else 979
  }

  function YearLength(cal: Calendar, y: int): nat {
    if Leap(cal, y) then 366 else 365
  }

  function DaysBeforeYear(cal: Calendar, y: int): (n: int)
    ensures y >= EpochYear(cal) ==> n >= 0
    decreases if y >= EpochYear(cal) then y - EpochYear(cal) else EpochYear(cal) - y
  {
    if y == EpochYear(cal) then 0
    else if y > EpochYear(cal) then DaysBeforeYear(cal, y - 1) + YearLength(cal, y - 1)
    else DaysBeforeYear(cal, y + 1) - YearLength(cal, y)
  }

  function DaysBeforeMonth(cal: Calendar, y: int, m: int): nat
    decreases m
  {
    if m <= 1 then 0 else DaysBeforeMonth(cal, y, m - 1) + MonthLength(cal, y, m - 1)
  }

  function DayNumber(cal: Calendar, d: Date): int {
    DaysBeforeYear(cal, d.year) + DaysBeforeMonth(cal, d.year, d.month) + d.day - 1
  }

  function Tomorrow(cal: Calendar, d: Date): Date {
    if d.day < MonthLength(cal, d.year, d.month) then d.(day := d.day + 1)
    else if d.month < 12 then Date(d.year, d.month + 1, 1)
    else Date(d.year + 1, 1, 1)
  }

  predicate Before(a: Date, b: Date) {
    a.year < b.year || (a.year == b.year && (a.month < b.month || (a.month == b.month && a.day < b.day)))
  }

  /** A valid Gregorian date on which the converter's day count is not negative: 1600-03-20 or later. */
  predicate InRange(g: Date) {
    Valid(Gregorian, g) && !Before(g, Date(1600, 3, 20))
  }

  predicate JalaliFromEpoch(j: Date) {
    Valid(Jalali, j) && j.year >= 979
  }

  // ---------- the converter ----------

  const G_DAYS: seq<int> := [31, 28, 31, 30, 31, 30, 31, 31, 30, 31, 30, 31]
  const J_DAYS: seq<int> := [31, 31, 31, 31, 31, 31, 30, 30, 30, 30, 30, 29]

  function TableDays(m: nat): int
    requires m <= |G_DAYS|
  {
    if m == 0 then 0 else TableDays(m - 1) + G_DAYS[m - 1]
  }

  /** Days from 1600-01-01 to the first day of a year, in closed form. */
  function ClosedYearDays(y: int): int {
    var g := y - 1600;
    365 * g + TruncDiv(g + 3, 4) - TruncDiv(g + 99, 100) + TruncDiv(g + 399, 400)
  }

  function ClosedDayNumber(g: Date): int
    requires 1 <= g.month <= 12
  {
    ClosedYearDays(g.year) + TableDays(g.month - 1)
    + (if g.month > 2 && Leap(Gregorian, g.year) then 1 else 0) + g.day - 1
  }

  /** Year of a day count from 979/1/1 and the day index left inside that year. */
  function SplitYear(n: int): (int, int) {
    var r := TruncMod(n, 12053);
    var y := 979 + 33 * TruncDiv(n, 12053) + 4 * TruncDiv(r, 1461);
    var b := TruncMod(r, 1461);
    if b >= 366 then (y + TruncDiv(b - 1, 365), TruncMod(b - 1, 365)) else (y, b)
  }

  /** Month and day left after months m.. have been peeled off a day index. */
  function SplitMonth(m: nat, r: int): (int, int)
    requires m <= 11
    decreases 11 - m
  {
    if m < 11 && r >= J_DAYS[m] then SplitMonth(m + 1, r - J_DAYS[m]) else (m + 1, r + 1)
  }

  /** The Jalali date that many days after 979/1/1. */
  function DateOfCount(n: int): Date {
    var (y, r) := SplitYear(n);
    var (m, d) := SplitMonth(0, r);
    Date(y, m, d)
  }

  function Convert(g: Date): Date
    requires 1 <= g.month <= 12
  {
    DateOfCount(ClosedDayNumber(g) - 79)
  }

  /**
   The conversion as the server runs it: month lengths are added in one loop and
   peeled off in another.
   */
  method GregorianToJalali(gy: int, gm: int, gd: int) returns (jy: int, jm: int, jd: int)
    requires Valid(Gregorian, Date(gy, gm, gd))
    ensures Date(jy, jm, jd) == Convert(Date(gy, gm, gd))
  {
    var gY := gy - 1600;
    var gM := gm - 1;
    var gD := gd - 1;

    var gDayNo := 365 * gY + TruncDiv(gY + 3, 4) - TruncDiv(gY + 99, 100) + TruncDiv(gY + 399, 400);
    for i := 0 to gM
      invariant gDayNo == ClosedYearDays(gy) + TableDays(i)
    {
      gDayNo := gDayNo + G_DAYS[i];
    }
    if gM > 1 && ((gy % 4 == 0 && gy % 100 != 0) || gy % 400 == 0) {
      gDayNo := gDayNo + 1;
    }
    gDayNo := gDayNo + gD;
    jy, jm, jd := FromDayCount(gDayNo - 79);
  }

  /** The second half of the conversion: cycles, four-year blocks and years, then the month loop. */
  method FromDayCount(n: int) returns (jy: int, jm: int, jd: int)
    ensures Date(jy, jm, jd) == DateOfCount(n)
  {
    var jDayNo := n;
    var jNp := TruncDiv(jDayNo, 12053);
    jDayNo := TruncMod(jDayNo, 12053);
    jy := 979 + 33 * jNp + 4 * TruncDiv(jDayNo, 1461);
    jDayNo := TruncMod(jDayNo, 1461);
    if jDayNo >= 366 {
      jy := jy + TruncDiv(jDayNo - 1, 365);
      jDayNo := TruncMod(jDayNo - 1, 365);
    }

    ghost var rest := jDayNo;
    jm := 0;
    var i := 0;
    while i < 11 && jDayNo >= J_DAYS[i]
      invariant 0 <= i <= 11 && jm == i
      invariant SplitMonth(i, jDayNo) == SplitMonth(0, rest)
    {
      jDayNo := jDayNo - J_DAYS[i];
      jm := jm + 1;
      i := i + 1;
    }
    jm, jd := jm + 1, jDayNo + 1;
  }

  // ---------- day numbers of the reference calendars ----------

  lemma MonthTable(y: int, m: int)
    requires 1 <= m <= 12
    ensures DaysBeforeMonth(Gregorian, y, m) == TableDays(m - 1) + (if m > 2 && Leap(Gregorian, y) then 1 else 0)
  {
    if m > 1 {
      MonthTable(y, m - 1);
    }
  }

  lemma CeilingStep4(g: int)
    ensures (g + 1 + 3) / 4 == (g + 3) / 4 + if (1600 + g) % 4 == 0 then 1 else 0
  {
  }

  lemma CeilingStep100(g: int)
    ensures (g + 1 + 99) / 100 == (g + 99) / 100 + if (1600 + g) % 100 == 0 then 1 else 0
  {
  }

  lemma CeilingStep400(g: int)
    ensures (g + 1 + 399) / 400 == (g + 399) / 400 + if (1600 + g) % 400 == 0 then 1 else 0
  {
  }

  lemma LeapCount(y: int, c4: int, c100: int, c400: int)
    requires c4 == if y % 4 == 0 then 1 else 0
    requires c100 == if y % 100 == 0 then 1 else 0
    requires c400 == if y % 400 == 0 then 1 else 0
    ensures YearLength(Gregorian, y) == 365 + c4 - c100 + c400
  {
  }

  /** The closed form as it would be with divisions that round down. */
  function FlooredYearDays(g: int): int {
    365 * g + (g + 3) / 4 - (g + 99) / 100 + (g + 399) / 400
  }

  lemma FlooredYearStep(g: int)
    ensures FlooredYearDays(g + 1) == FlooredYearDays(g) + YearLength(Gregorian, 1600 + g)
  {
    CeilingStep4(g);
    CeilingStep100(g);
    CeilingStep400(g);
    LeapCount(1600 + g, (g + 1 + 3) / 4 - (g + 3) / 4, (g + 1 + 99) / 100 - (g + 99) / 100, (g + 1 + 399) / 400 - (g + 399) / 400);
  }

  lemma {:induction false} GregorianYears(g: int)
    ensures DaysBeforeYear(Gregorian, 1600 + g) == FlooredYearDays(g)
    decreases if g >= 0 then g else -g
  {
    if g > 0 {
      GregorianYears(g - 1);
      FlooredYearStep(g - 1);
    } else if g < 0 {
      GregorianYears(g + 1);
      FlooredYearStep(g);
    }
  }

  /**
   By how many days truncating the three corrections shifts the closed form in years before
   1597, 1501 and 1201, where their numerators are negative.
   */
  function Drift(y: int): int {
    (if y < 1597 && y % 4 != 1 then 1 else 0)
    - (if y < 1501 && y % 100 != 1 then 1 else 0)
    + (if y < 1201 && y % 400 != 1 then 1 else 0)
  }

  lemma TruncatedBy4(y: int)
    ensures TruncDiv(y - 1600 + 3, 4) == (y - 1600 + 3) / 4 + if y < 1597 && y % 4 != 1 then 1 else 0
  {
  }

  lemma TruncatedBy100(y: int)
    ensures TruncDiv(y - 1600 + 99, 100) == (y - 1600 + 99) / 100 + if y < 1501 && y % 100 != 1 then 1 else 0
  {
  }

  lemma TruncatedBy400(y: int)
    ensures TruncDiv(y - 1600 + 399, 400) == (y - 1600 + 399) / 400 + if y < 1201 && y % 400 != 1 then 1 else 0
  {
  }

  lemma DriftIsExact(y: int)
    ensures ClosedYearDays(y) == DaysBeforeYear(Gregorian, y) + Drift(y)
  {
    GregorianYears(y - 1600);
    TruncatedBy4(y);
    TruncatedBy100(y);
    TruncatedBy400(y);
  }

  /**
   The closed form with its leap corrections is the sum of year and month lengths since
   1600-01-01, except for the drift of earlier years.
   */
  lemma ClosedFormIsDayNumber(g: Date)
    requires Valid(Gregorian, g)
    ensures ClosedDayNumber(g) == DayNumber(Gregorian, g) + Drift(g.year)
    ensures g.year >= 1600 ==> ClosedDayNumber(g) == DayNumber(Gregorian, g)
  {
    DriftIsExact(g.year);
    MonthTable(g.year, g.month);
  }

  /** Days before year k of a run of 33-year cycles. */
  function CycleDays(k: int): int {
    12053 * (k / 33) + 1461 * (k % 33 / 4) + (if k % 33 % 4 == 0 then 0 else 365 * (k % 33 % 4) + 1)
  }

  lemma CycleStep(k: int)
    ensures CycleDays(k + 1) == CycleDays(k) + YearLength(Jalali, 979 + k)
  {
    if k % 33 == 32 {
      assert (k + 1) / 33 == k / 33 + 1 && (k + 1) % 33 == 0;
    } else {
      assert (k + 1) / 33 == k / 33 && (k + 1) % 33 == k % 33 + 1;
    }
  }

  lemma {:induction false} LaterYears(k: nat)
    ensures DaysBeforeYear(Jalali, 979 + k) == CycleDays(k)
  {
    if k == 0 {
      assert CycleDays(0) == 0;
    } else {
      LaterYears(k - 1);
      CycleStep(k - 1);
    }
  }

  lemma {:induction false} EarlierYears(k: int)
    requires k <= 0
    ensures DaysBeforeYear(Jalali, 979 + k) == CycleDays(k)
    decreases -k
  {
    if k == 0 {
      assert CycleDays(0) == 0;
    } else {
      EarlierYears(k + 1);
      CycleStep(k);
    }
  }

  /** The sum of year lengths, by 33-year cycles, four-year blocks and years. */
  lemma JalaliYears(k: int)
    ensures DaysBeforeYear(Jalali, 979 + k) == CycleDays(k)
  {
    if k >= 0 {
      LaterYears(k);
    } else {
      EarlierYears(k);
    }
  }

  lemma JalaliMonths(y: int, m: int)
    requires 1 <= m <= 12
    ensures DaysBeforeMonth(Jalali, y, m) == if m <= 7 then 31 * (m - 1) else 30 * (m - 1) + 6
  {
    if m > 1 {
      JalaliMonths(y, m - 1);
    }
  }

  lemma SplitMonthIsMonth(y: int, m: nat, r: int)
    requires m <= 11 && 0 <= r && DaysBeforeMonth(Jalali, y, m + 1) + r < YearLength(Jalali, y)
    ensures var (m', d) := SplitMonth(m, r);
            && m < m' <= 12 && 1 <= d <= MonthLength(Jalali, y, m')
            && DaysBeforeMonth(Jalali, y, m') + d - 1 == DaysBeforeMonth(Jalali, y, m + 1) + r
    decreases 11 - m
  {
    if m == 11 {
      JalaliMonths(y, 12);
    } else if r >= J_DAYS[m] {
      SplitMonthIsMonth(y, m + 1, r - J_DAYS[m]);
    }
  }

  lemma YearIsItsMonths(cal: Calendar, y: int)
    ensures DaysBeforeMonth(cal, y, 12) + MonthLength(cal, y, 12) == YearLength(cal, y)
  {
    if cal.Gregorian? {
      MonthTable(y, 12);
    } else {
      JalaliMonths(y, 12);
    }
  }

  lemma DaysBeforeMonthGrows(cal: Calendar, y: int, m: int, m': int)
    requires 1 <= m < m' <= 12
    ensures DaysBeforeMonth(cal, y, m) + MonthLength(cal, y, m) <= DaysBeforeMonth(cal, y, m')
    decreases m'
  {
    if m + 1 < m' {
      DaysBeforeMonthGrows(cal, y, m, m' - 1);
    }
  }

  lemma DaysBeforeYearGrows(cal: Calendar, y: int, y': int)
    requires y < y'
    ensures DaysBeforeYear(cal, y) + YearLength(cal, y) <= DaysBeforeYear(cal, y')
    decreases y' - y
  {
    if y + 1 < y' {
      DaysBeforeYearGrows(cal, y, y' - 1);
    }
  }

  lemma WithinYear(cal: Calendar, d: Date)
    requires Valid(cal, d)
    ensures DaysBeforeMonth(cal, d.year, d.month) + d.day <= YearLength(cal, d.year)
  {
    YearIsItsMonths(cal, d.year);
    if d.month < 12 {
      DaysBeforeMonthGrows(cal, d.year, d.month, 12);
    }
  }

  /** Day numbers order dates, so a day number names at most one valid date. */
  lemma DayNumberOrders(cal: Calendar, a: Date, b: Date)
    requires Valid(cal, a) && Valid(cal, b)
    ensures DayNumber(cal, a) < DayNumber(cal, b) <==> Before(a, b)
    ensures DayNumber(cal, a) == DayNumber(cal, b) <==> a == b
  {
    if Before(a, b) {
      DayNumberGrows(cal, a, b);
    } else if Before(b, a) {
      DayNumberGrows(cal, b, a);
    }
  }

  lemma DayNumberGrows(cal: Calendar, a: Date, b: Date)
    requires Valid(cal, a) && Valid(cal, b) && Before(a, b)
    ensures DayNumber(cal, a) < DayNumber(cal, b)
  {
    WithinYear(cal, a);
    if a.year < b.year {
      DaysBeforeYearGrows(cal, a.year, b.year);
    } else if a.month < b.month {
      DaysBeforeMonthGrows(cal, a.year, a.month, b.month);
    }
  }

  /** Both calendars count exactly one more day tomorrow. */
  lemma TomorrowCountsOne(cal: Calendar, d: Date)
    requires Valid(cal, d)
    ensures Valid(cal, Tomorrow(cal, d))
    ensures DayNumber(cal, Tomorrow(cal, d)) == DayNumber(cal, d) + 1
  {
    if d.day == MonthLength(cal, d.year, d.month) && d.month == 12 {
      YearIsItsMonths(cal, d.year);
    }
  }

  // ---------- correctness of the conversion ----------

  lemma InRangeCounts(g: Date)
    requires Valid(Gregorian, g)
    ensures InRange(g) <==> DayNumber(Gregorian, g) >= 79
  {
    var start := Date(1600, 3, 20);
    MonthTable(1600, 3);
    assert DayNumber(Gregorian, start) == 79;
    DayNumberOrders(Gregorian, g, start);
  }

  lemma SplitYearIsYear(n: nat)
    ensures var (y, r) := SplitYear(n); y >= 979 && DaysBeforeYear(Jalali, y) + r == n && 0 <= r < YearLength(Jalali, y)
  {
    var (y, r) := SplitYear(n);
    var c := n % 12053;
    assert 0 <= c / 1461 <= 8;
    assert c / 1461 == 8 ==> c % 1461 < 365;
    var inBlock := if c % 1461 >= 366 then (c % 1461 - 1) / 365 else 0;
    var k := 33 * (n / 12053) + 4 * (c / 1461) + inBlock;
    assert 0 <= inBlock <= 3;
    var w := 4 * (c / 1461) + inBlock;
    assert 0 <= w < 33;
    assert k == 33 * (n / 12053) + w;
    assert k / 33 == n / 12053 && k % 33 == w;
    assert w / 4 == c / 1461 && w % 4 == inBlock;
    assert y == 979 + k;
    JalaliYears(k);
  }

  lemma DateOfCountIsDate(n: nat)
    ensures JalaliFromEpoch(DateOfCount(n)) && DayNumber(Jalali, DateOfCount(n)) == n
  {
    SplitYearIsYear(n);
    var (y, r) := SplitYear(n);
    SplitMonthIsMonth(y, 0, r);
  }

  lemma ConvertCounts(g: Date)
    requires Valid(Gregorian, g) && g.year >= 1600
    ensures Convert(g) == DateOfCount(DayNumber(Gregorian, g) - 79)
  {
    ClosedFormIsDayNumber(g);
  }

  /** The converted date is a valid Jalali date with the same day count, shifted by the distance of the epochs. */
  lemma ConvertKeepsDayNumber(g: Date)
    requires InRange(g)
    ensures JalaliFromEpoch(Convert(g))
    ensures DayNumber(Jalali, Convert(g)) == DayNumber(Gregorian, g) - 79
  {
    var n := DayNumber(Gregorian, g) - 79;
    ConvertCounts(g);
    InRangeCounts(g);
    DateOfCountIsDate(n);
  }

  /** Converting tomorrow gives tomorrow's Jalali date, over month ends, leap days and cycle ends alike. */
  lemma ConvertCommutesWithTomorrow(g: Date)
    requires InRange(g)
    ensures InRange(Tomorrow(Gregorian, g))
    ensures Convert(Tomorrow(Gregorian, g)) == Tomorrow(Jalali, Convert(g))
  {
    var g' := Tomorrow(Gregorian, g);
    TomorrowCountsOne(Gregorian, g);
    InRangeCounts(g);
    InRangeCounts(g');
    ConvertKeepsDayNumber(g);
    ConvertKeepsDayNumber(g');
    TomorrowCountsOne(Jalali, Convert(g));
    DayNumberOrders(Jalali, Convert(g'), Tomorrow(Jalali, Convert(g)));
  }

  /** The conversion preserves and reflects the order of dates; in particular it is injective. */
  lemma ConvertPreservesOrder(a: Date, b: Date)
    requires InRange(a) && InRange(b)
    ensures Before(a, b) <==> Before(Convert(a), Convert(b))
    ensures Convert(a) == Convert(b) ==> a == b
  {
    ConvertKeepsDayNumber(a);
    ConvertKeepsDayNumber(b);
    DayNumberOrders(Gregorian, a, b);
    DayNumberOrders(Jalali, Convert(a), Convert(b));
  }

  /** The Gregorian date n days after 1600-03-20, counted one day at a time. */
  function GregorianAfter(n: nat): (g: Date)
    ensures InRange(g) && DayNumber(Gregorian, g) == n + 79
  {
    if n == 0 then
      MonthTable(1600, 3);
      Date(1600, 3, 20)
    else
      var g := GregorianAfter(n - 1);
      TomorrowCountsOne(Gregorian, g);
      InRangeCounts(Tomorrow(Gregorian, g));
      Tomorrow(Gregorian, g)
  }

  /** The inverse conversion. */
  function ToGregorian(j: Date): Date
    requires JalaliFromEpoch(j)
  {
    GregorianAfter(DayNumber(Jalali, j))
  }

  /** Every Jalali date from 979/1/1 is the conversion of exactly the date the inverse names. */
  lemma JalaliRoundTrip(j: Date)
    requires JalaliFromEpoch(j)
    ensures InRange(ToGregorian(j)) && Convert(ToGregorian(j)) == j
  {
    var g := ToGregorian(j);
    ConvertKeepsDayNumber(g);
    DayNumberOrders(Jalali, Convert(g), j);
  }

  lemma GregorianRoundTrip(g: Date)
    requires InRange(g)
    ensures JalaliFromEpoch(Convert(g)) && ToGregorian(Convert(g)) == g
  {
    ConvertKeepsDayNumber(g);
    DayNumberOrders(Gregorian, ToGregorian(Convert(g)), g);
  }

  /** The example in the comment on the converter: 2026-06-21 is 1405/03/31. */
  lemma KnownDate()
    ensures Convert(Date(2026, 6, 21)) == Date(1405, 3, 31)
  {
    assert ClosedYearDays(2026) == 155594;
    assert TableDays(2) == 59;
    assert TableDays(5) == 151;
    assert ClosedDayNumber(Date(2026, 6, 21)) - 79 == 155686;
    assert SplitYear(155686) == (1405, 92);
    assert SplitMonth(2, 30) == (3, 31);
  }

  // ---------- outside the range ----------

  /** The conversion names the Jalali date that lies as far from 979/1/1 as g lies from 1600-03-20. */
  predicate ConvertsRight(g: Date)
    requires Valid(Gregorian, g)
  {
    Valid(Jalali, Convert(g)) && DayNumber(Jalali, Convert(g)) == DayNumber(Gregorian, g) - 79
  }

  lemma NegativeCount(n: int)
    requires n < 0
    ensures var r := TruncMod(TruncMod(n, 12053), 1461);
            DateOfCount(n) == Date(979 - 33 * (-n / 12053) - 4 * (-n % 12053 / 1461), 1, r + 1) && r <= 0
  {
  }

  /** The first day of the year that lies a cycles and b four-year blocks before 979. */
  lemma BlockStart(a: int, b: int)
    requires 0 <= b <= 8
    ensures DaysBeforeYear(Jalali, 979 - 33 * a - 4 * b) == -(12053 * a + 1461 * b) + if b == 0 then 0 else 1
  {
    var k := -33 * a - 4 * b;
    JalaliYears(k);
    if b == 0 {
      assert k / 33 == -a && k % 33 == 0;
    } else {
      assert k / 33 == -a - 1 && k % 33 == 33 - 4 * b;
    }
  }

  lemma TruncatedSplit(n: int)
    requires n < 0
    ensures TruncMod(TruncMod(n, 12053), 1461) == -(-n % 12053 % 1461)
  {
  }

  lemma NegativeCountValid(n: int)
    requires n < 0
    ensures Valid(Jalali, DateOfCount(n)) <==> TruncMod(TruncMod(n, 12053), 1461) == 0
    ensures Valid(Jalali, DateOfCount(n)) <==> -n % 12053 % 1461 == 0
  {
    NegativeCount(n);
    TruncatedSplit(n);
  }

  lemma SplitCount(m: int)
    ensures m == 12053 * (m / 12053) + 1461 * (m % 12053 / 1461) + m % 12053 % 1461
    ensures 0 <= m % 12053 / 1461 <= 8
  {
  }

  /** A negative count gives a date at all only on the first day of a four-year block, and then one day late unless a cycle starts there. */
  lemma NegativeCountDate(n: int)
    requires n < 0 && -n % 12053 % 1461 == 0
    ensures DayNumber(Jalali, DateOfCount(n)) == n + if -n % 12053 == 0 then 0 else 1
  {
    NegativeCount(n);
    SplitCount(-n);
    BlockStart(-n / 12053, -n % 12053 / 1461);
  }

  /** Drift never lifts a day before the range into it. */
  lemma BeforeRangeIsNegative(g: Date)
    requires Valid(Gregorian, g) && !InRange(g)
    ensures ClosedDayNumber(g) - 79 < 0
  {
    ClosedFormIsDayNumber(g);
    InRangeCounts(g);
    if g.year < 1597 {
      DayNumberOrders(Gregorian, g, Date(1597, 1, 1));
      GregorianYears(-3);
      assert DayNumber(Gregorian, Date(1597, 1, 1)) == -1095;
    }
  }

  lemma BeforeRangeIff(g: Date, n: int)
    requires Valid(Gregorian, g) && n == ClosedDayNumber(g) - 79 < 0
    ensures ConvertsRight(g) <==>
              && -n % 12053 % 1461 == 0
              && DayNumber(Gregorian, g) - 79 == n + if -n % 12053 == 0 then 0 else 1
  {
    assert Convert(g) == DateOfCount(n);
    NegativeCountValid(n);
    if -n % 12053 % 1461 == 0 {
      NegativeCountDate(n);
    }
  }

  lemma DriftCases(t: int, n: int, drift: int)
    requires n == drift - t
    ensures (-n % 12053 % 1461 == 0 && -t == n + if -n % 12053 == 0 then 0 else 1)
            <==> (drift == 0 && t % 12053 == 0) || (drift == -1 && (t + 1) % 12053 != 0 && (t + 1) % 12053 % 1461 == 0)
  {
  }

  /**
   The exact condition, for every valid Gregorian date.  Before 1600-03-20 only two kinds
   of day convert rightly, t days before it: the first day of a 33-year cycle in a year
   without drift, and the first day of another four-year block in a year whose drift makes
   up for the day the block is late.
   */
  lemma ConvertsRightIff(g: Date)
    requires Valid(Gregorian, g)
    ensures var t := 79 - DayNumber(Gregorian, g);
            ConvertsRight(g) <==>
              || InRange(g)
              || (t > 0 && Drift(g.year) == 0 && t % 12053 == 0)
              || (t > 0 && Drift(g.year) == -1 && (t + 1) % 12053 != 0 && (t + 1) % 12053 % 1461 == 0)
  {
    InRangeCounts(g);
    if InRange(g) {
      ConvertKeepsDayNumber(g);
    } else {
      ClosedFormIsDayNumber(g);
      BeforeRangeIsNegative(g);
      BeforeRangeIff(g, ClosedDayNumber(g) - 79);
      DriftCases(79 - DayNumber(Gregorian, g), ClosedDayNumber(g) - 79, Drift(g.year));
    }
  }

  /**
   The result is a calendar date at all exactly when the count is not negative or falls on
   the first day of a four-year block.
   */
  lemma ConvertOutsideRange(g: Date)
    requires Valid(Gregorian, g)
    ensures var n := ClosedDayNumber(g) - 79;
            Valid(Jalali, Convert(g)) <==> n >= 0 || TruncMod(TruncMod(n, 12053), 1461) == 0
  {
    var n := ClosedDayNumber(g) - 79;
    assert Convert(g) == DateOfCount(n);
    CountValid(n);
  }

  lemma CountValid(n: int)
    ensures Valid(Jalali, DateOfCount(n)) <==> n >= 0 || TruncMod(TruncMod(n, 12053), 1461) == 0
  {
    if n >= 0 {
      DateOfCountIsDate(n);
    } else {
      NegativeCountValid(n);
    }
  }

  /** From 1600 on a date converts rightly, and to 979/1/1 or later, exactly in the range. */
  lemma ConvertsRightFrom1600Iff(g: Date)
    requires Valid(Gregorian, g) && g.year >= 1600
    ensures ConvertsRight(g) <==> InRange(g)
    ensures JalaliFromEpoch(Convert(g)) <==> InRange(g)
  {
    if InRange(g) {
      ConvertKeepsDayNumber(g);
    } else {
      BeforeRangeIsNegative(g);
      ClosedFormIsDayNumber(g);
      JanuaryOf1600(g);
      SmallNegativeCount(ClosedDayNumber(g) - 79);
    }
  }

  lemma SmallNegativeCount(n: int)
    requires -79 <= n < 0
    ensures !Valid(Jalali, DateOfCount(n))
  {
    NegativeCount(n);
  }

  lemma JanuaryOf1600(g: Date)
    requires Valid(Gregorian, g) && g.year >= 1600
    ensures DayNumber(Gregorian, g) >= 0
  {
    DayNumberOrders(Gregorian, g, Date(1600, 1, 1));
    assert DayNumber(Gregorian, Date(1600, 1, 1)) == 0;
  }

  /** The last day before the range becomes day 0 of a month. */
  lemma DayBeforeRangeFails()
    ensures Valid(Gregorian, Date(1600, 3, 19)) && Convert(Date(1600, 3, 19)) == Date(979, 1, 0)
  {
    assert ClosedYearDays(1600) == 0;
    assert TableDays(2) == 59;
  }

  lemma March(y: int, d: int)
    ensures ClosedDayNumber(Date(y, 3, d)) == ClosedYearDays(y) + 58 + d + if Leap(Gregorian, y) then 1 else 0
  {
    assert TableDays(2) == 59;
  }

  /** A count that starts block b of the a-th cycle before 979. */
  lemma BlockCount(a: int, b: int)
    requires 0 <= a && 0 <= b <= 8 && a + b > 0
    ensures var n := -(12053 * a + 1461 * b);
            DateOfCount(n) == Date(979 - 33 * a - 4 * b, 1, 1)
    ensures DayNumber(Jalali, Date(979 - 33 * a - 4 * b, 1, 1)) == -(12053 * a + 1461 * b) + if b == 0 then 0 else 1
  {
    var m := 12053 * a + 1461 * b;
    assert m / 12053 == a && m % 12053 == 1461 * b;
    NegativeCount(-m);
    BlockStart(a, b);
  }

  lemma EarlyNewYear(g: Date, a: int, b: int)
    requires Valid(Gregorian, g) && 0 <= a && 0 <= b <= 8 && a + b > 0
    requires ClosedDayNumber(g) - 79 == -(12053 * a + 1461 * b)
    ensures Convert(g) == Date(979 - 33 * a - 4 * b, 1, 1)
    ensures ConvertsRight(g) <==> Drift(g.year) == if b == 0 then 0 else -1
  {
    ClosedFormIsDayNumber(g);
    BlockCount(a, b);
  }

  /** A date can also come out as a wrong date: 1596-03-19, the last day but one of 974, becomes 975/1/1. */
  lemma WrongDate()
    ensures Convert(Date(1596, 3, 19)) == Date(975, 1, 1) && !ConvertsRight(Date(1596, 3, 19))
    ensures DayNumber(Jalali, Date(974, 12, 29)) == DayNumber(Gregorian, Date(1596, 3, 19)) - 79
  {
    March(1596, 19);
    EarlyNewYear(Date(1596, 3, 19), 0, 1);
    EndOf974();
    ClosedFormIsDayNumber(Date(1596, 3, 19));
  }

  lemma EndOfLeapYear(y: int)
    requires Leap(Jalali, y)
    ensures DayNumber(Jalali, Date(y, 12, 29)) == DaysBeforeYear(Jalali, y + 1) - 2
  {
    JalaliMonths(y, 12);
    YearAfter(y);
  }

  lemma YearAfter(y: int)
    ensures DaysBeforeYear(Jalali, y + 1) == DaysBeforeYear(Jalali, y) + YearLength(Jalali, y)
  {
  }

  lemma EndOf974()
    ensures DayNumber(Jalali, Date(974, 12, 29)) == -1462
  {
    EndOfLeapYear(974);
    BlockStart(0, 1);
  }

  /** And two early days that convert rightly: 1501-03-21 starts a cycle, 1497-03-21 another block. */
  lemma RightBeforeRange()
    ensures ConvertsRight(Date(1501, 3, 21)) && Convert(Date(1501, 3, 21)) == Date(880, 1, 1)
    ensures ConvertsRight(Date(1497, 3, 21)) && Convert(Date(1497, 3, 21)) == Date(876, 1, 1)
  {
    March(1501, 21);
    EarlyNewYear(Date(1501, 3, 21), 3, 0);
    March(1497, 21);
    EarlyNewYear(Date(1497, 3, 21), 3, 1);
  }
}
