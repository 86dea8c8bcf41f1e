/**
 Bull call and bear put spreads: options are grouped by expiry, sorted by strike and
 paired in a triangular loop.  The two engines differ in the option prefix, the moneyness
 band and the direction of the inner loop, which `Side` selects.
 */
module Spreads {
  import opened Sequences
  import opened Pairs

  datatype Side = BullCall | BearPut

  datatype FilterKind = ATM | OTM

  datatype Option = Option(name: string, strike: real, sellRow1: real, buyRow1: real, close: real, expiry: string)

  datatype Spread = Spread(k1Symbol: string, k2Symbol: string, expiry: string, daysToExpiry: int, s: real,
                           k1: real, k2: real, askK1: real, bidK2: real, w: real, d: real, dwPct: real, mp: real, r: real)

  /** Days from today to an expiry string, when it parses. */
  datatype Parsed = Days(n: int) | Unparsed

  type Calendar = string -> Parsed

  const CALL_PREFIX := "ضهرم"
  const PUT_PREFIX := "طهرم"
  const MIN_DAYS := 30
  const MAX_DAYS := 60

  function Prefix(side: Side): string {
    if side.BullCall? then CALL_PREFIX else PUT_PREFIX
  }

  function Expiry(o: Option): string {
    o.expiry
  }

  function Reward(sp: Spread): real {
    sp.r
  }

  function AskPrice(o: Option): real {
    if o.sellRow1 > 0.0 then o.sellRow1 else o.close
  }

  function BidPrice(o: Option): real {
    if o.buyRow1 > 0.0 then o.buyRow1 else o.close
  }

  function DebitLimit(kind: FilterKind): real {
    if kind.ATM? then 0.45 else 0.25
  }

  predicate Listed(side: Side, cal: Calendar, o: Option) {
    Prefix(side) <= o.name && o.expiry != "" && o.strike > 0.0 && cal(o.expiry).Days? && MIN_DAYS <= cal(o.expiry).n <= MAX_DAYS
  }

  function ListedOptions(side: Side, cal: Calendar, options: seq<Option>): seq<Option> {
    if options == [] then []
    else
      var rest := ListedOptions(side, cal, options[..|options| - 1]);
      var o := options[|options| - 1];
      if Listed(side, cal, o) then rest + [o] else rest
  }

  /** The moneyness band of the bought strike. */
  predicate InBand(side: Side, kind: FilterKind, m: real) {
    match kind
    case ATM => -0.05 <= m <= 0.05
    case OTM => if side.BullCall? then 0.05 < m <= 0.20 else -0.20 <= m <= -0.05
  }

  function Moneyness(s: real, k: real): real
    requires s > 0.0
  {
    (k - s) / s
  }

  function Width(side: Side, a: Option, b: Option): real {
    if side.BullCall? then b.strike - a.strike else a.strike - b.strike
  }

  function Debit(a: Option, b: Option): real {
    AskPrice(a) - BidPrice(b)
  }

  predicate Affordable(side: Side, kind: FilterKind, a: Option, b: Option) {
    var w, d := Width(side, a, b), Debit(a, b);
    w > 0.0 && d > 0.0 && d <= DebitLimit(kind) * w
  }

  predicate Qualifies(side: Side, kind: FilterKind, s: real, a: Option, b: Option)
    requires s > 0.0
  {
    a.expiry == b.expiry && InBand(side, kind, Moneyness(s, a.strike)) && Affordable(side, kind, a, b)
  }

  function SpreadOf(side: Side, s: real, days: int, a: Option, b: Option): Spread
    requires Width(side, a, b) > 0.0 && Debit(a, b) > 0.0
  {
    var w, d := Width(side, a, b), Debit(a, b);
    Spread(a.name, b.name, a.expiry, days, s, a.strike, b.strike, AskPrice(a), BidPrice(b), w, d, d / w * 100.0, w - d, (w - d) / d)
  }

  function DaysOf(cal: Calendar, e: string): int {
    if cal(e).Days? then cal(e).n else 0
  }

  /** What one ordered pair of options contributes. */
  function Pairing(side: Side, kind: FilterKind, s: real, cal: Calendar): (Option, Option) -> seq<Spread>
    requires s > 0.0
  {
    (a: Option, b: Option) =>
      if Qualifies(side, kind, s, a, b) then [SpreadOf(side, s, DaysOf(cal, a.expiry), a, b)] else []
  }

  /** All qualifying pairs of listed options, with no order implied. */
  function AllSpreads(side: Side, kind: FilterKind, s: real, cal: Calendar, options: seq<Option>): seq<Spread>
    requires s > 0.0
  {
    var l := ListedOptions(side, cal, options);
    Cross(Pairing(side, kind, s, cal), l, l)
  }

  // ---------- the engines ----------

  ghost predicate StrikesAscend(g: seq<Option>) {
    forall i, j :: 0 <= i < j < |g| ==> g[i].strike <= g[j].strike
  }

  /** One pair as the inner loop prices it. */
  method PricePair(side: Side, kind: FilterKind, s: real, cal: Calendar, days: int, a: Option, askK1: real, b: Option)
    returns (found: seq<Spread>)
    requires s > 0.0 && days == DaysOf(cal, a.expiry) && InBand(side, kind, Moneyness(s, a.strike))
    requires b.expiry == a.expiry && askK1 == AskPrice(a)
    ensures found == Pairing(side, kind, s, cal)(a, b)
  {
    var bidK2 := BidPrice(b);
    var w := if side.BullCall? then b.strike - a.strike else a.strike - b.strike;
    var d := askK1 - bidK2;
    if d <= 0.0 || w <= 0.0 {
      return [];
    }
    var limit := 0.45;
    if kind.OTM? {
      limit := 0.25;
    }
    if d > limit * w {
      return [];
    }
    var mp := w - d;
    return [Spread(a.name, b.name, a.expiry, days, s, a.strike, b.strike, askK1, bidK2, w, d, d / w * 100.0, mp, mp / d)];
  }

  /** The inner loop: one bought option against the candidates on its far side. */
  method PairOne(side: Side, kind: FilterKind, s: real, cal: Calendar, days: int, a: Option, candidates: seq<Option>)
    returns (out: seq<Spread>)
    requires s > 0.0 && days == DaysOf(cal, a.expiry) && InBand(side, kind, Moneyness(s, a.strike))
    requires forall i :: 0 <= i < |candidates| ==> candidates[i].expiry == a.expiry
    ensures out == Row(Pairing(side, kind, s, cal), a, candidates)
  {
    out := [];
    ghost var f := Pairing(side, kind, s, cal);
    var askK1 := AskPrice(a);
    for j := 0 to |candidates|
      invariant out == Row(f, a, candidates[..j])
    {
      var found := PricePair(side, kind, s, cal, days, a, askK1, candidates[j]);
      assert candidates[..j + 1] == candidates[..j] + [candidates[j]];
      RowStep(f, a, candidates[..j], candidates[j]);
      out := out + found;
    }
    assert candidates[..|candidates|] == candidates;
  }

  method InBandCheck(side: Side, kind: FilterKind, s: real, k1: real) returns (ok: bool)
    requires s > 0.0
    ensures ok <==> InBand(side, kind, Moneyness(s, k1))
  {
    var m := (k1 - s) / s;
    match kind
    case ATM => return !(m > 0.05 || m < -0.05);
    case OTM =>
      match side
      case BullCall => return !(m <= 0.05 || m > 0.20);
      case BearPut => return !(m > -0.05 || m < -0.20);
  }

  lemma OutOfBandRow(side: Side, kind: FilterKind, s: real, cal: Calendar, a: Option, g: seq<Option>)
    requires s > 0.0 && !InBand(side, kind, Moneyness(s, a.strike))
    ensures Row(Pairing(side, kind, s, cal), a, g) == []
  {
    var f := Pairing(side, kind, s, cal);
    assert forall b :: f(a, b) == [];
    RowOfNothing(f, a, g);
  }

  lemma BullRow(kind: FilterKind, s: real, cal: Calendar, g: seq<Option>, i: nat)
    requires s > 0.0 && StrikesAscend(g) && i < |g|
    ensures Row(Pairing(BullCall, kind, s, cal), g[i], g) == Row(Pairing(BullCall, kind, s, cal), g[i], g[i + 1..])
  {
    forall j | 0 <= j <= i ensures Pairing(BullCall, kind, s, cal)(g[i], g[j]) == [] {
      assert Width(BullCall, g[i], g[j]) <= 0.0;
    }
    ForwardRow(Pairing(BullCall, kind, s, cal), g, i);
  }

  lemma BearRow(kind: FilterKind, s: real, cal: Calendar, g: seq<Option>, i: nat)
    requires s > 0.0 && StrikesAscend(g) && i < |g|
    ensures Row(Pairing(BearPut, kind, s, cal), g[i], g) == Row(Pairing(BearPut, kind, s, cal), g[i], g[..i])
  {
    forall j | i <= j < |g| ensures Pairing(BearPut, kind, s, cal)(g[i], g[j]) == [] {
      assert Width(BearPut, g[i], g[j]) <= 0.0;
    }
    BackwardRow(Pairing(BearPut, kind, s, cal), g, i);
  }

  lemma SortedRow(side: Side, kind: FilterKind, s: real, cal: Calendar, g: seq<Option>, i: nat)
    requires s > 0.0 && StrikesAscend(g) && i < |g|
    ensures Row(Pairing(side, kind, s, cal), g[i], g)
            == Row(Pairing(side, kind, s, cal), g[i], if side.BullCall? then g[i + 1..] else g[..i])
  {
    if side.BullCall? {
      BullRow(kind, s, cal, g, i);
    } else {
      BearRow(kind, s, cal, g, i);
    }
  }

  /** The outer loop over one expiry, sorted by strike. */
  method PairGroup(side: Side, kind: FilterKind, s: real, cal: Calendar, days: int, e: string, g: seq<Option>)
    returns (out: seq<Spread>)
    requires s > 0.0 && days == DaysOf(cal, e) && StrikesAscend(g)
    requires forall i :: 0 <= i < |g| ==> g[i].expiry == e
    ensures out == Cross(Pairing(side, kind, s, cal), g, g)
  {
    out := [];
    ghost var f := Pairing(side, kind, s, cal);
    for i := 0 to |g|
      invariant out == Cross(f, g[..i], g)
    {
      CrossNext(f, g, i);
      var inBand := InBandCheck(side, kind, s, g[i].strike);
      if !inBand {
        OutOfBandRow(side, kind, s, cal, g[i], g);
        continue;
      }
      SortedRow(side, kind, s, cal, g, i);
      var candidates := if side.BullCall? then g[i + 1..] else g[..i];
      var part := PairOne(side, kind, s, cal, days, g[i], candidates);
      out := out + part;
    }
    assert g[..|g|] == g;
  }

  datatype Bucket = Bucket(days: int, legs: seq<Option>)

  ghost predicate Grouped(byExpiry: map<string, Bucket>, cal: Calendar, l: seq<Option>) {
    forall e: string ::
      if e in byExpiry then
        byExpiry[e].days == DaysOf(cal, e) && byExpiry[e].legs == Group(Expiry, l, {e}) && byExpiry[e].legs != []
      else Group(Expiry, l, {e}) == []
  }

  lemma GroupedNext(byExpiry: map<string, Bucket>, cal: Calendar, l: seq<Option>, o: Option)
    requires Grouped(byExpiry, cal, l)
    ensures var legs := if o.expiry in byExpiry then byExpiry[o.expiry].legs else [];
            Grouped(byExpiry[o.expiry := Bucket(DaysOf(cal, o.expiry), legs + [o])], cal, l + [o])
  {
    assert (l + [o])[..|l|] == l;
  }

  method GroupByExpiry(side: Side, cal: Calendar, options: seq<Option>) returns (byExpiry: map<string, Bucket>)
    ensures Grouped(byExpiry, cal, ListedOptions(side, cal, options))
  {
    byExpiry := map[];
    for i := 0 to |options|
      invariant Grouped(byExpiry, cal, ListedOptions(side, cal, options[..i]))
    {
      var opt := options[i];
      assert options[..i + 1][..i] == options[..i];
      if !(Prefix(side) <= opt.name) {
        continue;
      }
      if opt.expiry == "" || opt.strike <= 0.0 {
        continue;
      }
      var expiry := cal(opt.expiry);
      if expiry.Unparsed? {
        continue;
      }
      if expiry.n < MIN_DAYS || expiry.n > MAX_DAYS {
        continue;
      }
      GroupedNext(byExpiry, cal, ListedOptions(side, cal, options[..i]), opt);
      var bucket := if opt.expiry in byExpiry then byExpiry[opt.expiry] else Bucket(expiry.n, []);
      byExpiry := byExpiry[opt.expiry := bucket.(legs := bucket.legs + [opt])];
    }
    assert options[..|options|] == options;
  }

  function NegativeStrike(o: Option): real {
    -o.strike
  }

  /**
   The engine.  Groups are visited in no particular order and neither sort is stable, yet
   the spreads found are exactly the qualifying pairs, best reward first.
   */
  method CalculateAll(side: Side, options: seq<Option>, s: real, kind: FilterKind, cal: Calendar) returns (out: seq<Spread>)
    ensures s <= 0.0 ==> out == []
    ensures s > 0.0 ==> multiset(out) == multiset(AllSpreads(side, kind, s, cal, options))
    ensures s > 0.0 ==> forall sp :: sp in out <==> exists a, b :: a in options && b in options && Reports(side, kind, s, cal, a, b, sp)
    ensures forall i, j :: 0 <= i < j < |out| ==> out[i].r >= out[j].r
  {
    if s <= 0.0 {
      return [];
    }
    var byExpiry := GroupByExpiry(side, cal, options);
    var found := PairAll(side, s, kind, cal, byExpiry, ListedOptions(side, cal, options));
    out := SortDescending(found, Reward);
    assert forall i, j :: 0 <= i < j < |out| ==> Reward(out[i]) >= Reward(out[j]);
    FoundAreReports(side, kind, s, cal, options, out);
  }

  lemma FoundAreReports(side: Side, kind: FilterKind, s: real, cal: Calendar, options: seq<Option>, out: seq<Spread>)
    requires s > 0.0 && multiset(out) == multiset(AllSpreads(side, kind, s, cal, options))
    ensures forall sp :: sp in out <==> exists a, b :: a in options && b in options && Reports(side, kind, s, cal, a, b, sp)
  {
    forall sp ensures sp in out <==> exists a, b :: a in options && b in options && Reports(side, kind, s, cal, a, b, sp) {
      assert sp in out <==> sp in multiset(out);
      assert sp in AllSpreads(side, kind, s, cal, options) <==> sp in multiset(AllSpreads(side, kind, s, cal, options));
      SpreadsAreReports(side, kind, s, cal, options, sp);
    }
  }

  method PairAll(side: Side, s: real, kind: FilterKind, cal: Calendar, byExpiry: map<string, Bucket>, ghost l: seq<Option>)
    returns (found: seq<Spread>)
    requires s > 0.0 && Grouped(byExpiry, cal, l)
    ensures multiset(found) == multiset(Cross(Pairing(side, kind, s, cal), l, l))
  {
    found := [];
    var left := byExpiry.Keys;
    ghost var done: set<string> := {};
    NothingFound(side, kind, s, cal, l);
    while left != {}
      invariant left <= byExpiry.Keys && done == byExpiry.Keys - left
      invariant FoundIn(found, side, kind, s, cal, l, done)
      decreases |left|
    {
      ghost var some := Pick(left);
      var e :| e in left;
      var part := PairBucket(side, s, kind, cal, byExpiry[e], e, l);
      BucketFound(found, part, side, kind, s, cal, l, done, e);
      found := found + part;
      left := left - {e};
      done := done + {e};
    }
    assert done == byExpiry.Keys;
    AllFound(found, side, kind, s, cal, l, byExpiry);
  }

  lemma AllFound(found: seq<Spread>, side: Side, kind: FilterKind, s: real, cal: Calendar, l: seq<Option>, byExpiry: map<string, Bucket>)
    requires s > 0.0 && Grouped(byExpiry, cal, l) && FoundIn(found, side, kind, s, cal, l, byExpiry.Keys)
    ensures multiset(found) == multiset(Cross(Pairing(side, kind, s, cal), l, l))
  {
    AllGrouped(byExpiry, cal, l);
  }

  /** The spreads found so far are those whose bought option expires in `done`. */
  ghost predicate FoundIn(found: seq<Spread>, side: Side, kind: FilterKind, s: real, cal: Calendar, l: seq<Option>, done: set<string>)
    requires s > 0.0
  {
    multiset(found) == multiset(Cross(Pairing(side, kind, s, cal), Group(Expiry, l, done), l))
  }

  lemma NothingFound(side: Side, kind: FilterKind, s: real, cal: Calendar, l: seq<Option>)
    requires s > 0.0
    ensures FoundIn([], side, kind, s, cal, l, {})
  {
    GroupNone(Expiry, l);
  }

  lemma BucketFound(found: seq<Spread>, part: seq<Spread>, side: Side, kind: FilterKind, s: real, cal: Calendar, l: seq<Option>,
                    done: set<string>, e: string)
    requires s > 0.0 && e !in done && FoundIn(found, side, kind, s, cal, l, done)
    requires var h := Group(Expiry, l, {e}); multiset(part) == multiset(Cross(Pairing(side, kind, s, cal), h, h))
    ensures FoundIn(found + part, side, kind, s, cal, l, done + {e})
  {
    CrossByGroup(Pairing(side, kind, s, cal), Expiry, l, l, done, e);
  }

  method PairBucket(side: Side, s: real, kind: FilterKind, cal: Calendar, bucket: Bucket, e: string, ghost l: seq<Option>)
    returns (part: seq<Spread>)
    requires s > 0.0 && bucket == Bucket(DaysOf(cal, e), Group(Expiry, l, {e}))
    ensures var h := Group(Expiry, l, {e}); multiset(part) == multiset(Cross(Pairing(side, kind, s, cal), h, h))
  {
    var g := SortDescending(bucket.legs, NegativeStrike);
    SortedGroup(l, e, g);
    part := PairGroup(side, kind, s, cal, bucket.days, e, g);
    ghost var f := Pairing(side, kind, s, cal);
    CrossPermutes(f, g, bucket.legs, g);
    CrossPermutesRight(f, bucket.legs, g, bucket.legs);
  }

  lemma SortedGroup(l: seq<Option>, e: string, g: seq<Option>)
    requires multiset(g) == multiset(Group(Expiry, l, {e})) && Descending(g, NegativeStrike)
    ensures StrikesAscend(g) && forall i :: 0 <= i < |g| ==> g[i].expiry == e
  {
    GroupKeys(Expiry, l, {e});
    forall i | 0 <= i < |g| ensures g[i].expiry == e {
      assert g[i] in multiset(Group(Expiry, l, {e}));
    }
    forall i, j | 0 <= i < j < |g| ensures g[i].strike <= g[j].strike {
      assert NegativeStrike(g[i]) >= NegativeStrike(g[j]);
    }
  }

  lemma AllGrouped(byExpiry: map<string, Bucket>, cal: Calendar, l: seq<Option>)
    requires Grouped(byExpiry, cal, l)
    ensures Group(Expiry, l, byExpiry.Keys) == l
  {
    forall i | 0 <= i < |l| ensures Expiry(l[i]) in byExpiry.Keys {
      GroupHas(l, i);
    }
    GroupAll(Expiry, l, byExpiry.Keys);
  }

  lemma {:induction false} GroupHas(l: seq<Option>, i: nat)
    requires i < |l|
    ensures Group(Expiry, l, {l[i].expiry}) != []
  {
    if i < |l| - 1 {
      GroupHas(l[..|l| - 1], i);
    }
  }

  // ---------- what is found ----------

  lemma {:induction false} ListedMembers(side: Side, cal: Calendar, options: seq<Option>, o: Option)
    ensures o in ListedOptions(side, cal, options) <==> o in options && Listed(side, cal, o)
  {
    if options != [] {
      var front := options[..|options| - 1];
      ListedMembers(side, cal, front, o);
      assert options == front + [options[|options| - 1]];
    }
  }

  ghost predicate ComesFrom(sp: Spread, side: Side, kind: FilterKind, s: real, cal: Calendar, a: Option, b: Option)
    requires s > 0.0
  {
    Listed(side, cal, a) && Listed(side, cal, b) && Qualifies(side, kind, s, a, b) && sp == SpreadOf(side, s, cal(a.expiry).n, a, b)
  }

  /** Sound and complete: a spread is reported exactly when two listed options qualify for it. */
  lemma SpreadsAreQualifyingPairs(side: Side, kind: FilterKind, s: real, cal: Calendar, options: seq<Option>, sp: Spread)
    requires s > 0.0
    ensures sp in AllSpreads(side, kind, s, cal, options)
            <==> exists a, b :: a in options && b in options && ComesFrom(sp, side, kind, s, cal, a, b)
  {
    var l := ListedOptions(side, cal, options);
    var f := Pairing(side, kind, s, cal);
    if sp in AllSpreads(side, kind, s, cal, options) {
      var i, j := CrossMember(f, l, l, sp);
      ListedMembers(side, cal, options, l[i]);
      ListedMembers(side, cal, options, l[j]);
      assert ComesFrom(sp, side, kind, s, cal, l[i], l[j]);
    }
    if a, b :| a in options && b in options && ComesFrom(sp, side, kind, s, cal, a, b) {
      ListedMembers(side, cal, options, a);
      ListedMembers(side, cal, options, b);
      var i :| 0 <= i < |l| && l[i] == a;
      var j :| 0 <= j < |l| && l[j] == b;
      CrossHas(f, l, l, i, j, sp);
    }
  }

  /**
   a may be bought against b, told from the two options alone: both of the engine's kind and
   of one expiry 30 to 60 days ahead; a in the band of moneyness; b on the right side of it;
   and the debit, from the first row of each book or the close, positive and not too dear
   for the width.
   */
  ghost predicate Eligible(side: Side, kind: FilterKind, s: real, cal: Calendar, a: Option, b: Option) {
    var ask := if a.sellRow1 > 0.0 then a.sellRow1 else a.close;
    var bid := if b.buyRow1 > 0.0 then b.buyRow1 else b.close;
    var width := if side == BullCall then b.strike - a.strike else a.strike - b.strike;
    && (side == BullCall ==> "ضهرم" <= a.name && "ضهرم" <= b.name)
    && (side == BearPut ==> "طهرم" <= a.name && "طهرم" <= b.name)
    && a.strike > 0.0 && b.strike > 0.0 && a.expiry == b.expiry != ""
    && cal(a.expiry).Days? && 30 <= cal(a.expiry).n <= 60
    && width > 0.0 && 0.0 < ask - bid <= (if kind == ATM then 0.45 else 0.25) * width
    && (kind == ATM ==> -0.05 * s <= a.strike - s <= 0.05 * s)
    && (kind == OTM && side == BullCall ==> 0.05 * s < a.strike - s <= 0.20 * s)
    && (kind == OTM && side == BearPut ==> -0.20 * s <= a.strike - s <= -0.05 * s)
  }

  /** sp is the record of buying a and selling b. */
  ghost predicate IsRecord(side: Side, s: real, a: Option, b: Option, sp: Spread) {
    && sp.k1Symbol == a.name && sp.k2Symbol == b.name && sp.k1 == a.strike && sp.k2 == b.strike
    && sp.expiry == a.expiry == b.expiry && sp.s == s
    && sp.askK1 == (if a.sellRow1 > 0.0 then a.sellRow1 else a.close)
    && sp.bidK2 == (if b.buyRow1 > 0.0 then b.buyRow1 else b.close)
    && sp.w == (if side == BullCall then sp.k2 - sp.k1 else sp.k1 - sp.k2)
    && sp.d == sp.askK1 - sp.bidK2 && sp.mp == sp.w - sp.d
    && sp.dwPct * sp.w == 100.0 * sp.d && sp.r * sp.d == sp.mp
  }

  /** sp reports the purchase of a and the sale of b. */
  ghost predicate Reports(side: Side, kind: FilterKind, s: real, cal: Calendar, a: Option, b: Option, sp: Spread) {
    Eligible(side, kind, s, cal, a, b) && IsRecord(side, s, a, b, sp) && cal(sp.expiry) == Days(sp.daysToExpiry)
  }

  lemma MoneynessBand(s: real, k: real, c: real)
    requires s > 0.0
    ensures Moneyness(s, k) < c <==> k - s < c * s
    ensures Moneyness(s, k) > c <==> k - s > c * s
  {
    var m := Moneyness(s, k);
    assert m * s == k - s;
    if m < c {
      assert (c - m) * s > 0.0;
    } else if m > c {
      assert (m - c) * s > 0.0;
    }
  }

  lemma BandMeans(side: Side, kind: FilterKind, s: real, k: real)
    requires s > 0.0
    ensures InBand(side, kind, Moneyness(s, k)) <==>
      match kind
      case ATM => -0.05 * s <= k - s <= 0.05 * s
      case OTM => if side == BullCall then 0.05 * s < k - s <= 0.20 * s else -0.20 * s <= k - s <= -0.05 * s
  {
    MoneynessBand(s, k, 0.05);
    MoneynessBand(s, k, -0.05);
    MoneynessBand(s, k, 0.20);
    MoneynessBand(s, k, -0.20);
  }

  lemma QuotientIff(x: real, d: real, q: real)
    requires d > 0.0
    ensures q == x / d <==> q * d == x
  {
    if q * d == x {
      assert (q - x / d) * d == 0.0;
    }
  }

  /** `SpreadOf` makes the one record there is. */
  lemma RecordMeans(side: Side, s: real, days: int, a: Option, b: Option, sp: Spread)
    requires a.expiry == b.expiry && Width(side, a, b) > 0.0 && Debit(a, b) > 0.0
    ensures sp == SpreadOf(side, s, days, a, b) <==> IsRecord(side, s, a, b, sp) && sp.daysToExpiry == days
  {
    var w, d := Width(side, a, b), Debit(a, b);
    QuotientIff(w - d, d, sp.r);
    PercentIff(d, w, sp.dwPct);
  }

  lemma EligibleIff(side: Side, kind: FilterKind, s: real, cal: Calendar, a: Option, b: Option)
    requires s > 0.0
    ensures Eligible(side, kind, s, cal, a, b) <==> Listed(side, cal, a) && Listed(side, cal, b) && Qualifies(side, kind, s, a, b)
  {
    BandMeans(side, kind, s, a.strike);
  }

  lemma PercentIff(d: real, w: real, q: real)
    requires w > 0.0
    ensures q == d / w * 100.0 <==> q * w == 100.0 * d
  {
    QuotientIff(d, w, q / 100.0);
    assert q / 100.0 * w == q * w / 100.0;
  }

  lemma ReportsIff(side: Side, kind: FilterKind, s: real, cal: Calendar, a: Option, b: Option, sp: Spread)
    requires s > 0.0
    ensures Reports(side, kind, s, cal, a, b, sp) <==> ComesFrom(sp, side, kind, s, cal, a, b)
  {
    EligibleIff(side, kind, s, cal, a, b);
    if Eligible(side, kind, s, cal, a, b) {
      RecordMeans(side, s, cal(a.expiry).n, a, b, sp);
    }
  }

  /** An ordered pair of listed options gives at most one spread, and gives one exactly when that reports the pair. */
  lemma PairingReports(side: Side, kind: FilterKind, s: real, cal: Calendar, a: Option, b: Option, sp: Spread)
    requires s > 0.0 && Listed(side, cal, a) && Listed(side, cal, b)
    ensures |Pairing(side, kind, s, cal)(a, b)| <= 1
    ensures sp in Pairing(side, kind, s, cal)(a, b) <==> Reports(side, kind, s, cal, a, b, sp)
  {
    ReportsIff(side, kind, s, cal, a, b, sp);
  }

  /** Sound and complete, field by field: the spreads are the reports of pairs of options. */
  lemma SpreadsAreReports(side: Side, kind: FilterKind, s: real, cal: Calendar, options: seq<Option>, sp: Spread)
    requires s > 0.0
    ensures sp in AllSpreads(side, kind, s, cal, options)
            <==> exists a, b :: a in options && b in options && Reports(side, kind, s, cal, a, b, sp)
  {
    SpreadsAreQualifyingPairs(side, kind, s, cal, options, sp);
    if a, b :| a in options && b in options && ComesFrom(sp, side, kind, s, cal, a, b) {
      ReportsIff(side, kind, s, cal, a, b, sp);
    }
    if a, b :| a in options && b in options && Reports(side, kind, s, cal, a, b, sp) {
      ReportsIff(side, kind, s, cal, a, b, sp);
    }
  }

  lemma DivideBound(x: real, d: real, c: real)
    requires d > 0.0 && x >= c * d
    ensures x / d >= c && x / d * d == x
  {
    var q := x / d;
    assert q * d == x;
    assert (q - c) * d >= 0.0;
  }

  ghost predicate RewardBounded(kind: FilterKind, sp: Spread) {
    && sp.d > 0.0 && sp.w == sp.d + sp.mp && sp.r * sp.d == sp.mp
    && sp.r >= if kind.ATM? then 11.0 / 9.0 else 3.0
  }

  lemma PairReward(side: Side, kind: FilterKind, s: real, days: int, a: Option, b: Option)
    requires Affordable(side, kind, a, b)
    ensures RewardBounded(kind, SpreadOf(side, s, days, a, b))
  {
    var w, d := Width(side, a, b), Debit(a, b);
    if kind.ATM? {
      assert w - d >= 11.0 / 9.0 * d;
    } else {
      assert w - d >= 3.0 * d;
    }
    DivideBound(w - d, d, if kind.ATM? then 11.0 / 9.0 else 3.0);
  }

  lemma PairingReward(side: Side, kind: FilterKind, s: real, cal: Calendar, a: Option, b: Option, sp: Spread)
    requires s > 0.0 && sp in Pairing(side, kind, s, cal)(a, b)
    ensures RewardBounded(kind, sp)
  {
    assert Affordable(side, kind, a, b);
    PairReward(side, kind, s, DaysOf(cal, a.expiry), a, b);
  }

  /** The debit filters bound the reward from below. */
  lemma RewardBounds(side: Side, kind: FilterKind, s: real, cal: Calendar, options: seq<Option>, sp: Spread)
    requires s > 0.0 && sp in AllSpreads(side, kind, s, cal, options)
    ensures RewardBounded(kind, sp)
  {
    var l := ListedOptions(side, cal, options);
    var f := Pairing(side, kind, s, cal);
    var i, j := CrossMember(f, l, l, sp);
    PairingReward(side, kind, s, cal, l[i], l[j], sp);
  }

  // ---------- the mirror law ----------

  function SwapPrefix(name: string): string {
    if CALL_PREFIX <= name then PUT_PREFIX + name[|CALL_PREFIX|..]
    else if PUT_PREFIX <= name then CALL_PREFIX + name[|PUT_PREFIX|..]
    else name
  }

  /** Reflects a strike about the underlying price and turns a call into a put. */
  function MirrorOption(s: real): Option -> Option {
    (o: Option) => o.(name := SwapPrefix(o.name), strike := 2.0 * s - o.strike)
  }

  function MirrorSpread(s: real): Spread -> Spread {
    (sp: Spread) => sp.(k1Symbol := SwapPrefix(sp.k1Symbol), k2Symbol := SwapPrefix(sp.k2Symbol),
                        k1 := 2.0 * s - sp.k1, k2 := 2.0 * s - sp.k2)
  }

  /** Calls are struck strictly between zero and twice the underlying price. */
  predicate Reflectable(s: real, options: seq<Option>) {
    forall i :: 0 <= i < |options| ==> (CALL_PREFIX <= options[i].name ==> 0.0 < options[i].strike < 2.0 * s)
  }

  /** The bought strike lies exactly on the 5% edge, which only the put engine counts as out of the money. */
  predicate OnEdge(kind: FilterKind, s: real, a: Option, b: Option)
    requires s > 0.0
  {
    kind.OTM? && a.expiry == b.expiry && Moneyness(s, a.strike) == 0.05 && Affordable(BullCall, kind, a, b)
  }

  function EdgePairing(kind: FilterKind, s: real, cal: Calendar): (Option, Option) -> seq<Spread>
    requires s > 0.0
  {
    (a: Option, b: Option) =>
      if OnEdge(kind, s, a, b) then [SpreadOf(BullCall, s, DaysOf(cal, a.expiry), a, b)] else []
  }

  lemma MirrorMoneyness(s: real, k: real)
    requires s > 0.0
    ensures Moneyness(s, 2.0 * s - k) == -Moneyness(s, k)
  {
  }

  lemma QualifiesMirrors(kind: FilterKind, s: real, a: Option, b: Option)
    requires s > 0.0
    ensures var m := MirrorOption(s);
            && (Qualifies(BearPut, kind, s, m(a), m(b)) <==> Qualifies(BullCall, kind, s, a, b) || OnEdge(kind, s, a, b))
            && !(Qualifies(BullCall, kind, s, a, b) && OnEdge(kind, s, a, b))
  {
    var m := MirrorOption(s);
    MirrorMoneyness(s, a.strike);
    assert Width(BearPut, m(a), m(b)) == Width(BullCall, a, b);
    assert Debit(m(a), m(b)) == Debit(a, b);
    assert Affordable(BearPut, kind, m(a), m(b)) <==> Affordable(BullCall, kind, a, b);
  }

  lemma SpreadMirrors(s: real, days: int, a: Option, b: Option)
    requires Width(BullCall, a, b) > 0.0 && Debit(a, b) > 0.0
    ensures var m := MirrorOption(s);
            && Width(BearPut, m(a), m(b)) == Width(BullCall, a, b) && Debit(m(a), m(b)) == Debit(a, b)
            && SpreadOf(BearPut, s, days, m(a), m(b)) == MirrorSpread(s)(SpreadOf(BullCall, s, days, a, b))
  {
  }

  lemma MapOne<T, U>(g: T -> U, x: T)
    ensures Map(g, [x]) == [g(x)] && Map(g, []) == []
  {
    assert [x][..0] == [];
  }

  lemma PairMirrors(kind: FilterKind, s: real, cal: Calendar, a: Option, b: Option)
    requires s > 0.0
    ensures var m, r := MirrorOption(s), MirrorSpread(s);
            multiset(Pairing(BearPut, kind, s, cal)(m(a), m(b)))
            == multiset(Map(r, Pairing(BullCall, kind, s, cal)(a, b))) + multiset(Map(r, EdgePairing(kind, s, cal)(a, b)))
  {
    QualifiesMirrors(kind, s, a, b);
    if Qualifies(BullCall, kind, s, a, b) || OnEdge(kind, s, a, b) {
      var sp := SpreadOf(BullCall, s, DaysOf(cal, a.expiry), a, b);
      SpreadMirrors(s, DaysOf(cal, a.expiry), a, b);
      MapOne(MirrorSpread(s), sp);
    }
  }

  lemma SwappedPrefix(name: string)
    ensures PUT_PREFIX <= SwapPrefix(name) <==> CALL_PREFIX <= name
  {
    assert PUT_PREFIX[0] != CALL_PREFIX[0];
  }

  lemma {:induction false} ListedMirrors(s: real, cal: Calendar, options: seq<Option>)
    requires Reflectable(s, options)
    ensures ListedOptions(BearPut, cal, Map(MirrorOption(s), options)) == Map(MirrorOption(s), ListedOptions(BullCall, cal, options))
  {
    if options != [] {
      var front, o := options[..|options| - 1], options[|options| - 1];
      var m := MirrorOption(s);
      ListedMirrors(s, cal, front);
      SwappedPrefix(o.name);
      assert Map(m, options) == Map(m, front) + [m(o)];
      assert Map(m, options)[..|Map(m, options)| - 1] == Map(m, front);
      var l := ListedOptions(BullCall, cal, front);
      assert (l + [o])[..|l|] == l;
    }
  }

  /**
   Reflecting strikes about S turns calls into puts: the bear engine then finds the mirror
   images of the bull engine's spreads, with the same width, debit, profit and reward, and
   besides them only out-of-the-money spreads bought exactly on the 5% edge.
   */
  lemma MirrorLaw(kind: FilterKind, s: real, cal: Calendar, options: seq<Option>, bull: seq<Spread>, bear: seq<Spread>)
    requires s > 0.0 && Reflectable(s, options)
    requires multiset(bull) == multiset(AllSpreads(BullCall, kind, s, cal, options))
    requires multiset(bear) == multiset(AllSpreads(BearPut, kind, s, cal, Map(MirrorOption(s), options)))
    ensures var l := ListedOptions(BullCall, cal, options);
            var edge := Cross(EdgePairing(kind, s, cal), l, l);
            && multiset(bear) == multiset(Map(MirrorSpread(s), bull)) + multiset(Map(MirrorSpread(s), edge))
            && (kind.ATM? ==> edge == [])
  {
    var l := ListedOptions(BullCall, cal, options);
    var f, extra, h := Pairing(BullCall, kind, s, cal), EdgePairing(kind, s, cal), Pairing(BearPut, kind, s, cal);
    var m, r := MirrorOption(s), MirrorSpread(s);
    forall i, j | 0 <= i < |l| && 0 <= j < |l|
      ensures multiset(h(m(l[i]), m(l[j]))) == multiset(Map(r, f(l[i], l[j]))) + multiset(Map(r, extra(l[i], l[j])))
    {
      PairMirrors(kind, s, cal, l[i], l[j]);
    }
    CrossImage(f, extra, h, m, r, l, l);
    ListedMirrors(s, cal, options);
    MapPermutes(r, bull, Cross(f, l, l));
    if kind.ATM? {
      CrossOfNothing(extra, l, l);
    }
  }

  lemma MapTwo<T, U>(g: T -> U, x: T, y: T)
    ensures Map(g, [x, y]) == [g(x), g(y)]
  {
    MapConcat(g, [x], [y]);
    MapOne(g, x);
    MapOne(g, y);
    assert [x] + [y] == [x, y];
  }

  /** A call bought at 105 with the underlying at 100 is no out-of-the-money spread; its mirror, a put bought at 95, is one. */
  lemma EdgeExample(cal: Calendar, sp: Spread)
    requires cal("e") == Days(45)
    ensures var a, b := Option(CALL_PREFIX + "1", 105.0, 3.0, 0.0, 0.0, "e"), Option(CALL_PREFIX + "2", 115.0, 0.0, 1.0, 0.0, "e");
            var m := MirrorOption(100.0);
            && Reflectable(100.0, [a, b])
            && sp !in AllSpreads(BullCall, OTM, 100.0, cal, [a, b])
            && SpreadOf(BearPut, 100.0, 45, m(a), m(b)) in AllSpreads(BearPut, OTM, 100.0, cal, Map(m, [a, b]))
  {
    var a, b := Option(CALL_PREFIX + "1", 105.0, 3.0, 0.0, 0.0, "e"), Option(CALL_PREFIX + "2", 115.0, 0.0, 1.0, 0.0, "e");
    var m := MirrorOption(100.0);
    EdgeOnly(a, b);
    SpreadsAreQualifyingPairs(BullCall, OTM, 100.0, cal, [a, b], sp);
    MapTwo(m, a, b);
    SwappedPrefix(a.name);
    SwappedPrefix(b.name);
    MirrorQualifies(m(a), m(b), cal);
  }

  lemma MirrorQualifies(x: Option, y: Option, cal: Calendar)
    requires Listed(BearPut, cal, x) && Listed(BearPut, cal, y) && Qualifies(BearPut, OTM, 100.0, x, y)
    requires cal(x.expiry) == Days(45)
    ensures SpreadOf(BearPut, 100.0, 45, x, y) in AllSpreads(BearPut, OTM, 100.0, cal, [x, y])
  {
    var sp := SpreadOf(BearPut, 100.0, 45, x, y);
    SpreadsAreQualifyingPairs(BearPut, OTM, 100.0, cal, [x, y], sp);
    assert ComesFrom(sp, BearPut, OTM, 100.0, cal, x, y);
  }

  lemma EdgeOnly(a: Option, b: Option)
    requires a.strike == 105.0 && b.strike == 115.0 && a.expiry == b.expiry && AskPrice(a) == 3.0 && BidPrice(b) == 1.0
    ensures forall x, y :: x in [a, b] && y in [a, b] ==> !Qualifies(BullCall, OTM, 100.0, x, y)
    ensures var m := MirrorOption(100.0); Qualifies(BearPut, OTM, 100.0, m(a), m(b))
  {
    assert Moneyness(100.0, 105.0) == 0.05;
    assert Moneyness(100.0, 95.0) == -0.05;
    assert Width(BullCall, b, a) < 0.0 && Width(BullCall, b, b) == 0.0;
  }

  lemma {:induction false} CrossOfNothing(f: (Option, Option) -> seq<Spread>, xs: seq<Option>, ys: seq<Option>)
    requires forall a, b :: f(a, b) == []
    ensures Cross(f, xs, ys) == []
  {
    if xs != [] {
      CrossOfNothing(f, xs[..|xs| - 1], ys);
      RowOfNothing(f, xs[|xs| - 1], ys);
    }
  }
}

/** Spread alerts: a threshold per engine and moneyness in front of the de-duplicating engine. */
module SpreadAlerts {
  import opened AlertHistory
  import opened Spreads

  datatype Config = Config(bullATM: real, bullOTM: real, bearATM: real, bearOTM: real)

  /** The thresholds used when the environment sets none. */
  const DEFAULTS := Config(2.0, 3.0, 1.5, 3.0)

  function Threshold(cfg: Config, side: Side, kind: FilterKind): real {
    match (side, kind)
    case (BullCall, ATM) => cfg.bullATM
    case (BullCall, OTM) => cfg.bullOTM
    case (BearPut, ATM) => cfg.bearATM
    case (BearPut, OTM) => cfg.bearOTM
  }

  predicate Due(cfg: Config, side: Side, kind: FilterKind, r: real) {
    Threshold(cfg, side, kind) > 0.0 && r >= Threshold(cfg, side, kind)
  }

  /** The identity of an opportunity: fixed terms only, never the momentary reward. */
  function AlertKey(side: Side, kind: FilterKind, sp: Spread): Key {
    var k := if kind.ATM? then "ATM" else "OTM";
    if side.BullCall?
    then Key("bale_bull_spread", "bale-bs:" + k + ":" + sp.expiry + ":" + sp.k1Symbol + ":" + sp.k2Symbol)
    else Key("bale_bear_put_spread", "bale-bps:" + k + ":" + sp.expiry + ":" + sp.k1Symbol + ":" + sp.k2Symbol)
  }

  method MaybeSendSpread(engine: Engine, cfg: Config, side: Side, kind: FilterKind, sp: Spread, message: string,
                         queried: int, inserted: int, delivered: bool, released: bool)
    returns (r: SendResult)
    modifies engine, engine.store
    ensures r == Sent <==>
      Due(cfg, side, kind, sp.r) && engine.configured && AlertKey(side, kind, sp) !in old(engine.store.rows) && delivered
    ensures engine.notified == if r == Sent then old(engine.notified) + [message] else old(engine.notified)
    ensures engine.store.rows ==
      if r == Sent || (Due(cfg, side, kind, sp.r) && engine.configured && AlertKey(side, kind, sp) !in old(engine.store.rows) && !released)
      then old(engine.store.rows)[AlertKey(side, kind, sp) := Row(message, inserted)]
      else old(engine.store.rows)
  {
    var threshold := if side.BullCall? then cfg.bullATM else cfg.bearATM;
    if kind.OTM? {
      threshold := if side.BullCall? then cfg.bullOTM else cfg.bearOTM;
    }
    if threshold <= 0.0 || sp.r < threshold {
      return Suppressed;
    }
    r := engine.Send(AlertKey(side, kind, sp), message, queried, inserted, delivered, released);
  }

  /** With the default thresholds every out-of-the-money spread either engine finds is due for an alert. */
  lemma EveryOTMSpreadIsDue(side: Side, s: real, cal: Calendar, options: seq<Option>, sp: Spread)
    requires s > 0.0 && sp in AllSpreads(side, OTM, s, cal, options)
    ensures sp.r >= 3.0 && Due(Config(2.0, 3.0, 1.5, 3.0), side, OTM, sp.r)
  {
    RewardBounds(side, OTM, s, cal, options, sp);
  }

  /** Which threshold guards which spreads: none at all when it is not positive. */
  lemma DueMeans(cfg: Config, r: real)
    ensures Due(cfg, BullCall, ATM, r) <==> 0.0 < cfg.bullATM <= r
    ensures Due(cfg, BullCall, OTM, r) <==> 0.0 < cfg.bullOTM <= r
    ensures Due(cfg, BearPut, ATM, r) <==> 0.0 < cfg.bearATM <= r
    ensures Due(cfg, BearPut, OTM, r) <==> 0.0 < cfg.bearOTM <= r
  {
  }

  lemma FirstColon(x: string, y: string, u: string, v: string)
    requires ':' !in x && ':' !in u && x + (":" + y) == u + (":" + v)
    ensures x == u && y == v
  {
    var s := x + (":" + y);
    assert s[|x|] == ':' && s[|u|] == ':';
    assert x == s[..|x|] && u == s[..|u|];
    assert y == s[|x| + 1..] && v == s[|u| + 1..];
  }

  function KindName(kind: FilterKind): string {
    if kind == ATM then "ATM" else "OTM"
  }

  lemma KeyParts(side: Side, kind: FilterKind, sp: Spread)
    ensures AlertKey(side, kind, sp).alertType == if side == BullCall then "bale_bull_spread" else "bale_bear_put_spread"
    ensures AlertKey(side, kind, sp).key ==
            (if side == BullCall then "bale-bs" else "bale-bps")
            + (":" + (KindName(kind) + (":" + (sp.expiry + (":" + (sp.k1Symbol + (":" + sp.k2Symbol)))))))
  {
    var k, e, a, b := KindName(kind), sp.expiry, sp.k1Symbol, sp.k2Symbol;
    var p := if side == BullCall then "bale-bs" else "bale-bps";
    assert p + ":" + k + ":" + e + ":" + a + ":" + b == p + (":" + (k + (":" + (e + (":" + (a + (":" + b)))))));
    assert p + ":" == if side == BullCall then "bale-bs:" else "bale-bps:";
  }

  /**
   The key identifies the opportunity: two spreads share it exactly when engine, moneyness,
   expiry and both legs are the same, as long as expiries and bought legs hold no colon.
   */
  lemma KeyIdentifies(side: Side, kind: FilterKind, sp: Spread, side': Side, kind': FilterKind, sp': Spread)
    requires ':' !in sp.expiry && ':' !in sp'.expiry && ':' !in sp.k1Symbol && ':' !in sp'.k1Symbol
    ensures AlertKey(side, kind, sp) == AlertKey(side', kind', sp') <==>
            side == side' && kind == kind' && sp.expiry == sp'.expiry && sp.k1Symbol == sp'.k1Symbol && sp.k2Symbol == sp'.k2Symbol
  {
    KeyParts(side, kind, sp);
    KeyParts(side', kind', sp');
    if AlertKey(side, kind, sp) == AlertKey(side', kind', sp') {
      SameType(side, side');
      var a, b := sp.k1Symbol + (":" + sp.k2Symbol), sp'.k1Symbol + (":" + sp'.k2Symbol);
      var e, f := sp.expiry + (":" + a), sp'.expiry + (":" + b);
      var p := if side == BullCall then "bale-bs" else "bale-bps";
      FirstColon(p, KindName(kind) + (":" + e), p, KindName(kind') + (":" + f));
      FirstColon(KindName(kind), e, KindName(kind'), f);
      FirstColon(sp.expiry, a, sp'.expiry, b);
      FirstColon(sp.k1Symbol, sp.k2Symbol, sp'.k1Symbol, sp'.k2Symbol);
      SameKind(kind, kind');
    }
  }

  /** With a colon in a name two opportunities can share a key: b:c against d, and b against c:d. */
  lemma KeyCollision(sp: Spread)
    ensures var x := sp.(expiry := "e", k1Symbol := "b:c", k2Symbol := "d");
            var y := sp.(expiry := "e", k1Symbol := "b", k2Symbol := "c:d");
            AlertKey(BullCall, ATM, x) == AlertKey(BullCall, ATM, y) && x.k1Symbol != y.k1Symbol
  {
    var x := sp.(expiry := "e", k1Symbol := "b:c", k2Symbol := "d");
    var y := sp.(expiry := "e", k1Symbol := "b", k2Symbol := "c:d");
    KeyParts(BullCall, ATM, x);
    KeyParts(BullCall, ATM, y);
    assert x.k1Symbol + (":" + x.k2Symbol) == "b:c:d" == y.k1Symbol + (":" + y.k2Symbol);
  }

  lemma SameType(side: Side, side': Side)
    requires (if side == BullCall then "bale_bull_spread" else "bale_bear_put_spread")
          == (if side' == BullCall then "bale_bull_spread" else "bale_bear_put_spread")
    ensures side == side'
  {
    assert |"bale_bull_spread"| != |"bale_bear_put_spread"|;
  }

  lemma SameKind(kind: FilterKind, kind': FilterKind)
    requires KindName(kind) == KindName(kind')
    ensures kind == kind'
  {
    assert "ATM"[0] != "OTM"[0];
  }

  // ---------- the loop over one list of spreads ----------

  /** The clock readings of one attempt to send and the outcomes of delivery and release. */
  datatype Attempt = Attempt(queried: int, inserted: int, delivered: bool, released: bool)

  /** Of these spreads only due ones got a new row, and no row was lost or changed. */
  ghost predicate OnlyDueAdded(before: Table, after: Table, cfg: Config, side: Side, kind: FilterKind, spreads: seq<Spread>) {
    && (forall k <- before :: k in after && after[k] == before[k])
    && forall k <- after :: k in before || exists sp <- spreads :: Due(cfg, side, kind, sp.r) && k == AlertKey(side, kind, sp)
  }

  ghost predicate DueAreClaimed(rows: Table, cfg: Config, side: Side, kind: FilterKind, spreads: seq<Spread>) {
    forall sp <- spreads :: Due(cfg, side, kind, sp.r) ==> AlertKey(side, kind, sp) in rows
  }

  lemma RowAdded(before: Table, t: Table, cfg: Config, side: Side, kind: FilterKind, spreads: seq<Spread>, sp: Spread, row: Row)
    requires OnlyDueAdded(before, t, cfg, side, kind, spreads) && Due(cfg, side, kind, sp.r)
    requires AlertKey(side, kind, sp) !in t && sp in spreads
    ensures var after := t[AlertKey(side, kind, sp) := row];
            |after| == |t| + 1 && OnlyDueAdded(before, after, cfg, side, kind, spreads)
  {
    var k := AlertKey(side, kind, sp);
    assert t[k := row].Keys == t.Keys + {k};
  }

  lemma ClaimedSoFar(t: Table, after: Table, cfg: Config, side: Side, kind: FilterKind, spreads: seq<Spread>, i: nat)
    requires i < |spreads| && DueAreClaimed(t, cfg, side, kind, spreads[..i]) && forall k <- t :: k in after
    requires Due(cfg, side, kind, spreads[i].r) ==> AlertKey(side, kind, spreads[i]) in after
    ensures DueAreClaimed(after, cfg, side, kind, spreads[..i + 1])
  {
    assert spreads[..i + 1] == spreads[..i] + [spreads[i]];
  }

  /**
   One loop over the spreads of one engine and moneyness: at most one message for each new
   row, and when every delivery succeeds each due spread has its row afterwards.
   */
  method AlertSpreads(engine: Engine, cfg: Config, side: Side, kind: FilterKind, spreads: seq<Spread>,
                      message: Spread -> string, attempts: nat -> Attempt)
    modifies engine, engine.store
    ensures OnlyDueAdded(old(engine.store.rows), engine.store.rows, cfg, side, kind, spreads)
    ensures |engine.notified| - |old(engine.notified)| <= |engine.store.rows| - |old(engine.store.rows)|
    ensures engine.configured && (forall n :: attempts(n).delivered) ==> DueAreClaimed(engine.store.rows, cfg, side, kind, spreads)
  {
    ghost var reliable := engine.configured && forall n :: attempts(n).delivered;
    for i := 0 to |spreads|
      invariant OnlyDueAdded(old(engine.store.rows), engine.store.rows, cfg, side, kind, spreads)
      invariant |engine.notified| - |old(engine.notified)| <= |engine.store.rows| - |old(engine.store.rows)|
      invariant reliable ==> DueAreClaimed(engine.store.rows, cfg, side, kind, spreads[..i])
    {
      ghost var before := engine.store.rows;
      var sp, t := spreads[i], attempts(i);
      var r := MaybeSendSpread(engine, cfg, side, kind, sp, message(sp), t.queried, t.inserted, t.delivered, t.released);
      if engine.store.rows != before {
        RowAdded(old(engine.store.rows), before, cfg, side, kind, spreads, sp, Row(message(sp), t.inserted));
      }
      if reliable {
        ClaimedSoFar(before, engine.store.rows, cfg, side, kind, spreads, i);
      }
    }
    assert spreads[..|spreads|] == spreads;
  }
}
