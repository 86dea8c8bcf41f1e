/**
 Implied volatility by bisection.  The call price is an arbitrary function of sigma;
 what the search needs of it is a hypothesis of each lemma.  Prices are exact reals.
 */
module ImpliedVolatility {

  const MIN_SIGMA := 0.001
  const MAX_SIGMA := 5.0
  const MAX_ITERATIONS: nat := 100
  const PRICE_TOLERANCE := 0.01
  const BOUNDS_TOLERANCE := 0.5

  datatype Error = InvalidInputs | PriceOutOfBounds | NoConvergence

  datatype Outcome = Converged(sigma: real) | Failed(error: Error, sigma: real)

  function Abs(x: real): real {
    if x < 0.0 then -x else x
  }

  predicate Priced(price: real -> real, target: real, sigma: real) {
    Abs(price(sigma) - target) < PRICE_TOLERANCE
  }

  /** The search as a recursion over the iterations left. */
  function Bisect(price: real -> real, target: real, lo: real, hi: real, left: nat): Outcome
    decreases left
  {
    var mid := (lo + hi) / 2.0;
    if left == 0 then Failed(NoConvergence, mid)
    else if Priced(price, target, mid) then Converged(mid)
    else if price(mid) > target then Bisect(price, target, lo, mid, left - 1)
    else Bisect(price, target, mid, hi, left - 1)
  }

  // ---------- hypotheses on the price ----------

  function Pow2(n: nat): (p: real)
    ensures p >= 1.0
  {
    if n == 0 then 1.0 else 2.0 * Pow2(n - 1)
  }

  ghost predicate Increasing(price: real -> real, lo: real, hi: real) {
    forall x, y :: lo <= x <= y <= hi ==> price(x) <= price(y)
  }

  /** From x to y the price moves no faster than L per unit of sigma. */
  ghost predicate NoFaster(price: real -> real, L: real, x: real, y: real) {
    Abs(price(y) - price(x)) <= L * (y - x)
  }

  /** So it is everywhere inside the bracket. */
  ghost predicate Lipschitz(price: real -> real, L: real, lo: real, hi: real) {
    forall x, y :: lo <= x <= y <= hi ==> NoFaster(price, L, x, y)
  }

  /** The last bracket is so narrow that no price can move a tolerance inside it. */
  ghost predicate FineEnough(L: real, width: real, n: nat) {
    L * width < PRICE_TOLERANCE * Pow2(n)
  }

  // ---------- convergence ----------

  /** An answer is inside the bracket and priced within the tolerance, whatever the price function does. */
  lemma {:induction false} BisectIsSound(price: real -> real, target: real, lo: real, hi: real, left: nat)
    requires lo < hi
    ensures var out := Bisect(price, target, lo, hi, left);
            && lo < out.sigma < hi
            && (out.Converged? ==> Priced(price, target, out.sigma))
            && (out.Failed? ==> out.error == NoConvergence)
    decreases left
  {
    var mid := (lo + hi) / 2.0;
    if left > 0 && !Priced(price, target, mid) {
      BisectIsSound(price, target, if price(mid) > target then lo else mid, if price(mid) > target then mid else hi, left - 1);
    }
  }

  lemma HalfStaysFine(L: real, lo: real, hi: real, left: nat)
    requires left > 0 && FineEnough(L, hi - lo, left)
    ensures var mid := (lo + hi) / 2.0; FineEnough(L, mid - lo, left - 1) && FineEnough(L, hi - mid, left - 1)
  {
    var mid := (lo + hi) / 2.0;
    assert mid - lo == (hi - lo) / 2.0 && hi - mid == (hi - lo) / 2.0;
    assert L * ((hi - lo) / 2.0) == L * (hi - lo) / 2.0;
  }

  lemma LastMidIsPriced(price: real -> real, L: real, target: real, lo: real, hi: real)
    requires Lipschitz(price, L, lo, hi) && lo < hi && FineEnough(L, hi - lo, 1)
    requires price(lo) <= target <= price(hi)
    ensures Priced(price, target, (lo + hi) / 2.0)
  {
    var mid := (lo + hi) / 2.0;
    assert NoFaster(price, L, lo, mid) && NoFaster(price, L, mid, hi);
    HalfStaysFine(L, lo, hi, 1);
    assert Pow2(0) == 1.0 && PRICE_TOLERANCE * Pow2(0) == PRICE_TOLERANCE;
    assert L * (hi - mid) < PRICE_TOLERANCE && L * (mid - lo) < PRICE_TOLERANCE;
    Close(price(lo), price(mid), price(hi), target);
  }

  lemma Close(a: real, b: real, c: real, t: real)
    requires a <= t <= c && Abs(b - a) < PRICE_TOLERANCE && Abs(c - b) < PRICE_TOLERANCE
    ensures Abs(b - t) < PRICE_TOLERANCE
  {
  }

  /** The target lies between the prices at the ends of a bracket that the iterations left can close. */
  ghost predicate Bracketed(price: real -> real, L: real, target: real, lo: real, hi: real, left: nat) {
    && Lipschitz(price, L, lo, hi) && lo < hi && left > 0
    && price(lo) <= target <= price(hi)
    && FineEnough(L, hi - lo, left)
  }

  lemma HalfStaysBracketed(price: real -> real, L: real, target: real, lo: real, hi: real, left: nat)
    requires Bracketed(price, L, target, lo, hi, left) && left > 1
    ensures var mid := (lo + hi) / 2.0;
            if price(mid) > target then Bracketed(price, L, target, lo, mid, left - 1)
            else Bracketed(price, L, target, mid, hi, left - 1)
  {
    HalfStaysFine(L, lo, hi, left);
  }

  /**
   A bracketed price is always found.  Halving keeps the target between the prices at
   the two ends, and after the last halving those two prices are closer than the tolerance.
   Monotonicity is not needed.
   */
  lemma {:induction false} BracketedConverges(price: real -> real, L: real, target: real, lo: real, hi: real, left: nat)
    requires Bracketed(price, L, target, lo, hi, left)
    ensures Bisect(price, target, lo, hi, left).Converged?
    decreases left
  {
    var mid := (lo + hi) / 2.0;
    if left == 1 {
      LastMidIsPriced(price, L, target, lo, hi);
    } else {
      HalfStaysBracketed(price, L, target, lo, hi, left);
      if price(mid) > target {
        BracketedConverges(price, L, target, lo, mid, left - 1);
      } else {
        BracketedConverges(price, L, target, mid, hi, left - 1);
      }
    }
  }

  // ---------- the exact condition ----------

  /** The largest and the smallest sigma the search can try. */
  function TopMid(lo: real, hi: real, left: nat): real {
    hi - (hi - lo) / Pow2(left)
  }

  function BottomMid(lo: real, hi: real, left: nat): real {
    lo + (hi - lo) / Pow2(left)
  }

  lemma HalfMids(lo: real, hi: real, left: nat)
    requires lo < hi && left > 0
    ensures var mid := (lo + hi) / 2.0;
            && TopMid(mid, hi, left - 1) == TopMid(lo, hi, left)
            && BottomMid(lo, mid, left - 1) == BottomMid(lo, hi, left)
            && BottomMid(lo, hi, left) <= mid <= TopMid(lo, hi, left)
            && BottomMid(lo, hi, left) <= BottomMid(mid, hi, left - 1)
            && TopMid(lo, mid, left - 1) <= TopMid(lo, hi, left)
  {
    var mid := (lo + hi) / 2.0;
    var p := Pow2(left - 1);
    assert (hi - mid) / p == (hi - lo) / (2.0 * p);
    assert (mid - lo) / p == (hi - lo) / (2.0 * p);
    Shrinks(hi - lo, 2.0 * p);
  }

  lemma Shrinks(w: real, p: real)
    requires w > 0.0 && p >= 2.0
    ensures 0.0 < w / p <= w / 2.0
  {
    assert w / p * p == w;
  }

  lemma {:induction false} AnswerBetweenMids(price: real -> real, target: real, lo: real, hi: real, left: nat)
    requires lo < hi && Bisect(price, target, lo, hi, left).Converged?
    ensures BottomMid(lo, hi, left) <= Bisect(price, target, lo, hi, left).sigma <= TopMid(lo, hi, left)
    decreases left
  {
    var mid := (lo + hi) / 2.0;
    HalfMids(lo, hi, left);
    if Priced(price, target, mid) {
    } else if price(mid) > target {
      AnswerBetweenMids(price, target, lo, mid, left - 1);
    } else {
      AnswerBetweenMids(price, target, mid, hi, left - 1);
    }
  }

  lemma {:induction false} ClimbConverges(price: real -> real, target: real, lo: real, hi: real, left: nat)
    requires Increasing(price, lo, hi) && lo < hi && left > 0
    requires price(hi) < target < price(TopMid(lo, hi, left)) + PRICE_TOLERANCE
    ensures Bisect(price, target, lo, hi, left).Converged?
    decreases left
  {
    var mid := (lo + hi) / 2.0;
    HalfMids(lo, hi, left);
    assert price(mid) <= price(hi);
    if left == 1 {
      assert Pow2(0) == 1.0 && Pow2(1) == 2.0;
      assert TopMid(lo, hi, 1) == mid;
    } else {
      ClimbConverges(price, target, mid, hi, left - 1);
    }
  }

  lemma {:induction false} DescentConverges(price: real -> real, target: real, lo: real, hi: real, left: nat)
    requires Increasing(price, lo, hi) && lo < hi && left > 0
    requires price(BottomMid(lo, hi, left)) - PRICE_TOLERANCE < target < price(lo)
    ensures Bisect(price, target, lo, hi, left).Converged?
    decreases left
  {
    var mid := (lo + hi) / 2.0;
    HalfMids(lo, hi, left);
    assert price(lo) <= price(mid);
    if left == 1 {
      assert Pow2(0) == 1.0 && Pow2(1) == 2.0;
      assert BottomMid(lo, hi, 1) == mid;
    } else {
      DescentConverges(price, target, lo, mid, left - 1);
    }
  }

  /** The target is less than a tolerance away from the prices between the two extreme sigmas. */
  ghost predicate Reachable(price: real -> real, target: real, lo: real, hi: real, left: nat) {
    price(BottomMid(lo, hi, left)) - PRICE_TOLERANCE < target < price(TopMid(lo, hi, left)) + PRICE_TOLERANCE
  }

  lemma ConvergedIsReachable(price: real -> real, target: real, lo: real, hi: real, left: nat)
    requires Increasing(price, lo, hi) && lo < hi && left > 0 && Bisect(price, target, lo, hi, left).Converged?
    ensures Reachable(price, target, lo, hi, left)
  {
    var sigma := Bisect(price, target, lo, hi, left).sigma;
    AnswerBetweenMids(price, target, lo, hi, left);
    BisectIsSound(price, target, lo, hi, left);
    MidsInside(lo, hi, left);
    assert price(BottomMid(lo, hi, left)) <= price(sigma) <= price(TopMid(lo, hi, left));
  }

  lemma MidsInside(lo: real, hi: real, left: nat)
    requires lo < hi && left > 0
    ensures lo <= BottomMid(lo, hi, left) <= hi && lo <= TopMid(lo, hi, left) <= hi
  {
    Shrinks(hi - lo, Pow2(left));
  }

  lemma ReachableConverges(price: real -> real, L: real, target: real, lo: real, hi: real, left: nat)
    requires Increasing(price, lo, hi) && Lipschitz(price, L, lo, hi) && lo < hi && left > 0 && FineEnough(L, hi - lo, left)
    requires Reachable(price, target, lo, hi, left)
    ensures Bisect(price, target, lo, hi, left).Converged?
  {
    if target > price(hi) {
      ClimbConverges(price, target, lo, hi, left);
    } else if target < price(lo) {
      DescentConverges(price, target, lo, hi, left);
    } else {
      BracketedConverges(price, L, target, lo, hi, left);
    }
  }

  /**
   For an increasing price the search answers exactly when the target is less than a
   tolerance above the price of the largest sigma it can try and less than a tolerance
   below the price of the smallest.
   */
  lemma ConvergesIffReachable(price: real -> real, L: real, target: real, lo: real, hi: real, left: nat)
    requires Increasing(price, lo, hi) && Lipschitz(price, L, lo, hi) && lo < hi && left > 0 && FineEnough(L, hi - lo, left)
    ensures Bisect(price, target, lo, hi, left).Converged?
         <==> price(BottomMid(lo, hi, left)) - PRICE_TOLERANCE < target < price(TopMid(lo, hi, left)) + PRICE_TOLERANCE
  {
    if Bisect(price, target, lo, hi, left).Converged? {
      ConvergedIsReachable(price, target, lo, hi, left);
    } else if Reachable(price, target, lo, hi, left) {
      ReachableConverges(price, L, target, lo, hi, left);
    }
  }

  /** 100 doublings. */
  lemma {:induction false} PowerSum(m: nat, n: nat)
    ensures Pow2(m + n) == Pow2(m) * Pow2(n)
  {
    if m > 0 {
      PowerSum(m - 1, n);
    }
  }

  lemma Pow100()
    ensures Pow2(100) == 1267650600228229401496703205376.0
  {
    assert Pow2(5) == 32.0;
    PowerSum(5, 5);
    PowerSum(10, 10);
    PowerSum(20, 5);
    PowerSum(25, 25);
    PowerSum(50, 50);
  }

  /**
   The search as called: a bracketed price gives a sigma in (0.001, 5) priced within 0.01,
   never NoConvergence.
   */
  lemma BracketedPriceIsFound(price: real -> real, L: real, target: real)
    requires Lipschitz(price, L, 0.001, 5.0) && 4.999 * L < 0.01 * 1267650600228229401496703205376.0
    requires price(0.001) <= target <= price(5.0)
    ensures var out := Bisect(price, target, MIN_SIGMA, MAX_SIGMA, MAX_ITERATIONS);
            && out.Converged? && 0.001 < out.sigma < 5.0
            && -0.01 < price(out.sigma) - target < 0.01
  {
    Pow100();
    BracketedConverges(price, L, target, MIN_SIGMA, MAX_SIGMA, MAX_ITERATIONS);
    BisectIsSound(price, target, MIN_SIGMA, MAX_SIGMA, MAX_ITERATIONS);
  }

  /** The extreme sigmas of the search as called: the ends of the bracket, moved in by its width over 2^100. */
  lemma ExtremeSigmas()
    ensures BottomMid(MIN_SIGMA, MAX_SIGMA, MAX_ITERATIONS) == 0.001 + 4.999 / 1267650600228229401496703205376.0
    ensures TopMid(MIN_SIGMA, MAX_SIGMA, MAX_ITERATIONS) == 5.0 - 4.999 / 1267650600228229401496703205376.0
  {
    Pow100();
  }

  /** For an increasing price the search as called answers exactly within a tolerance of the prices it can reach. */
  lemma FoundIff(price: real -> real, L: real, target: real)
    requires Increasing(price, 0.001, 5.0) && Lipschitz(price, L, 0.001, 5.0)
    requires 4.999 * L < 0.01 * 1267650600228229401496703205376.0
    ensures var step := 4.999 / 1267650600228229401496703205376.0;
            Bisect(price, target, MIN_SIGMA, MAX_SIGMA, MAX_ITERATIONS).Converged?
            <==> price(0.001 + step) - 0.01 < target < price(5.0 - step) + 0.01
  {
    Pow100();
    ExtremeSigmas();
    ConvergesIffReachable(price, L, target, MIN_SIGMA, MAX_SIGMA, MAX_ITERATIONS);
  }

  /**
   A price that jumps at zero, as that of every in-the-money call does, meets the
   hypothesis all the same: only the bracket counts.
   */
  lemma JumpOutsideBracket(price: real -> real, c: real, L: real, target: real)
    requires price(0.0) == 0.0 < c && (forall sigma :: sigma > 0.0 ==> price(sigma) == c + L * sigma)
    requires L > 0.0 && 4.999 * L < 0.01 * 1267650600228229401496703205376.0 && price(0.001) <= target <= price(5.0)
    ensures Bisect(price, target, MIN_SIGMA, MAX_SIGMA, MAX_ITERATIONS).Converged?
  {
    forall x, y | 0.001 <= x <= y <= 5.0 ensures NoFaster(price, L, x, y) {
      LinearStep(c, L, x, y);
    }
    BracketedPriceIsFound(price, L, target);
  }

  lemma LinearStep(c: real, L: real, x: real, y: real)
    requires L > 0.0 && x <= y
    ensures Abs((c + L * y) - (c + L * x)) <= L * (y - x)
  {
    assert (c + L * y) - (c + L * x) == L * (y - x) >= 0.0;
  }

  // ---------- the search as a loop ----------

  /** What the search answers for a Lipschitz price. */
  ghost predicate Answers(price: real -> real, target: real) {
    var found := Bisect(price, target, MIN_SIGMA, MAX_SIGMA, MAX_ITERATIONS).Converged?;
    && (price(0.001) <= target <= price(5.0) ==> found)
    && (Increasing(price, 0.001, 5.0) ==>
          var step := 4.999 / 1267650600228229401496703205376.0;
          found <==> price(0.001 + step) - 0.01 < target < price(5.0 - step) + 0.01)
  }

  lemma SearchAnswers(price: real -> real, L: real, target: real)
    requires Lipschitz(price, L, 0.001, 5.0) && 4.999 * L < 0.01 * 1267650600228229401496703205376.0
    ensures Answers(price, target)
  {
    if price(0.001) <= target <= price(5.0) {
      BracketedPriceIsFound(price, L, target);
    }
    if Increasing(price, 0.001, 5.0) {
      FoundIff(price, L, target);
    }
  }

  /** `discounted` is K*exp(-r*T), the only part of the price bounds that is not a field operation. */
  method ImpliedVolatility(price: real -> real, target: real, S: real, K: real, T: real, discounted: real)
    returns (out: Outcome)
    ensures S <= 0.0 || K <= 0.0 || T <= 0.0 ==> out == Failed(InvalidInputs, 0.0)
    ensures S > 0.0 && K > 0.0 && T > 0.0 ==>
      if target >= S || target < -0.5 || target < S - discounted - 0.5 then out == Failed(PriceOutOfBounds, 0.0)
      else out == Bisect(price, target, MIN_SIGMA, MAX_SIGMA, MAX_ITERATIONS)
    ensures out.Converged? ==> 0.001 < out.sigma < 5.0 && -0.01 < price(out.sigma) - target < 0.01
    ensures S > 0.0 && K > 0.0 && T > 0.0 && -0.5 <= target < S && S - discounted - 0.5 <= target ==>
      forall L | Lipschitz(price, L, 0.001, 5.0) && 4.999 * L < 0.01 * 1267650600228229401496703205376.0 ::
        && (price(0.001) <= target <= price(5.0) ==> out.Converged?)
        && (Increasing(price, 0.001, 5.0) ==>
              var step := 4.999 / 1267650600228229401496703205376.0;
              out.Converged? <==> price(0.001 + step) - 0.01 < target < price(5.0 - step) + 0.01)
  {
    BisectIsSound(price, target, MIN_SIGMA, MAX_SIGMA, MAX_ITERATIONS);
    forall L | Lipschitz(price, L, 0.001, 5.0) && 4.999 * L < 0.01 * 1267650600228229401496703205376.0
      ensures Answers(price, target)
    {
      SearchAnswers(price, L, target);
    }
    if T <= 0.0 || S <= 0.0 || K <= 0.0 {
      return Failed(InvalidInputs, 0.0);
    }
    var upper := S;
    var lower := S - discounted;
    if lower < 0.0 {
      lower := 0.0;
    }
    if target < lower - BOUNDS_TOLERANCE || target >= upper {
      return Failed(PriceOutOfBounds, 0.0);
    }

    var lo, hi := MIN_SIGMA, MAX_SIGMA;
    for i := 0 to MAX_ITERATIONS
      invariant Bisect(price, target, lo, hi, MAX_ITERATIONS - i)
             == Bisect(price, target, MIN_SIGMA, MAX_SIGMA, MAX_ITERATIONS)
    {
      var mid := (lo + hi) / 2.0;
      var diff := price(mid) - target;
      if Abs(diff) < PRICE_TOLERANCE {
        return Converged(mid);
      }
      if diff > 0.0 {
        hi := mid;
      } else {
        lo := mid;
      }
    }
    return Failed(NoConvergence, (lo + hi) / 2.0);
  }
}
