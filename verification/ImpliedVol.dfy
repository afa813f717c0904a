/** options/math.py, implied volatility by bisection. The Black-76 formula is
    not modelled: the price is any function of volatility that never falls. */
module ImpliedVol {
  import opened Wrappers
  import Rounding

  const LOW := 0.0001
  const HIGH := 5.0
  const PASSES := 100
  const TOLERANCE := 0.01

  ghost predicate NeverFalls(price: real -> real) {
    forall x, y :: x <= y ==> price(x) <= price(y)
  }

  function Middle(low: real, high: real): real {
    (low + high) / 2.0
  }

  predicate Reprices(price: real -> real, premium: real, sigma: real) {
    -TOLERANCE < price(sigma) - premium < TOLERANCE
  }

  /** The bracket when the search stops, and whether it stopped on a volatility
      that reprices. */
  datatype Search = Search(low: real, high: real, hit: bool)

  function Bisect(price: real -> real, premium: real, low: real, high: real, passes: nat): Search
    decreases passes
  {
    var mid := Middle(low, high);
    if passes == 0 then Search(low, high, false)
    else if Reprices(price, premium, mid) then Search(low, high, true)
    else if price(mid) < premium then Bisect(price, premium, mid, high, passes - 1)
    else Bisect(price, premium, low, mid, passes - 1)
  }

  function Sigma(s: Search): real {
    Middle(s.low, s.high)
  }

  function InHundredths(sigma: real): int {
    Rounding.HalfEven(sigma * 10000.0)
  }

  datatype Quote = Quote(premium: real, forward: real, strike: real, years: real, discount: real, isCall: bool)

  function Intrinsic(q: Quote): real {
    var moneyness := if q.isCall then q.forward - q.strike else q.strike - q.forward;
    q.discount * if moneyness > 0.0 then moneyness else 0.0
  }

  predicate Degenerate(q: Quote) {
    q.premium <= 0.0 || q.forward <= 0.0 || q.strike <= 0.0 || q.years <= 0.0 || q.premium < Intrinsic(q) - 0.01
  }

  function FullSearch(price: real -> real, premium: real): Search {
    Bisect(price, premium, LOW, HIGH, PASSES)
  }

  /** No price, no time, or a premium over a paisa below what exercise is worth now. */
  ghost predicate NothingToImply(q: Quote) {
    var inTheMoney := if q.isCall then q.forward - q.strike else q.strike - q.forward;
    || q.premium <= 0.0 || q.forward <= 0.0 || q.strike <= 0.0 || q.years <= 0.0
    || (0.0 < inTheMoney && q.premium < q.discount * inTheMoney - 0.01)
  }

  /** In hundredths of a per cent, ties to the even one. */
  ghost predicate NearestHundredth(n: int, sigma: real) {
    && -0.5 <= n as real - sigma * 10000.0 <= 0.5
    && (n as real - sigma * 10000.0 in {-0.5, 0.5} ==> n % 2 == 0)
  }

  lemma NothingToImplyIff(q: Quote)
    ensures Degenerate(q) <==> NothingToImply(q)
  {
  }

  lemma HundredthIsNearest(sigma: real)
    ensures NearestHundredth(InHundredths(sigma), sigma)
  {
  }

  /** In hundredths of a per cent, rounded; None when there is nothing to imply. */
  method FindImpliedVol(q: Quote, price: real -> real) returns (r: Option<int>)
    ensures r == if Degenerate(q) then None else Some(InHundredths(Sigma(FullSearch(price, q.premium))))
  {
    if q.premium <= 0.0 || q.forward <= 0.0 || q.strike <= 0.0 || q.years <= 0.0 {
      return None;
    }
    if q.premium < Intrinsic(q) - 0.01 {
      return None;
    }
    var low, high := LOW, HIGH;
    for n := 0 to PASSES
      invariant Bisect(price, q.premium, low, high, PASSES - n) == FullSearch(price, q.premium)
    {
      var mid := (low + high) / 2.0;
      if -TOLERANCE < price(mid) - q.premium < TOLERANCE {
        return Some(InHundredths(mid));
      }
      if price(mid) < q.premium {
        low := mid;
      } else {
        high := mid;
      }
    }
    r := Some(InHundredths((low + high) / 2.0));
  }

  // --- The bracket ---------------------------------------------------------------

  function Pow2(n: nat): real {
    if n == 0 then 1.0 else 2.0 * Pow2(n - 1)
  }

  lemma {:induction false} BracketShrinks(price: real -> real, premium: real, low: real, high: real, passes: nat)
    requires low <= high
    ensures var s := Bisect(price, premium, low, high, passes);
            && low <= s.low <= s.high <= high
            && (!s.hit ==> (s.high - s.low) * Pow2(passes) == high - low)
    decreases passes
  {
    var mid := Middle(low, high);
    if passes > 0 && !Reprices(price, premium, mid) {
      if price(mid) < premium {
        BracketShrinks(price, premium, mid, high, passes - 1);
      } else {
        BracketShrinks(price, premium, low, mid, passes - 1);
      }
      var s := Bisect(price, premium, low, high, passes);
      assert !s.hit ==> (s.high - s.low) * Pow2(passes) == 2.0 * ((s.high - s.low) * Pow2(passes - 1));
    }
  }

  lemma {:induction false} HitReprices(price: real -> real, premium: real, low: real, high: real, passes: nat)
    requires Bisect(price, premium, low, high, passes).hit
    ensures Reprices(price, premium, Sigma(Bisect(price, premium, low, high, passes)))
    decreases passes
  {
    var mid := Middle(low, high);
    if passes > 0 && !Reprices(price, premium, mid) {
      if price(mid) < premium {
        HitReprices(price, premium, mid, high, passes - 1);
      } else {
        HitReprices(price, premium, low, mid, passes - 1);
      }
    }
  }

  /** An exact solution in the bracket is never cut off. */
  lemma {:induction false} SolutionsStay(price: real -> real, premium: real, low: real, high: real, passes: nat, solution: real)
    requires NeverFalls(price) && low <= solution <= high && price(solution) == premium
    ensures var s := Bisect(price, premium, low, high, passes); s.low <= solution <= s.high
    decreases passes
  {
    var mid := Middle(low, high);
    if passes > 0 && !Reprices(price, premium, mid) {
      if price(mid) < premium {
        assert mid <= solution;
        SolutionsStay(price, premium, mid, high, passes - 1, solution);
      } else {
        assert solution <= mid;
        SolutionsStay(price, premium, low, mid, passes - 1, solution);
      }
    }
  }

  function Distance(x: real, y: real): real {
    if x < y then y - x else x - y
  }

  lemma MiddleIsClose(low: real, high: real, x: real)
    requires low <= x <= high
    ensures low <= Middle(low, high) <= high && Distance(Middle(low, high), x) <= (high - low) / 2.0
  {
  }

  /** What is left of the first bracket after so many halvings. */
  ghost predicate Halved(width: real, passes: nat) {
    width * Pow2(passes) == HIGH - LOW
  }

  lemma FinalBracket(price: real -> real, premium: real, passes: nat, s: Search)
    requires s == Bisect(price, premium, LOW, HIGH, passes)
    ensures LOW <= s.low <= s.high <= HIGH && (!s.hit ==> Halved(s.high - s.low, passes))
  {
    BracketShrinks(price, premium, LOW, HIGH, passes);
  }

  lemma RepricesOrIsClose(price: real -> real, premium: real, solution: real, passes: nat, s: Search)
    requires NeverFalls(price) && LOW <= solution <= HIGH && price(solution) == premium
    requires s == Bisect(price, premium, LOW, HIGH, passes)
    ensures LOW <= s.low <= Sigma(s) <= s.high <= HIGH
    ensures Reprices(price, premium, Sigma(s))
            || (Distance(Sigma(s), solution) <= (s.high - s.low) / 2.0 && Halved(s.high - s.low, passes))
  {
    FinalBracket(price, premium, passes, s);
    SolutionsStay(price, premium, LOW, HIGH, passes, solution);
    MiddleIsClose(s.low, s.high, solution);
    if s.hit {
      HitReprices(price, premium, LOW, HIGH, passes);
    }
  }

  /** The unrounded volatility lies in [0.0001, 5] and either reprices the
      premium to within 0.01, or lies within half the final bracket, which is
      2^-100 of the first, of every exact solution there is. */
  lemma VolatilityRepricesOrIsClose(price: real -> real, premium: real, solution: real, s: Search)
    requires NeverFalls(price) && 0.0001 <= solution <= 5.0 && price(solution) == premium && s == FullSearch(price, premium)
    ensures PASSES == 100 && 0.0001 <= s.low <= Sigma(s) <= s.high <= 5.0
    ensures -0.01 < price(Sigma(s)) - premium < 0.01
            || (Distance(Sigma(s), solution) <= (s.high - s.low) / 2.0 && Halved(s.high - s.low, PASSES))
  {
    RepricesOrIsClose(price, premium, solution, PASSES, s);
  }

  // --- Premiums no volatility supports -----------------------------------------------

  lemma {:induction false} OverpricedKeepsHigh(price: real -> real, premium: real, low: real, high: real, passes: nat)
    requires NeverFalls(price) && low <= high && price(high) + TOLERANCE <= premium
    ensures !Bisect(price, premium, low, high, passes).hit && Bisect(price, premium, low, high, passes).high == high
    decreases passes
  {
    var mid := Middle(low, high);
    if passes > 0 {
      assert mid <= high;
      OverpricedKeepsHigh(price, premium, mid, high, passes - 1);
    }
  }

  lemma Pow2IsLarge(n: nat)
    requires n >= 20
    ensures Pow2(n) >= 1000000.0
  {
    if n == 20 {
      Pow2Adds(10, 10);
      assert Pow2(10) == 1024.0;
    } else {
      Pow2IsLarge(n - 1);
    }
  }

  lemma {:induction false} Pow2Adds(m: nat, n: nat)
    ensures Pow2(m + n) == Pow2(m) * Pow2(n)
  {
    if m > 0 {
      Pow2Adds(m - 1, n);
      assert Pow2(m + n) == 2.0 * Pow2(m - 1 + n);
    }
  }

  lemma SmallWidth(width: real, scale: real, whole: real)
    requires 0.0 <= width && 1000000.0 <= scale && width * scale == whole && whole <= 5.0
    ensures width <= 0.000005
  {
    assert width * 1000000.0 <= width * scale;
  }

  lemma {:induction false} UnderpricedKeepsLow(price: real -> real, premium: real, low: real, high: real, passes: nat)
    requires NeverFalls(price) && low <= high && premium <= price(low) - TOLERANCE
    ensures !Bisect(price, premium, low, high, passes).hit && Bisect(price, premium, low, high, passes).low == low
    decreases passes
  {
    var mid := Middle(low, high);
    if passes > 0 {
      assert low <= mid;
      UnderpricedKeepsLow(price, premium, low, mid, passes - 1);
    }
  }

  lemma FinalWidthIsSmall(price: real -> real, premium: real, passes: nat, s: Search)
    requires s == Bisect(price, premium, LOW, HIGH, passes) && !s.hit && 20 <= passes
    ensures LOW <= s.low <= s.high <= HIGH && s.high - s.low <= 0.000005
  {
    FinalBracket(price, premium, passes, s);
    Pow2IsLarge(passes);
    SmallWidth(s.high - s.low, Pow2(passes), HIGH - LOW);
  }

  /** Documented never to fabricate a volatility the price cannot support, the
      search itself never gives up. A premium a paisa or more above the price at
      500 % is answered, always, with 500 %, */
  lemma OverpricedIsAnsweredAtTheCap(price: real -> real, premium: real)
    requires NeverFalls(price) && price(HIGH) + TOLERANCE <= premium
    ensures InHundredths(Sigma(FullSearch(price, premium))) == 50000
    ensures forall sigma :: LOW <= sigma <= HIGH ==> !Reprices(price, premium, sigma)
  {
    OverpricedKeepsHigh(price, premium, LOW, HIGH, PASSES);
    var s := FullSearch(price, premium);
    FinalWidthIsSmall(price, premium, PASSES, s);
    assert 4.99999 <= Sigma(s) <= 5.0;
  }

  /** and one a paisa or more below the price at 0.01 % with 0.01 %. */
  lemma UnderpricedIsAnsweredAtTheFloor(price: real -> real, premium: real)
    requires NeverFalls(price) && premium <= price(LOW) - TOLERANCE
    ensures InHundredths(Sigma(FullSearch(price, premium))) == 1
    ensures forall sigma :: LOW <= sigma <= HIGH ==> !Reprices(price, premium, sigma)
  {
    UnderpricedKeepsLow(price, premium, LOW, HIGH, PASSES);
    var s := FullSearch(price, premium);
    FinalWidthIsSmall(price, premium, PASSES, s);
    assert 0.0001 <= Sigma(s) <= 0.00011;
  }

  ghost predicate Solves(price: real -> real, value: real, sigma: real) {
    LOW <= sigma <= HIGH && price(sigma) == value
  }

  ghost predicate HasSolution(price: real -> real, value: real) {
    exists sigma :: Solves(price, value, sigma)
  }

  /** Between its ends the price takes every value, as a continuous one does. */
  ghost predicate Attains(price: real -> real) {
    forall value :: price(LOW) <= value <= price(HIGH) ==> HasSolution(price, value)
  }

  /** Those are the only two ways. Some volatility of the bracket reprices the
      premium exactly when it lies less than 0.01 outside the prices at the
      bracket's ends, or between them. */
  lemma SupportedIff(price: real -> real, premium: real)
    requires NeverFalls(price) && Attains(price)
    ensures (exists sigma :: LOW <= sigma <= HIGH && Reprices(price, premium, sigma))
            <==> price(LOW) - TOLERANCE < premium < price(HIGH) + TOLERANCE
  {
    if price(LOW) - TOLERANCE < premium < price(HIGH) + TOLERANCE {
      if premium < price(LOW) {
        assert Reprices(price, premium, LOW);
      } else if price(HIGH) < premium {
        assert price(LOW) <= price(HIGH);
        assert Reprices(price, premium, HIGH);
      } else {
        assert HasSolution(price, premium);
        var sigma :| Solves(price, premium, sigma);
        assert Reprices(price, premium, sigma);
      }
    }
  }

  ghost predicate InBracket(sigma: real) {
    LOW <= sigma <= HIGH
  }

  ghost predicate MovesWithin(price: real -> real, slope: real, x: real, y: real) {
    Distance(price(x), price(y)) <= slope * Distance(x, y)
  }

  /** Between the volatilities the search looks at the price moves at most
      `slope` times as far as they do. */
  ghost predicate SlopeAtMost(price: real -> real, slope: real) {
    forall x, y :: InBracket(x) && InBracket(y) ==> MovesWithin(price, slope, x, y)
  }

  lemma ScaleBoth(x: real, y: real, c: real)
    requires x <= y && 0.0 <= c
    ensures x * c <= y * c
  {
    assert 0.0 <= (y - x) * c;
  }

  /** `whole` halved until `scale` of it fit leaves less than the tolerance. */
  lemma SmallMove(slope: real, moved: real, width: real, scale: real, whole: real)
    requires 0.0 <= slope && moved <= width / 2.0 && 0.0 < scale && width * scale == whole
    requires slope * whole < 2.0 * TOLERANCE * scale
    ensures slope * moved < TOLERANCE
  {
    ScaleBoth(moved, width / 2.0, slope);
    assert (slope * width) * scale == slope * (width * scale);
    assert slope * width == (slope * whole) / scale;
    assert (slope * whole) / scale < 2.0 * TOLERANCE by {
      assert (slope * whole) / scale * scale == slope * whole;
    }
    assert slope * (width / 2.0) == (slope * width) / 2.0;
  }

  lemma CloseReprices(price: real -> real, premium: real, slope: real, solution: real, sigma: real)
    requires price(solution) == premium && InBracket(solution) && InBracket(sigma)
    requires SlopeAtMost(price, slope) && slope * Distance(sigma, solution) < TOLERANCE
    ensures Reprices(price, premium, sigma)
  {
    assert MovesWithin(price, slope, sigma, solution);
  }

  lemma SteepnessSuffices(price: real -> real, premium: real, slope: real, solution: real, passes: nat, s: Search)
    requires NeverFalls(price) && Solves(price, premium, solution) && s == Bisect(price, premium, LOW, HIGH, passes)
    requires 0.0 <= slope && SlopeAtMost(price, slope) && slope * (HIGH - LOW) < 2.0 * TOLERANCE * Pow2(passes)
    ensures Reprices(price, premium, Sigma(s))
  {
    RepricesOrIsClose(price, premium, solution, passes, s);
    if Distance(Sigma(s), solution) <= (s.high - s.low) / 2.0 && Halved(s.high - s.low, passes) {
      Pow2IsPositive(passes);
      SmallMove(slope, Distance(Sigma(s), solution), s.high - s.low, Pow2(passes), HIGH - LOW);
      CloseReprices(price, premium, slope, solution, Sigma(s));
    }
  }

  /** Where the premium is a price of the bracket and the price is not absurdly
      steep, the unrounded answer does reprice it. */
  lemma PricesInRangeAreRepriced(price: real -> real, premium: real, slope: real)
    requires NeverFalls(price) && Attains(price) && price(LOW) <= premium <= price(HIGH)
    requires 0.0 <= slope && SlopeAtMost(price, slope) && slope * (HIGH - LOW) < 2.0 * TOLERANCE * Pow2(PASSES)
    ensures Reprices(price, premium, Sigma(FullSearch(price, premium)))
  {
    assert HasSolution(price, premium);
    var solution :| Solves(price, premium, solution);
    SteepnessSuffices(price, premium, slope, solution, PASSES, FullSearch(price, premium));
  }

  lemma {:induction false} Pow2IsPositive(n: nat)
    ensures 0.0 < Pow2(n)
  {
    if n > 0 {
      Pow2IsPositive(n - 1);
    }
  }

  // --- Premiums just past either end -------------------------------------------------

  /** Half of what is left of a bracket after so many halvings. */
  function LastStep(width: real, passes: nat): real
    decreases passes
  {
    if passes == 0 then width / 2.0 else LastStep(width / 2.0, passes - 1)
  }

  lemma {:induction false} LastStepIsSmall(width: real, passes: nat)
    requires 0.0 <= width
    ensures 0.0 <= LastStep(width, passes) <= width / 2.0 && 2.0 * LastStep(width, passes) * Pow2(passes) == width
    decreases passes
  {
    if passes > 0 {
      LastStepIsSmall(width / 2.0, passes - 1);
      assert LastStep(width, passes) * Pow2(passes) == 2.0 * (LastStep(width, passes) * Pow2(passes - 1));
    }
  }

  lemma {:induction false} BelowTheRange(price: real -> real, premium: real, low: real, high: real, passes: nat)
    requires NeverFalls(price) && low <= high && premium <= price(low)
    ensures Reprices(price, premium, Sigma(Bisect(price, premium, low, high, passes)))
            <==> price(low + LastStep(high - low, passes)) - TOLERANCE < premium
    decreases passes
  {
    var mid := Middle(low, high);
    LastStepIsSmall(high - low, passes);
    assert price(low) <= price(low + LastStep(high - low, passes)) <= price(mid);
    if passes > 0 && !Reprices(price, premium, mid) {
      assert mid - low == (high - low) / 2.0;
      BelowTheRange(price, premium, low, mid, passes - 1);
    }
  }

  lemma {:induction false} AboveTheRange(price: real -> real, premium: real, low: real, high: real, passes: nat)
    requires NeverFalls(price) && low <= high && price(high) <= premium
    ensures Reprices(price, premium, Sigma(Bisect(price, premium, low, high, passes)))
            <==> premium < price(high - LastStep(high - low, passes)) + TOLERANCE
    decreases passes
  {
    var mid := Middle(low, high);
    LastStepIsSmall(high - low, passes);
    assert price(mid) <= price(high - LastStep(high - low, passes)) <= price(high);
    if passes > 0 && !Reprices(price, premium, mid) {
      assert high - mid == (high - low) / 2.0;
      AboveTheRange(price, premium, mid, high, passes - 1);
    }
  }

  lemma LastStepMovesLittle(price: real -> real, slope: real, passes: nat, step: real)
    requires NeverFalls(price) && SlopeAtMost(price, slope) && step == LastStep(HIGH - LOW, passes)
    requires 0.0 <= slope && slope * (HIGH - LOW) < 2.0 * TOLERANCE * Pow2(passes)
    ensures 0.0 <= step <= (HIGH - LOW) / 2.0
    ensures price(LOW + step) - TOLERANCE < price(LOW) && price(HIGH) < price(HIGH - step) + TOLERANCE
  {
    LastStepIsSmall(HIGH - LOW, passes);
    Pow2IsPositive(passes);
    SmallMove(slope, step, 2.0 * step, Pow2(passes), HIGH - LOW);
    CloseReprices(price, price(LOW), slope, LOW, LOW + step);
    CloseReprices(price, price(HIGH), slope, HIGH, HIGH - step);
  }

  lemma RepricesIff(price: real -> real, premium: real, slope: real, passes: nat, step: real, s: Search)
    requires NeverFalls(price) && Attains(price) && s == Bisect(price, premium, LOW, HIGH, passes)
    requires SlopeAtMost(price, slope) && step == LastStep(HIGH - LOW, passes)
    requires 0.0 <= slope && slope * (HIGH - LOW) < 2.0 * TOLERANCE * Pow2(passes)
    ensures Reprices(price, premium, Sigma(s))
            <==> price(LOW + step) - TOLERANCE < premium < price(HIGH - step) + TOLERANCE
  {
    LastStepMovesLittle(price, slope, passes, step);
    assert price(LOW) <= price(HIGH);
    if premium < price(LOW) {
      BelowTheRange(price, premium, LOW, HIGH, passes);
    } else if price(HIGH) < premium {
      AboveTheRange(price, premium, LOW, HIGH, passes);
    } else {
      assert HasSolution(price, premium);
      var solution :| Solves(price, premium, solution);
      SteepnessSuffices(price, premium, slope, solution, passes, s);
    }
  }

  /** So the answer itself reprices exactly the premiums less than 0.01 past the
      prices of the two outermost volatilities it can settle on, which lie half
      the final bracket inside the ends. */
  lemma AnswerRepricesIff(price: real -> real, premium: real, slope: real, step: real, s: Search)
    requires NeverFalls(price) && Attains(price) && s == FullSearch(price, premium)
    requires SlopeAtMost(price, slope) && step == LastStep(HIGH - LOW, PASSES)
    requires 0.0 <= slope && slope * (HIGH - LOW) < 2.0 * TOLERANCE * Pow2(PASSES)
    ensures Reprices(price, premium, Sigma(s))
            <==> price(LOW + step) - TOLERANCE < premium < price(HIGH - step) + TOLERANCE
  {
    RepricesIff(price, premium, slope, PASSES, step, s);
  }

  /** The line a week's at-the-money option at 25000 follows to first order. */
  function AtTheMoney(): real -> real {
    (sigma: real) => 1381.0 * sigma
  }

  /** Both ends are met by quotes that pass every guard: five paise is answered
      0.01 % and seven thousand rupees 500 %, and neither reprices. */
  lemma BothEndsAreReached(low: Quote, high: Quote)
    requires low == Quote(0.05, 25000.0, 25000.0, 0.02, 1.0, true) && high == low.(premium := 7000.0)
    ensures NeverFalls(AtTheMoney()) && !Degenerate(low) && !Degenerate(high)
    ensures InHundredths(Sigma(FullSearch(AtTheMoney(), low.premium))) == 1
    ensures InHundredths(Sigma(FullSearch(AtTheMoney(), high.premium))) == 50000
    ensures forall sigma :: LOW <= sigma <= HIGH ==>
              !Reprices(AtTheMoney(), low.premium, sigma) && !Reprices(AtTheMoney(), high.premium, sigma)
  {
    UnderpricedIsAnsweredAtTheFloor(AtTheMoney(), low.premium);
    OverpricedIsAnsweredAtTheCap(AtTheMoney(), high.premium);
  }
}
