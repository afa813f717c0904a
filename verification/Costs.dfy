/** Trading costs: brokerage_calculator.py and slippage_engine.py, in paise. */
module Costs {
  import opened Domain
  import opened Rounding

  // --- Brokerage ---------------------------------------------------------

  const FLAT_BROKERAGE := 2000
  const STT_RATE := 0.0005
  const EXCHANGE_RATE := 0.00053
  const SEBI_PER_CRORE := 10.0
  const CRORE := 10000000.0
  const GST_RATE := 0.18

  datatype Breakdown = Breakdown(flat: int, stt: int, exchange: int, sebi: int, gst: int, total: int)

  /** `price` is the fill premium in paise; every component is a whole paisa. */
  function CalculateBrokerage(price: real, quantity: int, lotSize: int, action: Action): Breakdown {
    OnTurnover(price * quantity as real * lotSize as real, action)
  }

  function OnTurnover(turnover: real, action: Action): Breakdown {
    var stt := if action == SELL then HalfUp(turnover * STT_RATE) else 0;
    var exchange := HalfUp(turnover * EXCHANGE_RATE);
    var sebi := HalfUp(turnover / CRORE * SEBI_PER_CRORE);
    var gst := HalfUp((FLAT_BROKERAGE + exchange) as real * GST_RATE);
    Breakdown(FLAT_BROKERAGE, stt, exchange, sebi, gst, FLAT_BROKERAGE + stt + exchange + sebi + gst)
  }

  /** The whole paisa nearest to an amount, ties away from nothing. */
  ghost predicate NearestPaisa(n: int, x: real) {
    if 0.0 <= x then n as real - 0.5 <= x < n as real + 0.5 else n as real - 0.5 < x <= n as real + 0.5
  }

  lemma HalfUpIsNearest(x: real)
    ensures NearestPaisa(HalfUp(x), x)
  {
  }

  /** Rs 20; 0.05 % STT on a sale only; 0.053 % to the exchange; Rs 10 a crore to
      SEBI; 18 % GST on the first and third. */
  ghost predicate Charges(c: Breakdown, turnover: real, action: Action) {
    && c.flat == 2000
    && (if action == SELL then NearestPaisa(c.stt, turnover * 0.0005) else c.stt == 0)
    && NearestPaisa(c.exchange, turnover * 0.00053)
    && NearestPaisa(c.sebi, turnover * 0.000001)
    && NearestPaisa(c.gst, (2000 + c.exchange) as real * 0.18)
    && c.total == c.flat + c.stt + c.exchange + c.sebi + c.gst
  }

  lemma ChargesOnTurnover(turnover: real, action: Action)
    ensures Charges(OnTurnover(turnover, action), turnover, action)
  {
    var c := OnTurnover(turnover, action);
    HalfUpIsNearest(turnover * 0.0005);
    HalfUpIsNearest(turnover * 0.00053);
    HalfUpIsNearest(turnover * 0.000001);
    HalfUpIsNearest((2000 + c.exchange) as real * 0.18);
    assert turnover / CRORE * SEBI_PER_CRORE == turnover * 0.000001;
  }

  lemma UnitsMakeTheTurnover(price: real, quantity: int, lotSize: int, turnover: real, action: Action)
    requires turnover == price * (quantity * lotSize) as real
    ensures CalculateBrokerage(price, quantity, lotSize, action) == OnTurnover(turnover, action)
  {
    assert (quantity * lotSize) as real == quantity as real * lotSize as real;
    assert price * quantity as real * lotSize as real == turnover;
  }

  /** An order's turnover is its price for every unit of every lot, and these are
      its charges: Rs 23.60 and a fixed share of the turnover, to within the 2.09
      paise that four roundings can come to. */
  lemma ChargesOnTheOrder(price: real, quantity: int, lotSize: int, action: Action, turnover: real, c: Breakdown)
    requires turnover == price * (quantity * lotSize) as real && c == CalculateBrokerage(price, quantity, lotSize, action)
    ensures Charges(c, turnover, action)
    ensures -2.09 <= c.total as real - 2360.0 - turnover * (if action == SELL then 0.0011264 else 0.0006264) <= 2.09
  {
    UnitsMakeTheTurnover(price, quantity, lotSize, turnover, action);
    ChargesOnTurnover(turnover, action);
    ChargesFollow(c, turnover, action);
  }

  lemma ChargesFollow(c: Breakdown, turnover: real, action: Action)
    requires Charges(c, turnover, action)
    ensures -2.09 <= c.total as real - 2360.0 - turnover * (if action == SELL then 0.0011264 else 0.0006264) <= 2.09
  {
  }

  /** What both sides of a long trade are charged. */
  function RoundTripBrokerage(entry: real, exit: real, quantity: int, lotSize: int): int {
    CalculateBrokerage(entry, quantity, lotSize, BUY).total + CalculateBrokerage(exit, quantity, lotSize, SELL).total
  }
  /** The least two orders can cost over the one they were split from: the
      second flat fee and its GST, less what the roundings can give back. */
  function SplitPenalty(action: Action): int {
    if action == SELL then 2356 else 2357
  }

  lemma SplitTurnoverCostsMore(t1: real, t2: real, action: Action)
    requires 0.0 <= t1 && 0.0 <= t2
    ensures OnTurnover(t1, action).total + OnTurnover(t2, action).total
            >= OnTurnover(t1 + t2, action).total + SplitPenalty(action)
  {
    var a, b, c := OnTurnover(t1, action), OnTurnover(t2, action), OnTurnover(t1 + t2, action);
    assert (t1 + t2) * EXCHANGE_RATE == t1 * EXCHANGE_RATE + t2 * EXCHANGE_RATE;
    assert a.exchange + b.exchange >= c.exchange - 1;
    assert (t1 + t2) / CRORE * SEBI_PER_CRORE == t1 / CRORE * SEBI_PER_CRORE + t2 / CRORE * SEBI_PER_CRORE;
    assert a.sebi + b.sebi >= c.sebi - 1;
    assert (t1 + t2) * STT_RATE == t1 * STT_RATE + t2 * STT_RATE;
    assert a.stt + b.stt >= c.stt - (if action == SELL then 1 else 0);
    assert a.gst + b.gst >= c.gst + 359;
  }

  /** Splitting an order in two always costs at least Rs 23.56 (sell) or
      Rs 23.57 (buy) more brokerage, whatever the five roundings do. */
  lemma SplittingCostsMore(price: real, q1: int, q2: int, lotSize: int, action: Action)
    requires 0.0 <= price && 0 <= q1 && 0 <= q2 && 0 <= lotSize
    ensures CalculateBrokerage(price, q1, lotSize, action).total + CalculateBrokerage(price, q2, lotSize, action).total
            >= CalculateBrokerage(price, q1 + q2, lotSize, action).total + SplitPenalty(action)
  {
    var t1, t2 := price * q1 as real * lotSize as real, price * q2 as real * lotSize as real;
    assert price * (q1 + q2) as real == price * q1 as real + price * q2 as real;
    assert price * (q1 + q2) as real * lotSize as real == t1 + t2;
    assert 0.0 <= price * q1 as real && 0.0 <= price * q2 as real;
    SplitTurnoverCostsMore(t1, t2, action);
  }

  /** No larger penalty would hold: two one-lot NIFTY orders meet it exactly. */
  lemma SplitPenaltyIsTight()
    ensures OnTurnover(3930.0 * 65.0, BUY).total + OnTurnover(3930.0 * 65.0, BUY).total
            == OnTurnover(3930.0 * 130.0, BUY).total + SplitPenalty(BUY)
    ensures OnTurnover(4075.0 * 65.0, SELL).total + OnTurnover(4075.0 * 65.0, SELL).total
            == OnTurnover(4075.0 * 130.0, SELL).total + SplitPenalty(SELL)
  {
    assert OnTurnover(255450.0, BUY).total == 2519;
    assert OnTurnover(510900.0, BUY).total == 2681;
    assert OnTurnover(264875.0, SELL).total == 2657;
    assert OnTurnover(529750.0, SELL).total == 2958;
  }

  // --- Slippage ----------------------------------------------------------

  /** The least a sell fills at, the exchange's tick. */
  const TICK := 5
  const LIQUID_STRIKE_DISTANCE := 5

  predicate Liquid(strike: int, atm: int, interval: int)
    requires 0 < interval
  {
    var distance := if strike < atm then atm - strike else strike - atm;
    distance / interval <= LIQUID_STRIKE_DISTANCE
  }

  /** The band the random draw comes from. */
  predicate InBand(draw: real, liquid: bool) {
    if liquid then 0.005 <= draw <= 0.015 else 0.020 <= draw <= 0.040
  }

  datatype Slipped = Slipped(fill: int, points: int)

  /** A sell is lowered by the points, but not below one tick. */
  function Lowered(ltp: real, points: int): real {
    if ltp - points as real < TICK as real then TICK as real else ltp - points as real
  }

  /** quantize(Decimal("0.05")) takes only the exponent of its argument, so
      points and fills are whole paise, not ticks. */
  function CalculateSlippage(ltp: real, action: Action, draw: real): Slipped {
    var points := HalfUp(ltp * draw);
    if action == BUY then Slipped(HalfUp(ltp + points as real), points)
    else Slipped(HalfUp(Lowered(ltp, points)), points)
  }

  /** The slippage is the drawn share of the quote, and the fill the quote moved
      by it against the trader, a sale never below a tick; all in whole paise. */
  lemma SlippageIsTheDraw(ltp: real, action: Action, draw: real)
    ensures var slipped := CalculateSlippage(ltp, action, draw);
            && NearestPaisa(slipped.points, ltp * draw)
            && (action == BUY ==> NearestPaisa(slipped.fill, ltp + slipped.points as real))
            && (action != BUY ==> NearestPaisa(slipped.fill, if ltp - slipped.points as real < 5.0 then 5.0 else ltp - slipped.points as real))
  {
    var points := HalfUp(ltp * draw);
    HalfUpIsNearest(ltp * draw);
    HalfUpIsNearest(ltp + points as real);
    HalfUpIsNearest(Lowered(ltp, points));
  }

  lemma NearestInBand(n: int, x: real, least: real, most: real)
    requires NearestPaisa(n, x) && least <= x <= most
    ensures least - 0.5 <= n as real <= most + 0.5
  {
  }

  lemma DrawnShare(ltp: real, least: real, draw: real, most: real, points: int)
    requires 0.0 <= ltp && least <= draw <= most && NearestPaisa(points, ltp * draw)
    ensures ltp * least - 0.5 <= points as real <= ltp * most + 0.5
  {
    SharesOfAQuote(ltp, least, draw, most);
    NearestInBand(points, ltp * draw, ltp * least, ltp * most);
  }

  lemma LiquidIff(strike: int, atm: int, interval: int)
    requires 0 < interval
    ensures Liquid(strike, atm, interval) <==> -6 * interval < strike - atm < 6 * interval
  {
    WithinFive(if strike < atm then atm - strike else strike - atm, interval);
  }

  /** The draw is from 0.5 % to 1.5 % within five intervals of the money, and from
      2 % to 4 % further out. */
  lemma DrawnFromIff(strike: int, atm: int, interval: int, draw: real)
    requires 0 < interval
    ensures InBand(draw, Liquid(strike, atm, interval))
            <==> if -6 * interval < strike - atm < 6 * interval then 0.005 <= draw <= 0.015 else 0.02 <= draw <= 0.04
  {
    LiquidIff(strike, atm, interval);
  }

  /** Within five intervals of the money that share is from 0.5 % to 1.5 % of the
      quote, further out from 2 % to 4 %. */
  lemma SlippageFollowsTheBand(ltp: real, strike: int, atm: int, interval: int, action: Action, draw: real)
    requires 0.0 <= ltp && 0 < interval && InBand(draw, Liquid(strike, atm, interval))
    ensures var points := CalculateSlippage(ltp, action, draw).points as real;
            if -6 * interval < strike - atm < 6 * interval then ltp * 0.005 - 0.5 <= points <= ltp * 0.015 + 0.5
            else ltp * 0.02 - 0.5 <= points <= ltp * 0.04 + 0.5
  {
    LiquidIff(strike, atm, interval);
    SlippageIsTheDraw(ltp, action, draw);
    var points := CalculateSlippage(ltp, action, draw).points;
    if Liquid(strike, atm, interval) {
      DrawnShare(ltp, 0.005, draw, 0.015, points);
    } else {
      DrawnShare(ltp, 0.02, draw, 0.04, points);
    }
  }

  lemma WithinFive(distance: int, interval: int)
    requires 0 <= distance && 0 < interval
    ensures distance / interval <= 5 <==> distance < 6 * interval
  {
    WholeIntervals(distance, interval, distance / interval, distance % interval);
  }

  lemma WholeIntervals(distance: int, interval: int, n: int, rest: int)
    requires distance == interval * n + rest && 0 <= rest < interval
    ensures n <= 5 <==> distance < 6 * interval
  {
    if n <= 5 {
      assert 0 <= interval * (5 - n);
    } else {
      assert 0 <= interval * (n - 6);
    }
  }

  lemma SharesOfAQuote(ltp: real, least: real, draw: real, most: real)
    requires 0.0 <= ltp && least <= draw <= most
    ensures ltp * least <= ltp * draw <= ltp * most
  {
    assert 0.0 <= ltp * (draw - least) && 0.0 <= ltp * (most - draw);
  }

  lemma PointsAreNotNegative(ltp: real, draw: real)
    requires 0.0 <= ltp && 0.0 <= draw
    ensures 0 <= HalfUp(ltp * draw)
  {
    HalfUpMonotone(0.0, ltp * draw);
  }

  /** Bought and sold at one unchanged quote, whatever the draws, an order never
      comes out ahead before brokerage exactly when the quote is at least 4.5
      paise, which is one tick if quotes are whole paise. Below that the buy
      pays under a tick while the sell is lifted to one. */
  lemma RoundTripNeverProfitsIff(ltp: real, strike: int, atm: int, interval: int, buyDraw: real, sellDraw: real)
    requires 0.0 < ltp && 0 < interval
    requires InBand(buyDraw, Liquid(strike, atm, interval)) && InBand(sellDraw, Liquid(strike, atm, interval))
    ensures CalculateSlippage(ltp, SELL, sellDraw).fill <= CalculateSlippage(ltp, BUY, buyDraw).fill <==> 4.5 <= ltp
  {
    if 4.5 <= ltp {
      BuyFillIsAtLeast(ltp, buyDraw);
      SellFillIsAtMost(ltp, sellDraw);
    } else {
      BuyFillIsUnderATick(ltp, buyDraw);
      SellFillIsATickOrMore(ltp, sellDraw);
    }
  }

  lemma BuyFillIsAtLeast(ltp: real, draw: real)
    requires 0.0 <= ltp && 0.0 <= draw
    ensures HalfUp(ltp) <= CalculateSlippage(ltp, BUY, draw).fill
  {
    PointsAreNotNegative(ltp, draw);
    HalfUpMonotone(ltp, ltp + HalfUp(ltp * draw) as real);
  }

  lemma SellFillIsAtMost(ltp: real, draw: real)
    requires 4.5 <= ltp && 0.0 <= draw
    ensures CalculateSlippage(ltp, SELL, draw).fill <= HalfUp(ltp)
  {
    PointsAreNotNegative(ltp, draw);
    HalfUpMonotone(4.5, ltp);
    HalfUpMonotone(ltp - HalfUp(ltp * draw) as real, ltp);
  }

  lemma BuyFillIsUnderATick(ltp: real, draw: real)
    requires 0.0 < ltp < 4.5 && 0.0 <= draw <= 0.04
    ensures CalculateSlippage(ltp, BUY, draw).fill < TICK
  {
    assert 0.0 <= ltp * draw <= ltp * 0.04;
    assert HalfUp(ltp * draw) == 0;
  }

  lemma SellFillIsATickOrMore(ltp: real, draw: real)
    ensures TICK <= CalculateSlippage(ltp, SELL, draw).fill
  {
    HalfUpMonotone(TICK as real, Lowered(ltp, HalfUp(ltp * draw)));
  }

  lemma WholeMoves(ltp: int, points: int)
    requires 0 <= ltp && 0 <= points
    ensures HalfUp(ltp as real + points as real) == ltp + points
    ensures HalfUp(Lowered(ltp as real, points)) == if ltp - points < TICK then TICK else ltp - points
  {
    assert ltp as real + points as real == (ltp + points) as real;
    assert ltp as real - points as real == (ltp - points) as real;
  }

  /** Whole ticks of five paise. */
  predicate OnTheGrid(n: int) {
    n % TICK == 0
  }

  lemma GridMoves(ltp: int, points: int)
    requires OnTheGrid(ltp)
    ensures OnTheGrid(ltp + points) <==> OnTheGrid(points)
  {
  }

  /** Quoted in whole paise, a fill is the quote moved by the points and no
      further; so it leaves the tick grid whenever the points are not ticks. */
  lemma WholeQuotesFillExactly(ltp: int, draw: real)
    requires 0 <= ltp && 0.0 <= draw
    ensures var bought, sold := CalculateSlippage(ltp as real, BUY, draw), CalculateSlippage(ltp as real, SELL, draw);
            && bought.fill == ltp + bought.points
            && sold.fill == (if ltp - sold.points < TICK then TICK else ltp - sold.points)
            && (OnTheGrid(ltp) ==> (OnTheGrid(bought.fill) <==> OnTheGrid(bought.points)))
  {
    var points := HalfUp(ltp as real * draw);
    PointsAreNotNegative(ltp as real, draw);
    WholeMoves(ltp, points);
    if OnTheGrid(ltp) {
      GridMoves(ltp, points);
    }
  }

  /** Quoted exactly at its limit, a buy stays within it only while the slippage
      rounds to nothing. */
  lemma BuyAtTheLimitStaysIff(limit: int, draw: real)
    requires 0 <= limit && 0.0 <= draw
    ensures CalculateSlippage(limit as real, BUY, draw).fill <= limit <==> limit as real * draw < 0.5
  {
    WholeQuotesFillExactly(limit, draw);
    ProductIsNotNegative(limit as real, draw);
    SlippageVanishesIff(limit as real * draw);
  }

  lemma ProductIsNotNegative(x: real, y: real)
    requires 0.0 <= x && 0.0 <= y
    ensures 0.0 <= x * y
  {
  }

  lemma SlippageVanishesIff(x: real)
    requires 0.0 <= x
    ensures HalfUp(x) <= 0 <==> x < 0.5
  {
  }

  /** With a quote of at least 4.5 paise, which any premium on the exchange grid
      is, the round trip loses at least both brokerages, and those are at least
      Rs 47.20. */
  lemma RoundTripLosesBothBrokerages(ltp: real, strike: int, atm: int, interval: int, buyDraw: real, sellDraw: real,
                                     quantity: int, lotSize: int)
    requires 4.5 <= ltp && 0 < interval && 0 < quantity && 0 < lotSize
    requires InBand(buyDraw, Liquid(strike, atm, interval)) && InBand(sellDraw, Liquid(strike, atm, interval))
    ensures var entry, exit := CalculateSlippage(ltp, BUY, buyDraw).fill, CalculateSlippage(ltp, SELL, sellDraw).fill;
            var charged := RoundTripBrokerage(entry as real, exit as real, quantity, lotSize);
            && charged == CalculateBrokerage(entry as real, quantity, lotSize, BUY).total
                          + CalculateBrokerage(exit as real, quantity, lotSize, SELL).total
            && (exit - entry) * (quantity * lotSize) - charged <= -charged <= -4720
  {
    RoundTripNeverProfitsIff(ltp, strike, atm, interval, buyDraw, sellDraw);
    var entry := CalculateSlippage(ltp, BUY, buyDraw).fill;
    var exit := CalculateSlippage(ltp, SELL, sellDraw).fill;
    FillIsNotNegative(ltp, BUY, buyDraw);
    FillIsNotNegative(ltp, SELL, sellDraw);
    LossTimesUnits(entry - exit, quantity, lotSize);
    assert (exit - entry) * (quantity * lotSize) == -((entry - exit) * (quantity * lotSize));
    BrokerageFloor(entry as real, quantity, lotSize, BUY);
    BrokerageFloor(exit as real, quantity, lotSize, SELL);
  }

  lemma LossTimesUnits(loss: int, quantity: int, lotSize: int)
    requires 0 <= loss && 0 <= quantity && 0 <= lotSize
    ensures 0 <= loss * (quantity * lotSize)
  {
    assert 0 <= quantity * lotSize;
  }

  lemma FillIsNotNegative(ltp: real, action: Action, draw: real)
    requires 0.0 <= ltp && 0.0 <= draw
    ensures 0 <= CalculateSlippage(ltp, action, draw).fill
  {
    if action == BUY {
      PointsAreNotNegative(ltp, draw);
      HalfUpMonotone(0.0, ltp + HalfUp(ltp * draw) as real);
    } else {
      HalfUpMonotone(0.0, Lowered(ltp, HalfUp(ltp * draw)));
    }
  }

  lemma BrokerageFloor(price: real, quantity: int, lotSize: int, action: Action)
    requires 0.0 <= price && 0 <= quantity && 0 <= lotSize
    ensures CalculateBrokerage(price, quantity, lotSize, action).total >= 2360
  {
    var turnover := price * quantity as real * lotSize as real;
    assert 0.0 <= price * quantity as real;
    assert 0.0 <= turnover;
    HalfUpMonotone(0.0, turnover * EXCHANGE_RATE);
    HalfUpMonotone(0.0, turnover / CRORE * SEBI_PER_CRORE);
    HalfUpMonotone(0.0, turnover * STT_RATE);
    HalfUpMonotone(360.0, (FLAT_BROKERAGE + OnTurnover(turnover, action).exchange) as real * GST_RATE);
  }
}
