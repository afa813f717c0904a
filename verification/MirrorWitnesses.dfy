/** Runs from the empty book that reach what the mirror lookup gets wrong: one
    strategy selling the same strike in two expiries, which the lookup cannot
    tell apart. */
module MirrorWitnesses {
  import opened Wrappers
  import opened Domain
  import opened Ledger
  import opened Books
  import opened SingleOrders
  import opened StrategyExecution
  import opened StrategyMirrors
  import opened StrategySettlement
  import opened OpenMirrors
  import opened Runs
  import Builder
  import Costs
  import DisciplineMode

  const NEAR := LegRow(1, "NIFTY", 7, Some(25000.0), CE, SELL, 1, 65, None, None, PENDING, 0)
  const FAR := NEAR.(id := 2, expiry := 14)
  const CALENDAR := Strategy(0, "NIFTY", true, INTRADAY, "OTHER", Draft, [NEAR, FAR], None)

  /** Both legs are quoted and filled at one rupee. */
  const QUOTES := [Usable(100, 100), Usable(100, 100)]
  const CONDITIONS := ExecutionMarket(true, QUOTES, 100000, false)

  const OPENED: seq<Call> := [OpenAnAccount]
  const SAVED := OPENED + [Save(CALENDAR)]
  const EXECUTED := SAVED + [Execute(0, 0, CONDITIONS)]
  const EXITS := [100, 100]
  const CLOSED_UP := EXECUTED + [CloseAll(0, 0, true, EXITS)]

  lemma RunMore(b: Book, calls: seq<Call>, last: Call)
    ensures Run(b, calls + [last]) == Step(Run(b, calls), last)
  {
    assert (calls + [last])[..|calls|] == calls;
  }

  lemma CalendarIsValid()
    ensures Builder.ValidateStrategy(ToDraft(CALENDAR)).None?
  {
    var d := ToDraft(CALENDAR);
    Builder.ValidateStrategyIff(d);
    assert Builder.GridOf("NIFTY", 50) && Builder.OnGrid(25000.0, 50, 500);
    assert d.legs == [LegToDomain(NEAR), LegToDomain(FAR)];
    assert Builder.LegFits(d.legs[0], "NIFTY") && Builder.LegFits(d.legs[1], "NIFTY");
  }

  lemma SmallBrokerage(action: Action)
    ensures 0 <= BrokerageOn(100, 1, 65, action) <= 3000
  {
    assert 100.0 * (1 * 65) as real == 6500.0;
    Costs.ChargesOnTheOrder(100.0, 1, 65, action, 6500.0, Costs.CalculateBrokerage(100.0, 1, 65, action));
  }

  function CalendarFills(): seq<LegFill> {
    [FillOf(NEAR, 100, 100), FillOf(FAR, 100, 100)]
  }

  lemma CalendarPlan()
    ensures PlanUpTo(CALENDAR.legs, QUOTES, 2).problems == 0
    ensures PlanUpTo(CALENDAR.legs, QUOTES, 2).fills == CalendarFills()
    ensures 0 <= PlanUpTo(CALENDAR.legs, QUOTES, 2).totalBrokerage <= 6000
  {
    SmallBrokerage(SELL);
    assert PlanUpTo(CALENDAR.legs, QUOTES, 0) == Plan([], 0, 0);
    var first := PlanUpTo(CALENDAR.legs, QUOTES, 1);
    assert first.fills == [FillOf(NEAR, 100, 100)] && first.problems == 0;
  }

  lemma CalendarOpens()
    ensures var after := OpenedLegs(CALENDAR.legs, CalendarFills());
            after == [NEAR.(entryPrice := Some(100), status := OPEN), FAR.(entryPrice := Some(100), status := OPEN)]
  {
    LastFillForLeg(CalendarFills(), 0);
    LastFillForLeg(CalendarFills(), 1);
  }

  lemma CalendarMirrors()
    ensures var more := MirrorsOf(CALENDAR, 0, CALENDAR.legs, CalendarFills());
            && |more| == 2
            && OrderKey(more[0]) == OrderKey(more[1])
            && forall o :: 0 <= o < 2 ==> IsOpenMirror(more[o], 0) && more[o].user == 0 && more[o].terms.action == SELL
                                          && more[o].terms.quantity == 1 && more[o].terms.lotSize == 65
                                          && more[o].entryPrice == 100 && more[o].position.NoPosition?
  {
    LastFillForLeg(CalendarFills(), 0);
    LastFillForLeg(CalendarFills(), 1);
    var legs, fills := CALENDAR.legs, CalendarFills();
    assert legs[..2] == legs && legs[..2][..1] == legs[..1] && legs[..1][..0] == [];
    assert MirrorsOf(CALENDAR, 0, [], fills) == [];
    assert legs[..1][0] == NEAR && legs[1] == FAR;
    assert MirrorsOf(CALENDAR, 0, legs[..1], fills) == [MirrorOf(CALENDAR, 0, NEAR, fills[0])];
    assert MirrorsOf(CALENDAR, 0, legs, fills)
        == MirrorsOf(CALENDAR, 0, legs[..1], fills) + [MirrorOf(CALENDAR, 0, FAR, fills[1])];
  }

  /** What the book holds once the strategy is executed. */
  ghost predicate Executed2(b: Book) {
    && |b.accounts| == 1 && b.accounts[0].balance == 9900000
    && |b.strategies| == 1
    && b.strategies[0].user == 0 && b.strategies[0].status.Executed?
    && b.strategies[0].legs == OpenedLegs(CALENDAR.legs, CalendarFills())
    && b.strategies[0].position.Some?
    && b.strategies[0].position.value.marginBlocked == 100000
    && 0 <= b.strategies[0].position.value.brokerage <= 6000
    && b.orders == MirrorsOf(CALENDAR, 0, CALENDAR.legs, CalendarFills())
  }

  lemma OpenedBook() returns (b: Book)
    ensures b == Run(EMPTY_BOOK, OPENED)
    ensures |b.accounts| == 1 && b.accounts[0].balance == 10000000 && b.accounts[0].disciplineOn
    ensures b.pendings == [] && b.orders == [] && b.strategies == []
  {
    b := Run(EMPTY_BOOK, OPENED);
    assert OPENED == [] + [OpenAnAccount];
    RunMore(EMPTY_BOOK, [], OpenAnAccount);
    assert DisciplineMode.OpenAccount(EMPTY_BOOK).Ok?;
  }

  lemma SavedBook() returns (b: Book)
    ensures b == Run(EMPTY_BOOK, SAVED)
    ensures |b.accounts| == 1 && b.accounts[0].balance == 10000000
    ensures b.orders == [] && b.strategies == [CALENDAR]
  {
    var b0 := OpenedBook();
    RunMore(EMPTY_BOOK, OPENED, Save(CALENDAR));
    b := Run(EMPTY_BOOK, SAVED);
  }

  lemma ExecutedBook() returns (b: Book)
    ensures b == Run(EMPTY_BOOK, EXECUTED) && Executed2(b)
  {
    var b0 := SavedBook();
    RunMore(EMPTY_BOOK, SAVED, Execute(0, 0, CONDITIONS));
    b := Run(EMPTY_BOOK, EXECUTED);
    CalendarIsValid();
    CalendarPlan();
    var done := ExecuteStrategy(b0, 0, 0, CONDITIONS);
    assert done.Ok?;
    var more := MirrorsOf(CALENDAR, 0, CALENDAR.legs, CalendarFills());
    assert [] + more == more;
  }

  // --- A mirror outlives the square-off ------------------------------------------

  lemma LegExitIsBrokerage(row: LegRow)
    requires row.entryPrice == Some(100) && row.lots == 1 && row.lotSize == 65 && row.action == SELL
    ensures -3000 <= LegPnl(row, 100) <= 0
  {
    SmallBrokerage(BUY);
  }

  lemma CalendarRealizes(b: Book)
    requires Executed2(b)
    ensures -6000 <= RealizedOf(ClosedLegs(b.strategies[0].legs, EXITS)) <= 0
  {
    CalendarOpens();
    var legs := b.strategies[0].legs;
    var closed := ClosedLegs(legs, EXITS);
    LegExitIsBrokerage(legs[0]);
    LegExitIsBrokerage(legs[1]);
    assert closed == [ClosedLeg(legs[0], 100), ClosedLeg(legs[1], 100)];
    assert closed[..1] == [ClosedLeg(legs[0], 100)] && closed[..1][..0] == [];
    assert RealizedOf(closed[..1]) == LegPnl(legs[0], 100);
  }

  lemma SquaresOff(b: Book, after: Book)
    requires Inv(b) && after == Step(b, CloseAll(0, 0, true, EXITS))
    requires Ready(b, 0, 0) && CanAfford(b, 0, 0, EXITS)
    ensures SquareOff(b, 0, 0, true, EXITS) == Ok(after) && after == RunCloses(b, 0, 0, [All(true)], EXITS)
    ensures 0 < |after.strategies| && after.strategies[0].status.SquaredOff?
  {
    assert [] + [All(true)] == [All(true)] && [All(true)][1..] == [];
    assert RunCloses(b, 0, 0, [All(true)], EXITS) == CloseStep(b, 0, 0, All(true), EXITS);
    SquareOffClosesIff(b, 0, 0, [], EXITS, after);
  }

  /** Two expiries at one strike: the square-off succeeds, the strategy is
      closed, and a mirror of it stays open for good. */
  lemma CalendarLeavesAMirrorOpen()
    ensures var after := Run(EMPTY_BOOK, CLOSED_UP);
            && |after.strategies| == 1 && after.strategies[0].status.SquaredOff?
            && !NoneOpen(after.orders, 0)
  {
    var b := ExecutedBook();
    RunKeeps(EMPTY_BOOK, EXECUTED);
    InvMakesReady(b, 0, 0);
    CalendarRealizes(b);
    RunMore(EMPTY_BOOK, EXECUTED, CloseAll(0, 0, true, EXITS));
    var after := Run(EMPTY_BOOK, CLOSED_UP);
    SquaresOff(b, after);
    CalendarMirrors();
    assert !OpenKeysDistinct(b.orders, 0);
    SquareOffClosesEveryMirrorIff(EXECUTED, b, 0, 0, EXITS, after);
    SettlementIsScheduleIndependent(b, 0, 0, [All(true)], EXITS, after);
  }

  // --- A mirror is paid twice --------------------------------------------------------

  const ALONE := CloseMarket(0, 0, true, 200, MANUAL)
  const CLOSED_ALONE := EXECUTED + [ALONE]
  const PAID_TWICE := CLOSED_ALONE + [CloseAll(0, 0, true, EXITS)]

  lemma LoneLoss(o: Order)
    requires o.terms.action == SELL && o.terms.quantity == 1 && o.terms.lotSize == 65 && o.entryPrice == 100
    ensures -10000 <= OrderNetPnl(o, 200) < 0
  {
    assert 200 as real * 1 as real * 65 as real == 13000.0;
    assert Costs.OnTurnover(13000.0, BUY).total <= 3000;
    Costs.BrokerageFloor(200 as real, 1, 65, BUY);
  }

  lemma LoneClose(b: Book, b0: Book)
    requires Inv(b) && Executed2(b) && b0 == Step(b, ALONE)
    ensures CloseOrder(b, 0, 0, true, 200, MANUAL) == Ok(b0) && b0.strategies == b.strategies
    ensures |b0.accounts| == 1 && 9890000 <= b0.accounts[0].balance
    ensures 0 < |b.orders| && OrderNetPnl(b.orders[0], 200) < 0 && b.orders[0].strategy == Some(0)
  {
    CalendarMirrors();
    LoneLoss(b.orders[0]);
    CloseOrderPossibleIff(b, 0, 0, true, 200, MANUAL);
  }

  /** Two runs that differ in one call, the closing of a mirror by itself: both
      end with the strategy squared off, and that leg's P&L is paid once in one
      and twice in the other. */
  lemma DoublePaymentIsReachable()
    ensures var once, twice, mirror := Run(EMPTY_BOOK, CLOSED_UP), Run(EMPTY_BOOK, PAID_TWICE), Run(EMPTY_BOOK, EXECUTED).orders;
            && |once.strategies| == 1 && once.strategies[0].status.SquaredOff?
            && |twice.strategies| == 1 && twice.strategies[0].status.SquaredOff?
            && 0 < |mirror| && OrderNetPnl(mirror[0], 200) < 0
            && |once.accounts| == 1 && |twice.accounts| == 1
            && twice.accounts[0].balance == once.accounts[0].balance + OrderNetPnl(mirror[0], 200)
  {
    var b := ExecutedBook();
    RunKeeps(EMPTY_BOOK, EXECUTED);
    RunMore(EMPTY_BOOK, EXECUTED, ALONE);
    var b0 := Run(EMPTY_BOOK, CLOSED_ALONE);
    LoneClose(b, b0);
    RunKeeps(EMPTY_BOOK, CLOSED_ALONE);
    RunMore(EMPTY_BOOK, EXECUTED, CloseAll(0, 0, true, EXITS));
    RunMore(EMPTY_BOOK, CLOSED_ALONE, CloseAll(0, 0, true, EXITS));
    PaidTwice(b, b0, Run(EMPTY_BOOK, CLOSED_UP), Run(EMPTY_BOOK, PAID_TWICE));
  }

  lemma PaidTwice(b: Book, b0: Book, once: Book, twice: Book)
    requires Inv(b) && Executed2(b) && Inv(b0) && b0.strategies == b.strategies
    requires |b0.accounts| == 1 && 9890000 <= b0.accounts[0].balance
    requires 0 < |b.orders| && b.orders[0].strategy == Some(0) && CloseOrder(b, 0, 0, true, 200, MANUAL) == Ok(b0)
    requires once == Step(b, CloseAll(0, 0, true, EXITS)) && twice == Step(b0, CloseAll(0, 0, true, EXITS))
    ensures |once.strategies| == 1 && once.strategies[0].status.SquaredOff?
    ensures |twice.strategies| == 1 && twice.strategies[0].status.SquaredOff?
    ensures |once.accounts| == 1 && |twice.accounts| == 1
    ensures twice.accounts[0].balance == once.accounts[0].balance + OrderNetPnl(b.orders[0], 200)
  {
    CalendarRealizes(b);
    InvMakesReady(b, 0, 0);
    InvMakesReady(b0, 0, 0);
    SquaresOff(b, once);
    SquaresOff(b0, twice);
    DoublePaymentIsTheMirrorsPnl(b, 0, 0, 0, 200, MANUAL, b0, [All(true)], EXITS, twice, once);
  }
}
