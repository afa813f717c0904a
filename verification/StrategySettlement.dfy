/** Closing an executed strategy in any order: legs one by one, all together,
    or a mixture, with refused calls in between. */
module StrategySettlement {
  import opened Wrappers
  import opened Domain
  import opened Ledger
  import opened Books
  import opened StrategyExecution
  import SingleOrders

  datatype Close = One(legId: nat, marketOpen: bool) | All(marketOpen: bool)

  /** A call that raises is rolled back. `exits` fixes the fill of every leg. */
  function CloseCall(b: Book, user: nat, i: nat, c: Close, exits: seq<int>): Outcome<Book> {
    match c
    case One(legId, open) =>
      var exit := if i < |b.strategies| then ExitOf(exits, LegIndex(b.strategies[i].legs, legId)) else 0;
      CloseLeg(b, user, i, legId, open, exit)
    case All(open) => SquareOff(b, user, i, open, exits)
  }

  function CloseStep(b: Book, user: nat, i: nat, c: Close, exits: seq<int>): Book {
    match CloseCall(b, user, i, c, exits)
    case Ok(after) => after
    case Raise(_) => b
  }

  function RunCloses(b: Book, user: nat, i: nat, closes: seq<Close>, exits: seq<int>): Book
    decreases |closes|
  {
    if closes == [] then b else RunCloses(CloseStep(b, user, i, closes[0], exits), user, i, closes[1..], exits)
  }

  function SettledAccounts(accounts: seq<Account>, user: nat, i: nat, margin: int, net: int): Outcome<seq<Account>> {
    match PostExit(Book(accounts, [], [], []), user, STRATEGY_POSITION(i), margin, net)
    case Ok(b) => Ok(b.accounts)
    case Raise(error) => Raise(error)
  }

  lemma ExitDependsOnAccounts(b: Book, user: nat, i: nat, margin: int, net: int)
    ensures SettledAccounts(b.accounts, user, i, margin, net)
            == match PostExit(b, user, STRATEGY_POSITION(i), margin, net)
               case Ok(after) => Ok(after.accounts)
               case Raise(error) => Raise(error)
  {
  }

  /** An executed strategy with something left to close, as the invariant of
      the money machine leaves it. */
  ghost predicate Ready(b: Book, user: nat, i: nat) {
    && user < |b.accounts| && i < |b.strategies| && b.strategies[i].user == user
    && 0 <= b.accounts[user].balance
    && var s := b.strategies[i];
       && s.status.Executed? && s.position.Some? && s.position.value.isOpen
       && 0 < s.position.value.marginBlocked && s.position.value.realizedPnl == RealizedOf(s.legs)
       && AnyOpen(s.legs) && (forall l :: l in s.legs ==> l.status != PENDING)
  }

  lemma InvMakesReady(b: Book, user: nat, i: nat)
    requires Inv(b) && i < |b.strategies| && b.strategies[i].user == user && b.strategies[i].status.Executed?
    ensures Ready(b, user, i)
  {
    Conservation(b, user);
    assert TrailOk(b, user, STRATEGY_POSITION(i));
  }

  ghost predicate LegsAdvance(before: seq<LegRow>, after: seq<LegRow>, exits: seq<int>) {
    |after| == |before| && forall k :: 0 <= k < |before| ==>
      after[k] == before[k] || (before[k].status == OPEN && after[k] == ClosedLeg(before[k], ExitOf(exits, k)))
  }

  function NetOf(s: Strategy): int
    requires s.position.Some?
  {
    RealizedOf(s.legs) - s.position.value.brokerage
  }

  /** How far closing strategy `i` has come since `b0`: no money moves until
      the last leg, and then exactly the settlement of `b0`'s own position. */
  ghost predicate Progress(b0: Book, b: Book, user: nat, i: nat, exits: seq<int>)
    requires Ready(b0, user, i)
  {
    && i < |b.strategies|
    && var s0, s := b0.strategies[i], b.strategies[i];
       var p0 := s0.position.value;
       && b == b0.(accounts := b.accounts, orders := b.orders, strategies := b0.strategies[i := s])
       && s == s0.(legs := s.legs, status := s.status, position := s.position)
       && LegsAdvance(s0.legs, s.legs, exits)
       && s.position == Some(p0.(realizedPnl := RealizedOf(s.legs), isOpen := s.status.Executed?))
       && (match s.status
           case Draft => false
           case Executed => AnyOpen(s.legs) && b.accounts == b0.accounts
           case SquaredOff =>
             !AnyOpen(s.legs) && SettledAccounts(b0.accounts, user, i, p0.marginBlocked, NetOf(s)) == Ok(b.accounts))
  }

  /** `s` is strategy `i` of `b` with more legs closed and their P&L booked. */
  ghost predicate FurtherClosed(b0: Book, b: Book, i: nat, exits: seq<int>, s: Strategy) {
    && i < |b.strategies| && i < |b0.strategies| && b.strategies[i].position.Some? && b.strategies[i].status.Executed?
    && LegsAdvance(b0.strategies[i].legs, s.legs, exits)
    && s == b.strategies[i].(legs := s.legs, position := Some(b.strategies[i].position.value.(realizedPnl := RealizedOf(s.legs))))
  }

  lemma PauseProgress(b0: Book, b: Book, user: nat, i: nat, exits: seq<int>, s: Strategy, orders: seq<Order>, after: Book)
    requires Ready(b0, user, i) && Progress(b0, b, user, i, exits) && FurtherClosed(b0, b, i, exits, s)
    requires AnyOpen(s.legs) && after == Advanced(b, i, s, orders)
    ensures Progress(b0, after, user, i, exits)
  {
    assert b0.strategies[i := b.strategies[i]][i := s] == b0.strategies[i := s];
  }

  lemma SettledShape(b0: Book, b: Book, user: nat, i: nat, exits: seq<int>, s: Strategy)
    requires Ready(b0, user, i) && Progress(b0, b, user, i, exits) && FurtherClosed(b0, b, i, exits, s)
    ensures SettledForm(b0.strategies[i], Settled(s)) && b.accounts == b0.accounts && s.user == user
    ensures Settled(s).legs == s.legs && LegsAdvance(b0.strategies[i].legs, s.legs, exits)
    ensures b == b0.(orders := b.orders, strategies := b0.strategies[i := b.strategies[i]])
    ensures s.position.value.marginBlocked == b0.strategies[i].position.value.marginBlocked
    ensures s.position.value.realizedPnl - s.position.value.brokerage == NetOf(Settled(s))
  {
  }

  /** Squared off: nothing changed but the legs, and the position is closed with
      their P&L. */
  ghost predicate SettledForm(s0: Strategy, done: Strategy) {
    && s0.position.Some?
    && done == s0.(legs := done.legs, status := SquaredOff,
                   position := Some(s0.position.value.(realizedPnl := RealizedOf(done.legs), isOpen := false)))
  }

  lemma SettleProgress(b0: Book, b: Book, user: nat, i: nat, exits: seq<int>, done: Strategy, orders: seq<Order>,
                       margin: int, net: int, after: Book)
    requires Ready(b0, user, i) && SettledForm(b0.strategies[i], done)
    requires LegsAdvance(b0.strategies[i].legs, done.legs, exits) && !AnyOpen(done.legs)
    requires margin == b0.strategies[i].position.value.marginBlocked && net == NetOf(done)
    requires i < |b.strategies| && b == b0.(orders := b.orders, strategies := b0.strategies[i := b.strategies[i]])
    requires PostExit(Advanced(b, i, done, orders), user, STRATEGY_POSITION(i), margin, net) == Ok(after)
    ensures Progress(b0, after, user, i, exits)
  {
    assert b0.strategies[i := b.strategies[i]][i := done] == b0.strategies[i := done];
    ExitDependsOnAccounts(Advanced(b, i, done, orders), user, i, margin, net);
  }

  lemma FinishProgress(b0: Book, b: Book, user: nat, i: nat, exits: seq<int>, s: Strategy, orders: seq<Order>, after: Book)
    requires Ready(b0, user, i) && Progress(b0, b, user, i, exits) && FurtherClosed(b0, b, i, exits, s)
    requires Finish(Advanced(b, i, s, orders), i) == Ok(after)
    ensures Progress(b0, after, user, i, exits)
  {
    FinishIs(b, i, s, orders);
    if AnyOpen(s.legs) {
      PauseProgress(b0, b, user, i, exits, s, orders, after);
    } else {
      SettledShape(b0, b, user, i, exits, s);
      var p, done := s.position.value, Settled(s);
      SettleProgress(b0, b, user, i, exits, done, orders, p.marginBlocked, p.realizedPnl - p.brokerage, after);
    }
  }

  lemma OneAdvances(before: seq<LegRow>, legs: seq<LegRow>, k: nat, exits: seq<int>)
    requires LegsAdvance(before, legs, exits) && k < |legs| && legs[k].status == OPEN
    ensures LegsAdvance(before, legs[k := ClosedLeg(legs[k], ExitOf(exits, k))], exits)
  {
    assert legs[k] == before[k];
  }

  lemma AllAdvance(before: seq<LegRow>, legs: seq<LegRow>, exits: seq<int>)
    requires LegsAdvance(before, legs, exits)
    ensures LegsAdvance(before, ClosedLegs(legs, exits), exits)
  {
    forall k | 0 <= k < |legs| && legs[k].status == OPEN
      ensures legs[k] == before[k]
    {
    }
  }

  lemma OneProgress(b0: Book, b: Book, user: nat, i: nat, legId: nat, open: bool, exits: seq<int>, after: Book)
    requires Ready(b0, user, i) && Progress(b0, b, user, i, exits)
    requires CloseCall(b, user, i, One(legId, open), exits) == Ok(after)
    ensures Progress(b0, after, user, i, exits)
  {
    var s := b.strategies[i];
    var k := LegIndex(s.legs, legId);
    assert s.legs[k] in s.legs && AnyOpen(s.legs);
    OneAdvances(b0.strategies[i].legs, s.legs, k, exits);
    OneClosedShape(s, k, ExitOf(exits, k));
    FinishProgress(b0, b, user, i, exits, OneClosed(s, k, ExitOf(exits, k)),
                   CloseMirror(b.orders, b.orders, i, s.legs[k], ExitOf(exits, k)), after);
  }

  lemma AllProgress(b0: Book, b: Book, user: nat, i: nat, open: bool, exits: seq<int>, after: Book)
    requires Ready(b0, user, i) && Progress(b0, b, user, i, exits)
    requires CloseCall(b, user, i, All(open), exits) == Ok(after)
    ensures Progress(b0, after, user, i, exits)
  {
    var s := b.strategies[i];
    AllAdvance(b0.strategies[i].legs, s.legs, exits);
    AllClosedShape(s, exits);
    FinishProgress(b0, b, user, i, exits, AllClosed(s, exits), MirrorsClosed(b.orders, i, s.legs, exits, |s.legs|), after);
  }

  lemma {:induction false} RunProgress(b0: Book, b: Book, user: nat, i: nat, closes: seq<Close>, exits: seq<int>)
    requires Ready(b0, user, i) && Progress(b0, b, user, i, exits)
    ensures Progress(b0, RunCloses(b, user, i, closes, exits), user, i, exits)
    decreases |closes|
  {
    if closes != [] {
      var next := CloseStep(b, user, i, closes[0], exits);
      var done := CloseCall(b, user, i, closes[0], exits);
      if done.Ok? {
        match closes[0]
        case One(legId, open) => OneProgress(b0, b, user, i, legId, open, exits, next);
        case All(open) => AllProgress(b0, b, user, i, open, exits, next);
      }
      RunProgress(b0, next, user, i, closes[1..], exits);
    }
  }

  lemma ProgressStarts(b0: Book, user: nat, i: nat, exits: seq<int>)
    requires Ready(b0, user, i)
    ensures Progress(b0, b0, user, i, exits)
  {
  }

  /** All legs closed at the given fills. */
  function FullyClosed(s: Strategy, exits: seq<int>): seq<LegRow> {
    ClosedLegs(s.legs, exits)
  }

  /** The settlement the strategy will get: its P&L net of entry brokerage. */
  function FinalNet(s: Strategy, exits: seq<int>): int
    requires s.position.Some?
  {
    RealizedOf(FullyClosed(s, exits)) - s.position.value.brokerage
  }

  lemma NothingOpenIsFullyClosed(before: seq<LegRow>, after: seq<LegRow>, exits: seq<int>)
    requires LegsAdvance(before, after, exits) && !AnyOpen(after)
    ensures after == ClosedLegs(before, exits)
  {
    forall k | 0 <= k < |before|
      ensures after[k] == ClosedLegs(before, exits)[k]
    {
      assert after[k] in after;
    }
  }

  lemma ProgressEnds(b0: Book, after: Book, user: nat, i: nat, exits: seq<int>, done: Strategy)
    requires Ready(b0, user, i) && Progress(b0, after, user, i, exits)
    requires done == after.strategies[i] && done.status.SquaredOff?
    ensures after.strategies == b0.strategies[i := done]
    ensures SettledForm(b0.strategies[i], done) && done.legs == FullyClosed(b0.strategies[i], exits)
    ensures SettledAccounts(b0.accounts, user, i, b0.strategies[i].position.value.marginBlocked, NetOf(done)) == Ok(after.accounts)
  {
    NothingOpenIsFullyClosed(b0.strategies[i].legs, done.legs, exits);
  }

  lemma SettledBalance(accounts: seq<Account>, user: nat, i: nat, margin: int, net: int, after: seq<Account>)
    requires SettledAccounts(accounts, user, i, margin, net) == Ok(after)
    ensures user < |accounts| && user < |after| && after[user].balance == accounts[user].balance + margin + net
  {
  }

  lemma RunEnds(b0: Book, user: nat, i: nat, closes: seq<Close>, exits: seq<int>, after: Book)
    requires Ready(b0, user, i) && after == RunCloses(b0, user, i, closes, exits)
    ensures Progress(b0, after, user, i, exits)
  {
    ProgressStarts(b0, user, i, exits);
    RunProgress(b0, b0, user, i, closes, exits);
  }

  lemma NetIsFinal(s0: Strategy, done: Strategy, exits: seq<int>)
    requires SettledForm(s0, done) && done.legs == FullyClosed(s0, exits)
    ensures NetOf(done) == FinalNet(s0, exits)
  {
  }

  /** The settled state, and what it is worth to the user. */
  lemma EndIsSettled(b0: Book, after: Book, user: nat, i: nat, exits: seq<int>, s0: Strategy, done: Strategy, margin: int, net: int)
    requires Ready(b0, user, i) && Progress(b0, after, user, i, exits)
    requires s0 == b0.strategies[i] && done == after.strategies[i] && done.status.SquaredOff?
    requires margin == s0.position.value.marginBlocked && net == FinalNet(s0, exits)
    ensures after.strategies == b0.strategies[i := done] && SettledForm(s0, done) && done.legs == FullyClosed(s0, exits)
    ensures SettledAccounts(b0.accounts, user, i, margin, net) == Ok(after.accounts)
    ensures user < |after.accounts| && after.accounts[user].balance == b0.accounts[user].balance + margin + net
  {
    ProgressEnds(b0, after, user, i, exits, done);
    NetIsFinal(s0, done, exits);
    SettledBalance(b0.accounts, user, i, margin, net, after.accounts);
  }

  /** Any schedule of single closes and square-offs that ends with the strategy
      squared off leaves the same legs, the same position and the same money:
      the margin returned once and the P&L net of entry brokerage settled once. */
  lemma SettlementIsScheduleIndependent(b0: Book, user: nat, i: nat, closes: seq<Close>, exits: seq<int>, after: Book)
    requires Ready(b0, user, i) && after == RunCloses(b0, user, i, closes, exits)
    requires i < |after.strategies| && after.strategies[i].status.SquaredOff?
    ensures var s0, done := b0.strategies[i], after.strategies[i];
            var p0 := s0.position.value;
            && after.strategies == b0.strategies[i := done]
            && SettledForm(s0, done) && done.legs == FullyClosed(s0, exits)
            && Ok(after.accounts) == SettledAccounts(b0.accounts, user, i, p0.marginBlocked, FinalNet(s0, exits))
            && user < |after.accounts|
            && after.accounts[user].balance == b0.accounts[user].balance + p0.marginBlocked + FinalNet(s0, exits)
  {
    var s0 := b0.strategies[i];
    RunEnds(b0, user, i, closes, exits, after);
    EndIsSettled(b0, after, user, i, exits, s0, after.strategies[i], s0.position.value.marginBlocked, FinalNet(s0, exits));
  }

  /** Two schedules with the same exit fills that both square the strategy off
      end with the same accounts, ledger rows included, and strategies. */
  lemma AnyTwoSchedulesAgree(b0: Book, user: nat, i: nat, first: seq<Close>, second: seq<Close>, exits: seq<int>,
                             after1: Book, after2: Book)
    requires Ready(b0, user, i)
    requires after1 == RunCloses(b0, user, i, first, exits) && after2 == RunCloses(b0, user, i, second, exits)
    requires i < |after1.strategies| && after1.strategies[i].status.SquaredOff?
    requires i < |after2.strategies| && after2.strategies[i].status.SquaredOff?
    ensures after1.accounts == after2.accounts && after1.strategies == after2.strategies
  {
    SettlementIsScheduleIndependent(b0, user, i, first, exits, after1);
    SettlementIsScheduleIndependent(b0, user, i, second, exits, after2);
  }

  /** Until then no money moves, and the position's realised P&L is the sum
      over the legs closed so far. */
  lemma NoMoneyMovesBeforeTheLastLeg(b0: Book, user: nat, i: nat, closes: seq<Close>, exits: seq<int>, after: Book)
    requires Ready(b0, user, i) && after == RunCloses(b0, user, i, closes, exits)
    ensures i < |after.strategies| && after.strategies[i].position.Some?
    ensures after.strategies[i].position.value.realizedPnl == RealizedOf(after.strategies[i].legs)
    ensures AnyOpen(after.strategies[i].legs) ==> after.accounts == b0.accounts && after.strategies[i].position.value.isOpen
  {
    ProgressStarts(b0, user, i, exits);
    RunProgress(b0, b0, user, i, closes, exits);
  }

  // --- When a strategy can be closed at all ----------------------------------

  predicate CanAfford(b0: Book, user: nat, i: nat, exits: seq<int>)
    requires user < |b0.accounts| && i < |b0.strategies| && b0.strategies[i].position.Some?
  {
    var s := b0.strategies[i];
    0 <= b0.accounts[user].balance + s.position.value.marginBlocked + FinalNet(s, exits)
  }

  lemma SettlementPossibleIff(accounts: seq<Account>, user: nat, i: nat, margin: int, net: int)
    requires user < |accounts| && 0 <= accounts[user].balance && 0 < margin
    ensures SettledAccounts(accounts, user, i, margin, net).Ok? <==> 0 <= accounts[user].balance + margin + net
  {
  }

  lemma {:induction false} RunAppend(b: Book, user: nat, i: nat, closes: seq<Close>, last: Close, exits: seq<int>)
    ensures RunCloses(b, user, i, closes + [last], exits)
            == CloseStep(RunCloses(b, user, i, closes, exits), user, i, last, exits)
    decreases |closes|
  {
    if closes == [] {
      assert [last][1..] == [];
    } else {
      assert (closes + [last])[1..] == closes[1..] + [last];
      RunAppend(CloseStep(b, user, i, closes[0], exits), user, i, closes[1..], last, exits);
    }
  }

  lemma ClosingTheRest(before: seq<LegRow>, legs: seq<LegRow>, exits: seq<int>)
    requires LegsAdvance(before, legs, exits)
    ensures !AnyOpen(ClosedLegs(legs, exits)) && ClosedLegs(legs, exits) == ClosedLegs(before, exits)
  {
    AllAdvance(before, legs, exits);
    NothingOpenIsFullyClosed(before, ClosedLegs(legs, exits), exits);
  }

  /** With no money moved yet, the last square-off succeeds if its settlement can. */
  lemma LastSquareOff(b0: Book, mid: Book, user: nat, i: nat, exits: seq<int>, c: Strategy, orders: seq<Order>)
    requires Ready(b0, user, i) && Progress(b0, mid, user, i, exits) && mid.strategies[i].status.Executed?
    requires c == AllClosed(mid.strategies[i], exits)
    requires orders == MirrorsClosed(mid.orders, i, mid.strategies[i].legs, exits, |mid.strategies[i].legs|)
    requires SettledAccounts(b0.accounts, user, i, b0.strategies[i].position.value.marginBlocked, FinalNet(b0.strategies[i], exits)).Ok?
    ensures Finish(Advanced(mid, i, c, orders), i).Ok?
  {
    ClosingTheRest(b0.strategies[i].legs, mid.strategies[i].legs, exits);
    AllClosedShape(mid.strategies[i], exits);
    FinishIs(mid, i, c, orders);
    ExitDependsOnAccounts(Advanced(mid, i, Settled(c), orders), user, i, b0.strategies[i].position.value.marginBlocked,
                          FinalNet(b0.strategies[i], exits));
  }

  lemma SquareOffEnds(b0: Book, mid: Book, user: nat, i: nat, exits: seq<int>, after: Book)
    requires Ready(b0, user, i) && Progress(b0, mid, user, i, exits) && mid.strategies[i].status.Executed?
    requires SquareOff(mid, user, i, true, exits) == Ok(after)
    ensures i < |after.strategies| && after.strategies[i].status.SquaredOff?
  {
    var s := mid.strategies[i];
    ClosingTheRest(b0.strategies[i].legs, s.legs, exits);
    AllClosedShape(s, exits);
    FinishIs(mid, i, AllClosed(s, exits), MirrorsClosed(mid.orders, i, s.legs, exits, |s.legs|));
  }

  /** A loss larger than balance plus margin cannot be settled, so no schedule
      closes the last leg; otherwise a square-off after any schedule does. */
  lemma SquareOffClosesIff(b0: Book, user: nat, i: nat, closes: seq<Close>, exits: seq<int>, after: Book)
    requires Ready(b0, user, i) && after == RunCloses(b0, user, i, closes + [All(true)], exits)
    ensures i < |after.strategies|
    ensures after.strategies[i].status.SquaredOff? <==> CanAfford(b0, user, i, exits)
  {
    var mid, s0 := RunCloses(b0, user, i, closes, exits), b0.strategies[i];
    ProgressStarts(b0, user, i, exits);
    RunProgress(b0, b0, user, i, closes, exits);
    RunProgress(b0, b0, user, i, closes + [All(true)], exits);
    RunAppend(b0, user, i, closes, All(true), exits);
    SettlementPossibleIff(b0.accounts, user, i, s0.position.value.marginBlocked, FinalNet(s0, exits));
    if after.strategies[i].status.SquaredOff? {
      SettlementIsScheduleIndependent(b0, user, i, closes + [All(true)], exits, after);
    } else if CanAfford(b0, user, i, exits) {
      var s := mid.strategies[i];
      LastSquareOff(b0, mid, user, i, exits, AllClosed(s, exits), MirrorsClosed(mid.orders, i, s.legs, exits, |s.legs|));
      SquareOffEnds(b0, mid, user, i, exits, SquareOff(mid, user, i, true, exits).value);
    }
  }

  // --- From the first quote to the last fill -----------------------------------

  /** Brokerage of opening the first `n` legs at the quoted fills. */
  function EntryCharges(legs: seq<LegRow>, quotes: seq<Quote>, n: nat): int
    requires n <= |legs|
  {
    if n == 0 then 0
    else
      var leg := legs[n - 1];
      EntryCharges(legs, quotes, n - 1)
      + match QuoteOf(quotes, n - 1)
        case Unusable => 0
        case Usable(_, fill) => SingleOrders.BrokerageOn(fill, leg.lots, leg.lotSize, leg.action)
  }

  lemma {:induction false} PlannedCharges(legs: seq<LegRow>, quotes: seq<Quote>, n: nat)
    requires n <= |legs|
    ensures PlanUpTo(legs, quotes, n).totalBrokerage == EntryCharges(legs, quotes, n)
  {
    if n > 0 {
      PlannedCharges(legs, quotes, n - 1);
    }
  }

  /** What a leg bought or sold at `entry` and closed at `exit` makes, after the
      brokerage of closing it. */
  function Made(leg: LegRow, entry: int, exit: int): int {
    (if leg.action == BUY then exit - entry else entry - exit) * (leg.lots * leg.lotSize)
    - SingleOrders.BrokerageOn(exit, leg.lots, leg.lotSize, if leg.action == BUY then SELL else BUY)
  }

  function AllMade(legs: seq<LegRow>, quotes: seq<Quote>, exits: seq<int>, n: nat): int
    requires n <= |legs|
  {
    if n == 0 then 0
    else
      AllMade(legs, quotes, exits, n - 1)
      + match QuoteOf(quotes, n - 1)
        case Unusable => 0
        case Usable(_, fill) => Made(legs[n - 1], fill, ExitOf(exits, n - 1))
  }

  /** Opened each at the fill of its own quote, and then closed at its exit. */
  ghost predicate Lived(legs: seq<LegRow>, quotes: seq<Quote>, exits: seq<int>, done: seq<LegRow>) {
    |done| == |legs| && forall k :: 0 <= k < |legs| ==>
      && k < |quotes| && quotes[k].Usable?
      && done[k] == legs[k].(entryPrice := Some(quotes[k].fill), exitPrice := Some(ExitOf(exits, k)), status := CLOSED,
                             realizedPnl := Made(legs[k], quotes[k].fill, ExitOf(exits, k)))
  }

  lemma {:induction false} LivedRealizes(legs: seq<LegRow>, quotes: seq<Quote>, exits: seq<int>, done: seq<LegRow>, n: nat)
    requires Lived(legs, quotes, exits, done) && n <= |legs|
    ensures RealizedOf(done[..n]) == AllMade(legs, quotes, exits, n)
  {
    if n > 0 {
      LivedRealizes(legs, quotes, exits, done, n - 1);
      assert done[..n][..n - 1] == done[..n - 1];
    }
  }

  lemma ClosingIsMade(leg: LegRow, entry: int, exit: int)
    ensures ClosedLeg(leg.(entryPrice := Some(entry), status := OPEN), exit)
            == leg.(entryPrice := Some(entry), exitPrice := Some(exit), status := CLOSED, realizedPnl := Made(leg, entry, exit))
  {
    SignedMove(leg.action, exit - entry, leg.lots * leg.lotSize);
  }

  lemma SignedMove(action: Action, move: int, units: int)
    ensures Sign(action) * move * units == (if action == BUY then move else -move) * units
  {
  }

  lemma LegsLive(legs: seq<LegRow>, quotes: seq<Quote>, exits: seq<int>, done: seq<LegRow>)
    requires PlanUpTo(legs, quotes, |legs|).problems == 0
    requires forall i, j :: 0 <= i < j < |legs| ==> legs[i].id != legs[j].id
    requires done == ClosedLegs(OpenedLegs(legs, PlanUpTo(legs, quotes, |legs|).fills), exits)
    ensures Lived(legs, quotes, exits, done) && RealizedOf(done) == AllMade(legs, quotes, exits, |legs|)
  {
    LegsLiveOneByOne(legs, quotes, exits, done);
    LivedRealizes(legs, quotes, exits, done, |legs|);
    assert done[..|legs|] == done;
  }

  lemma LegsLiveOneByOne(legs: seq<LegRow>, quotes: seq<Quote>, exits: seq<int>, done: seq<LegRow>)
    requires PlanUpTo(legs, quotes, |legs|).problems == 0
    requires forall i, j :: 0 <= i < j < |legs| ==> legs[i].id != legs[j].id
    requires done == ClosedLegs(OpenedLegs(legs, PlanUpTo(legs, quotes, |legs|).fills), exits)
    ensures Lived(legs, quotes, exits, done)
  {
    forall k | 0 <= k < |legs|
      ensures k < |quotes| && quotes[k].Usable?
      ensures done[k] == ClosedLeg(legs[k].(entryPrice := Some(quotes[k].fill), status := OPEN), ExitOf(exits, k))
    {
      EveryLegOpensAtItsOwnFill(legs, quotes, k);
    }
    forall k | 0 <= k < |legs| {
      ClosingIsMade(legs[k], quotes[k].fill, ExitOf(exits, k));
    }
  }

  /** What executing writes: the strategy live with its margin blocked and its
      entry brokerage noted, that margin off the balance, and nobody else touched. */
  lemma ExecutionIs(b: Book, user: nat, i: nat, m: ExecutionMarket, b0: Book)
    requires ExecuteStrategy(b, user, i, m) == Ok(b0)
    ensures i < |b.strategies| && user < |b.accounts| == |b0.accounts| && b0.pendings == b.pendings
    ensures var s, s0 := b.strategies[i], b0.strategies[i];
            && b0.strategies == b.strategies[i := s0]
            && s0 == s.(status := Executed, legs := s0.legs,
                        position := Some(StrategyPosition(m.margin, 0, EntryCharges(s.legs, m.quotes, |s.legs|), true)))
    ensures b0.accounts[user].balance == b.accounts[user].balance - m.margin
    ensures forall v :: 0 <= v < |b.accounts| && v != user ==> b0.accounts[v] == b.accounts[v]
    ensures b.orders <= b0.orders
  {
    PlannedCharges(b.strategies[i].legs, m.quotes, |b.strategies[i].legs|);
  }

  /** From draft to squared off: what the account gains over the whole life is
      the P&L of the legs less the brokerage of opening each at its quoted fill,
      and not a paisa of margin. */
  lemma LifeOfAStrategy(b: Book, user: nat, i: nat, m: ExecutionMarket, b0: Book, closes: seq<Close>, exits: seq<int>, after: Book)
    requires Inv(b) && ExecuteStrategy(b, user, i, m) == Ok(b0) && after == RunCloses(b0, user, i, closes, exits)
    requires i < |after.strategies| && after.strategies[i].status.SquaredOff?
    ensures i < |b.strategies| && user < |b.accounts| && user < |after.accounts|
    ensures after.accounts[user].balance
            == b.accounts[user].balance + RealizedOf(after.strategies[i].legs)
               - EntryCharges(b.strategies[i].legs, m.quotes, |b.strategies[i].legs|)
  {
    ExecuteKeeps(b, user, i, m, b0);
    ExecutionIs(b, user, i, m, b0);
    InvMakesReady(b0, user, i);
    SettlementIsScheduleIndependent(b0, user, i, closes, exits, after);
  }

  /** In quotes and fills alone, leg ids being distinct: each leg opens at the
      fill quoted for it, closes at its exit whatever the schedule, and the
      account is up by what the legs made less both brokerages. */
  lemma LifeInQuotes(b: Book, user: nat, i: nat, m: ExecutionMarket, b0: Book, closes: seq<Close>, exits: seq<int>, after: Book,
                     legs: seq<LegRow>)
    requires Inv(b) && ExecuteStrategy(b, user, i, m) == Ok(b0) && after == RunCloses(b0, user, i, closes, exits)
    requires i < |after.strategies| && after.strategies[i].status.SquaredOff?
    requires i < |b.strategies| && legs == b.strategies[i].legs
    requires forall j, k :: 0 <= j < k < |legs| ==> legs[j].id != legs[k].id
    ensures Lived(legs, m.quotes, exits, after.strategies[i].legs)
    ensures user < |b.accounts| && user < |after.accounts|
    ensures after.accounts[user].balance
            == b.accounts[user].balance + AllMade(legs, m.quotes, exits, |legs|) - EntryCharges(legs, m.quotes, |legs|)
  {
    LifeOfAStrategy(b, user, i, m, b0, closes, exits, after);
    ExecutedLegsClose(b, user, i, m, b0, closes, exits, after);
    LegsLive(legs, m.quotes, exits, after.strategies[i].legs);
  }

  lemma ExecutedLegsClose(b: Book, user: nat, i: nat, m: ExecutionMarket, b0: Book, closes: seq<Close>, exits: seq<int>, after: Book)
    requires Inv(b) && ExecuteStrategy(b, user, i, m) == Ok(b0) && after == RunCloses(b0, user, i, closes, exits)
    requires i < |after.strategies| && after.strategies[i].status.SquaredOff?
    ensures i < |b.strategies| && PlanUpTo(b.strategies[i].legs, m.quotes, |b.strategies[i].legs|).problems == 0
    ensures after.strategies[i].legs
            == ClosedLegs(OpenedLegs(b.strategies[i].legs, PlanUpTo(b.strategies[i].legs, m.quotes, |b.strategies[i].legs|).fills), exits)
  {
    ExecuteKeeps(b, user, i, m, b0);
    InvMakesReady(b0, user, i);
    SettlementIsScheduleIndependent(b0, user, i, closes, exits, after);
  }

  /** Only the strategy's own calls make this so. Closing a leg's mirror as if
      it were an order of its own settles its P&L at once and leaves the leg
      open, so the same leg is paid a second time when it closes. */
  lemma MirrorClosedByItselfIsPaidTwice(b: Book, user: nat, i: nat, o: nat, exit: int, reason: SingleOrders.ExitReason,
                                        b0: Book, closes: seq<Close>, exits: seq<int>, after: Book)
    requires Inv(b) && i < |b.strategies| && b.strategies[i].user == user && b.strategies[i].status.Executed?
    requires o < |b.orders| && b.orders[o].strategy == Some(i)
    requires SingleOrders.CloseOrder(b, user, o, true, exit, reason) == Ok(b0)
    requires after == RunCloses(b0, user, i, closes, exits)
    requires i < |after.strategies| && after.strategies[i].status.SquaredOff?
    ensures b0.strategies == b.strategies
    ensures after.strategies[i].position.Some? && user < |after.accounts|
    ensures after.accounts[user].balance
            == b.accounts[user].balance + after.strategies[i].position.value.marginBlocked
               + RealizedOf(after.strategies[i].legs) - after.strategies[i].position.value.brokerage
               + SingleOrders.OrderNetPnl(b.orders[o], exit)
  {
    assert TrailOk(b, user, VIRTUAL_ORDER(o));
    SingleOrders.CloseOrderKeeps(b, user, o, true, exit, reason, b0);
    InvMakesReady(b0, user, i);
    SettlementIsScheduleIndependent(b0, user, i, closes, exits, after);
  }

  /** Against the same closes without it, closing the mirror alone leaves the
      user its P&L richer or poorer: nothing exactly when that P&L is nil. */
  lemma DoublePaymentIsTheMirrorsPnl(b: Book, user: nat, i: nat, o: nat, exit: int, reason: SingleOrders.ExitReason, b0: Book,
                                     closes: seq<Close>, exits: seq<int>, twice: Book, once: Book)
    requires Inv(b) && i < |b.strategies| && b.strategies[i].user == user && b.strategies[i].status.Executed?
    requires o < |b.orders| && b.orders[o].strategy == Some(i)
    requires SingleOrders.CloseOrder(b, user, o, true, exit, reason) == Ok(b0)
    requires twice == RunCloses(b0, user, i, closes, exits) && once == RunCloses(b, user, i, closes, exits)
    requires i < |twice.strategies| && twice.strategies[i].status.SquaredOff?
    requires i < |once.strategies| && once.strategies[i].status.SquaredOff?
    ensures user < |twice.accounts| && user < |once.accounts|
    ensures twice.accounts[user].balance == once.accounts[user].balance + SingleOrders.OrderNetPnl(b.orders[o], exit)
    ensures twice.accounts[user].balance == once.accounts[user].balance <==> SingleOrders.OrderNetPnl(b.orders[o], exit) == 0
  {
    InvMakesReady(b, user, i);
    SettlementIsScheduleIndependent(b, user, i, closes, exits, once);
    MirrorClosedByItselfIsPaidTwice(b, user, i, o, exit, reason, b0, closes, exits, twice);
    SameLegsSettle(b, b0, user, i, closes, exits, twice);
  }

  lemma SameLegsSettle(b: Book, b0: Book, user: nat, i: nat, closes: seq<Close>, exits: seq<int>, twice: Book)
    requires Ready(b, user, i) && Ready(b0, user, i) && b0.strategies == b.strategies
    requires twice == RunCloses(b0, user, i, closes, exits) && i < |twice.strategies| && twice.strategies[i].status.SquaredOff?
    ensures twice.strategies[i].position.Some? && b.strategies[i].position.Some?
    ensures twice.strategies[i].position.value.marginBlocked + RealizedOf(twice.strategies[i].legs)
            - twice.strategies[i].position.value.brokerage
            == b.strategies[i].position.value.marginBlocked + FinalNet(b.strategies[i], exits)
  {
    SettlementIsScheduleIndependent(b0, user, i, closes, exits, twice);
  }
}
