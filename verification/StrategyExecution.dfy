/** strategy_execution_service.py: fill a draft, block its margin once, close
    its legs one by one or all together, and settle with the last leg. */
module StrategyExecution {
  import opened Wrappers
  import opened Domain
  import opened Ledger
  import opened Books
  import opened SingleOrders
  import Builder

  // --- Planning --------------------------------------------------------------

  datatype LegFill = LegFill(legId: nat, quoted: int, fill: int, brokerage: int)

  /** A leg either gets a usable quote, priced after slippage, or is a problem. */
  datatype Quote = Unusable | Usable(ltp: int, fill: int)

  datatype Plan = Plan(fills: seq<LegFill>, problems: nat, totalBrokerage: int)

  function QuoteOf(quotes: seq<Quote>, k: nat): Quote {
    if k < |quotes| then quotes[k] else Unusable
  }

  function FillOf(leg: LegRow, ltp: int, fill: int): LegFill {
    LegFill(leg.id, ltp, fill, BrokerageOn(fill, leg.lots, leg.lotSize, leg.action))
  }

  /** The plan over the first `n` legs. */
  function PlanUpTo(legs: seq<LegRow>, quotes: seq<Quote>, n: nat): Plan
    requires n <= |legs|
  {
    if n == 0 then Plan([], 0, 0)
    else
      var plan := PlanUpTo(legs, quotes, n - 1);
      match QuoteOf(quotes, n - 1)
      case Unusable => plan.(problems := plan.problems + 1)
      case Usable(ltp, fill) =>
        var f := FillOf(legs[n - 1], ltp, fill);
        plan.(fills := plan.fills + [f], totalBrokerage := plan.totalBrokerage + f.brokerage)
  }

  /** fills_by_leg: the last fill recorded for a leg. */
  function FillFor(fills: seq<LegFill>, legId: nat): Option<LegFill> {
    if fills == [] then None
    else
      var last := fills[|fills| - 1];
      if last.legId == legId then Some(last) else FillFor(fills[..|fills| - 1], legId)
  }

  // --- Execution -------------------------------------------------------------

  function LegToDomain(row: LegRow): Leg {
    Leg(row.id, Contract(row.instrument, row.expiry, row.kind, row.strike, None, None), row.action, row.lots, row.lotSize,
        row.entryPrice, row.status)
  }

  function ToDraft(s: Strategy): Builder.Draft {
    Builder.Draft(s.underlying, s.status.Draft?, s.allowCalendar, seq(|s.legs|, k requires 0 <= k < |s.legs| => LegToDomain(s.legs[k])))
  }

  function OpenedLeg(row: LegRow, fills: seq<LegFill>): LegRow {
    match FillFor(fills, row.id)
    case None => row
    case Some(f) => row.(entryPrice := Some(f.fill), status := OPEN)
  }

  function OpenedLegs(legs: seq<LegRow>, fills: seq<LegFill>): seq<LegRow> {
    seq(|legs|, k requires 0 <= k < |legs| => OpenedLeg(legs[k], fills))
  }

  function MirrorOf(s: Strategy, sid: nat, row: LegRow, f: LegFill): Order {
    Order(s.user, None,
          Terms(s.underlying, row.expiry, row.strike.GetOr(0.0), row.kind, row.action, row.lots, row.lotSize, s.product,
                None, None, if s.setupTag == "" then "OTHER" else s.setupTag),
          f.fill, None, Open, None, 0, f.brokerage, Some(sid), NoPosition)
  }

  /** One order for each option leg filled, in leg order; futures have none. */
  function MirrorsOf(s: Strategy, sid: nat, legs: seq<LegRow>, fills: seq<LegFill>): seq<Order> {
    if legs == [] then []
    else
      var last := legs[|legs| - 1];
      var earlier := MirrorsOf(s, sid, legs[..|legs| - 1], fills);
      if last.kind == FUT || FillFor(fills, last.id).None? then earlier
      else earlier + [MirrorOf(s, sid, last, FillFor(fills, last.id).value)]
  }

  /** What execution finds out from the outside, the margin estimate included. */
  datatype ExecutionMarket = ExecutionMarket(open: bool, quotes: seq<Quote>, margin: int, violates: bool)

  function ExecutedStrategy(s: Strategy, plan: Plan, margin: int): Strategy {
    s.(status := Executed, legs := OpenedLegs(s.legs, plan.fills),
       position := Some(StrategyPosition(margin, 0, plan.totalBrokerage, true)))
  }

  function ExecuteStrategy(b: Book, user: nat, i: nat, m: ExecutionMarket): Outcome<Book> {
    if !m.open then Raise(MarketClosed)
    else if i >= |b.strategies| || b.strategies[i].user != user then Raise(NotFound)
    else if !b.strategies[i].status.Draft? then Raise(NotADraft)
    else if b.strategies[i].legs == [] then Raise(EmptyStrategy)
    else if user >= |b.accounts| then Raise(NoAccount)
    else
      var s := b.strategies[i];
      var invalid := Builder.ValidateStrategy(ToDraft(s));
      var plan := PlanUpTo(s.legs, m.quotes, |s.legs|);
      if invalid.Some? then Raise(invalid.value)
      else if plan.problems > 0 then Raise(Unpriceable)
      else if b.accounts[user].balance < m.margin then Raise(InsufficientBalance)
      else if b.accounts[user].disciplineOn && m.violates then Raise(DisciplineViolation)
      else
        PostTo(b.(orders := b.orders + MirrorsOf(s, i, s.legs, plan.fills),
                  strategies := b.strategies[i := ExecutedStrategy(s, plan, m.margin)]),
               user, TRADE_DEBIT, -m.margin, STRATEGY_POSITION(i), Margin)
  }

  /** A draft that executes at some positive margin executes at another exactly
      if that is positive and the balance covers it; at none, the blocking of
      nothing is refused as a zero posting. */
  lemma ExecutesAtMarginIff(b: Book, user: nat, i: nat, m: ExecutionMarket, possible: int)
    requires 0 < possible && ExecuteStrategy(b, user, i, m.(margin := possible)).Ok? && 0 <= m.margin
    ensures user < |b.accounts|
    ensures ExecuteStrategy(b, user, i, m).Ok? <==> 0 < m.margin <= b.accounts[user].balance
    ensures m.margin == 0 ==> ExecuteStrategy(b, user, i, m) == Raise(ZeroAmount)
  {
    assert user < |b.accounts| && possible <= b.accounts[user].balance;
  }

  // --- Closing ---------------------------------------------------------------

  /** Signed price move times quantity, less the exit brokerage. */
  function LegPnl(row: LegRow, exit: int): int {
    Sign(row.action) * (exit - row.entryPrice.GetOr(0)) * (row.lots * row.lotSize)
    - BrokerageOn(exit, row.lots, row.lotSize, Opposite(row.action))
  }

  function ClosedLeg(row: LegRow, exit: int): LegRow {
    row.(exitPrice := Some(exit), realizedPnl := LegPnl(row, exit), status := CLOSED)
  }

  /** All the mirror lookup compares besides the strategy: no expiry. */
  datatype Key = Key(strike: Option<real>, kind: Kind, action: Action)

  function LegKey(row: LegRow): Key {
    Key(row.strike, row.kind, row.action)
  }

  function OrderKey(o: Order): Key {
    Key(Some(o.terms.strike), o.terms.kind, o.terms.action)
  }

  predicate Mirrors(o: Order, sid: nat, row: LegRow) {
    o.strategy == Some(sid) && OrderKey(o) == LegKey(row)
  }

  /** First open match, or the length when there is none. */
  function FindMirror(orders: seq<Order>, sid: nat, row: LegRow): (k: nat)
    ensures k <= |orders|
    ensures k < |orders| ==> Mirrors(orders[k], sid, row) && orders[k].status.Open?
    ensures forall l :: 0 <= l < k ==> !(Mirrors(orders[l], sid, row) && orders[l].status.Open?)
  {
    if orders == [] || (Mirrors(orders[0], sid, row) && orders[0].status.Open?) then 0
    else 1 + FindMirror(orders[1..], sid, row)
  }

  /** Close the mirror of `row`. The lookup sees the orders as last flushed,
      the write goes to the ones in memory. */
  function CloseMirror(live: seq<Order>, flushed: seq<Order>, sid: nat, row: LegRow, exit: int): seq<Order>
    requires |live| == |flushed|
  {
    var k := FindMirror(flushed, sid, row);
    if row.kind == FUT || k == |flushed| then live
    else live[k := MirrorClosed(live[k], row, exit)]
  }

  function MirrorClosed(o: Order, row: LegRow, exit: int): Order {
    o.(exitPrice := Some(exit), pnl := Some(LegPnl(row, exit)), status := Closed)
  }

  predicate AnyOpen(legs: seq<LegRow>) {
    exists l :: l in legs && l.status == OPEN
  }

  function AddRealized(s: Strategy, realized: int): Strategy {
    match s.position
    case None => s
    case Some(p) => s.(position := Some(p.(realizedPnl := p.realizedPnl + realized)))
  }

  /** With no leg left open the margin goes back and the P&L net of the entry
      brokerage is applied, once. */
  function Finish(b: Book, i: nat): Outcome<Book>
    requires i < |b.strategies|
  {
    var s := b.strategies[i];
    if AnyOpen(s.legs) then Ok(b)
    else if s.position.None? || !s.position.value.isOpen then
      Ok(b.(strategies := b.strategies[i := s.(status := SquaredOff)]))
    else
      var p := s.position.value;
      PostExit(b.(strategies := b.strategies[i := s.(status := SquaredOff, position := Some(p.(isOpen := false)))]),
               s.user, STRATEGY_POSITION(i), p.marginBlocked, p.realizedPnl - p.brokerage)
  }

  function LegIndex(legs: seq<LegRow>, id: nat): (k: nat)
    ensures k <= |legs|
    ensures k < |legs| ==> legs[k].id == id
    ensures forall l :: 0 <= l < k ==> legs[l].id != id
  {
    if legs == [] || legs[0].id == id then 0 else 1 + LegIndex(legs[1..], id)
  }

  /** The book with strategy `i` at `s` and its mirrors closed as in `orders`. */
  function Advanced(b: Book, i: nat, s: Strategy, orders: seq<Order>): Book
    requires i < |b.strategies|
  {
    b.(orders := orders, strategies := b.strategies[i := s])
  }

  function OneClosed(s: Strategy, k: nat, exit: int): Strategy
    requires k < |s.legs|
  {
    AddRealized(s.(legs := s.legs[k := ClosedLeg(s.legs[k], exit)]), LegPnl(s.legs[k], exit))
  }

  function CloseLeg(b: Book, user: nat, i: nat, legId: nat, marketOpen: bool, exit: int): Outcome<Book> {
    if !marketOpen then Raise(MarketClosed)
    else if i >= |b.strategies| || b.strategies[i].user != user then Raise(NotFound)
    else
      var k := LegIndex(b.strategies[i].legs, legId);
      if k == |b.strategies[i].legs| then Raise(LegNotFound)
      else if b.strategies[i].legs[k].status != OPEN then Raise(LegNotOpen)
      else
        var s := b.strategies[i];
        Finish(Advanced(b, i, OneClosed(s, k, exit), CloseMirror(b.orders, b.orders, i, s.legs[k], exit)), i)
  }

  function ExitOf(exits: seq<int>, k: nat): int {
    if k < |exits| then exits[k] else 0
  }

  function ClosedLegs(legs: seq<LegRow>, exits: seq<int>): seq<LegRow> {
    seq(|legs|, k requires 0 <= k < |legs| =>
      if legs[k].status == OPEN then ClosedLeg(legs[k], ExitOf(exits, k)) else legs[k])
  }

  /** What closing the open ones among the first `n` legs realises. */
  function RealizedUpTo(legs: seq<LegRow>, exits: seq<int>, n: nat): int
    requires n <= |legs|
  {
    if n == 0 then 0
    else RealizedUpTo(legs, exits, n - 1) + if legs[n - 1].status == OPEN then LegPnl(legs[n - 1], ExitOf(exits, n - 1)) else 0
  }

  /** The orders after closing the mirrors of the first `n` legs; every lookup
      sees the orders as they were before the first. */
  function MirrorsClosed(orders: seq<Order>, sid: nat, legs: seq<LegRow>, exits: seq<int>, n: nat): (closed: seq<Order>)
    requires n <= |legs|
    ensures |closed| == |orders|
  {
    if n == 0 then orders
    else
      var earlier := MirrorsClosed(orders, sid, legs, exits, n - 1);
      if legs[n - 1].status == OPEN then CloseMirror(earlier, orders, sid, legs[n - 1], ExitOf(exits, n - 1)) else earlier
  }

  function AllClosed(s: Strategy, exits: seq<int>): Strategy {
    AddRealized(s.(legs := ClosedLegs(s.legs, exits)), RealizedUpTo(s.legs, exits, |s.legs|))
  }

  function SquareOff(b: Book, user: nat, i: nat, marketOpen: bool, exits: seq<int>): Outcome<Book> {
    if !marketOpen then Raise(MarketClosed)
    else if i >= |b.strategies| || b.strategies[i].user != user then Raise(NotFound)
    else if !b.strategies[i].status.Executed? then Raise(NotExecuted)
    else
      var s := b.strategies[i];
      Finish(Advanced(b, i, AllClosed(s, exits), MirrorsClosed(b.orders, i, s.legs, exits, |s.legs|)), i)
  }

  // --- Plans -----------------------------------------------------------------

  function BrokerageSum(fills: seq<LegFill>): int {
    if fills == [] then 0 else BrokerageSum(fills[..|fills| - 1]) + fills[|fills| - 1].brokerage
  }

  /** Fill `k` is leg `k`'s, at its own quote. */
  ghost predicate FillsLegs(fills: seq<LegFill>, legs: seq<LegRow>, quotes: seq<Quote>, n: nat)
    requires n <= |legs|
  {
    |fills| == n && forall k :: 0 <= k < n ==>
      k < |quotes| && quotes[k].Usable? && fills[k] == FillOf(legs[k], quotes[k].ltp, quotes[k].fill)
  }

  /** An accepted plan fills every leg exactly once, in order, at its quote. */
  lemma {:induction false} AcceptedPlanFillsEveryLeg(legs: seq<LegRow>, quotes: seq<Quote>, n: nat, plan: Plan)
    requires n <= |legs| && plan == PlanUpTo(legs, quotes, n) && plan.problems == 0
    ensures FillsLegs(plan.fills, legs, quotes, n)
  {
    if n > 0 {
      AcceptedPlanFillsEveryLeg(legs, quotes, n - 1, PlanUpTo(legs, quotes, n - 1));
    }
  }

  /** The brokerage of a plan is the sum over its fills, problems or not. */
  lemma {:induction false} PlanBrokerage(legs: seq<LegRow>, quotes: seq<Quote>, n: nat)
    requires n <= |legs|
    ensures PlanUpTo(legs, quotes, n).totalBrokerage == BrokerageSum(PlanUpTo(legs, quotes, n).fills)
  {
    if n > 0 {
      PlanBrokerage(legs, quotes, n - 1);
      var before := PlanUpTo(legs, quotes, n - 1).fills;
      if QuoteOf(quotes, n - 1).Usable? {
        assert PlanUpTo(legs, quotes, n).fills[..|before|] == before;
      }
    }
  }

  lemma {:induction false} FillForFinds(fills: seq<LegFill>, k: nat)
    requires k < |fills|
    ensures FillFor(fills, fills[k].legId).Some?
  {
    if fills[|fills| - 1].legId != fills[k].legId {
      assert fills[..|fills| - 1][k] == fills[k];
      FillForFinds(fills[..|fills| - 1], k);
    }
  }

  /** So execution leaves no leg behind. */
  lemma AcceptedPlanOpensEveryLeg(legs: seq<LegRow>, quotes: seq<Quote>)
    requires PlanUpTo(legs, quotes, |legs|).problems == 0
    ensures var after := OpenedLegs(legs, PlanUpTo(legs, quotes, |legs|).fills);
            |after| == |legs| && forall k :: 0 <= k < |legs| ==> after[k].status == OPEN && after[k].entryPrice.Some?
  {
    var plan := PlanUpTo(legs, quotes, |legs|);
    AcceptedPlanFillsEveryLeg(legs, quotes, |legs|, plan);
    forall k | 0 <= k < |legs|
      ensures FillFor(plan.fills, legs[k].id).Some?
    {
      FillForFinds(plan.fills, k);
    }
  }

  lemma {:induction false} LastFillForLeg(fills: seq<LegFill>, k: nat)
    requires k < |fills| && forall j :: k < j < |fills| ==> fills[j].legId != fills[k].legId
    ensures FillFor(fills, fills[k].legId) == Some(fills[k])
  {
    if k < |fills| - 1 {
      assert fills[..|fills| - 1][k] == fills[k];
      LastFillForLeg(fills[..|fills| - 1], k);
    }
  }

  /** Leg ids being distinct, every leg opens at the fill of its own quote. */
  lemma EveryLegOpensAtItsOwnFill(legs: seq<LegRow>, quotes: seq<Quote>, k: nat)
    requires PlanUpTo(legs, quotes, |legs|).problems == 0 && k < |legs|
    requires forall i, j :: 0 <= i < j < |legs| ==> legs[i].id != legs[j].id
    ensures k < |quotes| && quotes[k].Usable?
    ensures OpenedLegs(legs, PlanUpTo(legs, quotes, |legs|).fills)[k]
            == legs[k].(entryPrice := Some(quotes[k].fill), status := OPEN)
  {
    var plan := PlanUpTo(legs, quotes, |legs|);
    AcceptedPlanFillsEveryLeg(legs, quotes, |legs|, plan);
    LastFillForLeg(plan.fills, k);
  }

  // --- Preservation ----------------------------------------------------------

  lemma MirrorsAreFresh(s: Strategy, sid: nat, legs: seq<LegRow>, fills: seq<LegFill>)
    ensures forall k :: 0 <= k < |MirrorsOf(s, sid, legs, fills)| ==>
              FreshMirror(MirrorsOf(s, sid, legs, fills)[k]) && MirrorsOf(s, sid, legs, fills)[k].user == s.user
  {
  }

  lemma {:induction false} NoHolds(orders: seq<Order>, user: nat)
    requires forall k :: 0 <= k < |orders| ==> FreshMirror(orders[k])
    ensures SumBy(orders, OrderHold(user)) == 0
  {
    if orders != [] {
      NoHolds(orders[..|orders| - 1], user);
    }
  }

  function StrategyHeld(s: Strategy): int {
    if s.position.Some? && s.position.value.isOpen then s.position.value.marginBlocked else 0
  }

  /** Strategy `i` becomes `s`, new mirrors may appear and open ones close. */
  ghost predicate StrategyMoves(b: Book, after: Book, i: nat, s: Strategy, more: seq<Order>) {
    && i < |b.strategies| && s.user == b.strategies[i].user
    && after == b.(accounts := after.accounts, orders := after.orders, strategies := b.strategies[i := s])
    && |after.orders| == |b.orders| + |more|
    && (forall k :: 0 <= k < |b.orders| ==> SameOrderLife(b.orders[k], after.orders[k]))
    && (forall k :: 0 <= k < |more| ==> after.orders[|b.orders| + k] == more[k] && FreshMirror(more[k]) && more[k].user == s.user)
  }

  lemma StrategyHolds(b: Book, after: Book, i: nat, s: Strategy, more: seq<Order>)
    requires StrategyMoves(b, after, i, s, more)
    ensures HoldsShift(b, after, s.user, StrategyHeld(b.strategies[i]) - StrategyHeld(s))
  {
    forall v: nat | v < |b.accounts|
      ensures SumBy(after.orders, OrderHold(v)) == SumBy(b.orders, OrderHold(v))
    {
      SumBySame(after.orders[..|b.orders|], b.orders, OrderHold(v));
      assert after.orders == after.orders[..|b.orders|] + more;
      SumByConcat(after.orders[..|b.orders|], more, OrderHold(v));
      NoHolds(more, v);
    }
    forall v: nat | v < |b.accounts| {
      SumByUpdate(b.strategies, i, s, StrategyHold(v));
    }
  }

  lemma StrategyTouches(b: Book, after: Book, i: nat, s: Strategy, more: seq<Order>, r: Reference)
    requires OwnersExist(b) && ClientIdsUnique(b) && |after.accounts| == |b.accounts|
    requires StrategyMoves(b, after, i, s, more) && r == STRATEGY_POSITION(i)
    ensures Touches(b, after, s.user, r)
  {
    forall k | 0 <= k < |after.orders|
      ensures after.orders[k].user < |after.accounts|
      ensures |b.orders| <= k ==> FreshMirror(after.orders[k])
    {
      if |b.orders| <= k {
        assert after.orders[|b.orders| + (k - |b.orders|)] == more[k - |b.orders|];
      } else {
        assert SameOrderLife(b.orders[k], after.orders[k]);
      }
    }
  }

  lemma StrategyMoveKeeps(b: Book, after: Book, i: nat, s: Strategy, more: seq<Order>, r: Reference,
                          amounts: seq<int>, held: int)
    requires Inv(b) && StrategyMoves(b, after, i, s, more) && r == STRATEGY_POSITION(i)
    requires held == StrategyHeld(b.strategies[i]) - StrategyHeld(s)
    requires Posted(b.accounts, after.accounts, s.user, r, amounts, held)
    requires StrategyOk(s, Amounts(b.accounts[s.user].rows, r) + amounts)
    ensures Inv(after)
  {
    StrategyTouches(b, after, i, s, more, r);
    StrategyHolds(b, after, i, s, more);
    assert TrailOk(after, s.user, r);
    Kept(b, after, s.user, r, amounts, held);
  }

  lemma MirrorsHaveNoPosition(b: Book)
    requires Inv(b)
    ensures forall k :: 0 <= k < |b.orders| && b.orders[k].strategy.Some? ==> b.orders[k].position.NoPosition?
  {
    forall k | 0 <= k < |b.orders| && b.orders[k].strategy.Some?
      ensures b.orders[k].position.NoPosition?
    {
      assert TrailOk(b, b.orders[k].user, VIRTUAL_ORDER(k));
    }
  }

  lemma ExecutedOk(s: Strategy, quotes: seq<Quote>, margin: int)
    requires s.legs != [] && 0 < margin && PlanUpTo(s.legs, quotes, |s.legs|).problems == 0
    ensures StrategyOk(ExecutedStrategy(s, PlanUpTo(s.legs, quotes, |s.legs|), margin), [-margin])
  {
    var after := ExecutedStrategy(s, PlanUpTo(s.legs, quotes, |s.legs|), margin);
    AcceptedPlanOpensEveryLeg(s.legs, quotes);
    assert after.legs[0] in after.legs;
    NothingRealized(after.legs);
  }

  lemma {:induction false} NothingRealized(legs: seq<LegRow>)
    requires forall k :: 0 <= k < |legs| ==> legs[k].status != CLOSED
    ensures RealizedOf(legs) == 0
  {
    if legs != [] {
      NothingRealized(legs[..|legs| - 1]);
    }
  }

  /** The book a successful execution posts its margin against. */
  function FilledBook(b: Book, i: nat, quotes: seq<Quote>, margin: int): Book
    requires i < |b.strategies|
  {
    var s := b.strategies[i];
    var plan := PlanUpTo(s.legs, quotes, |s.legs|);
    b.(orders := b.orders + MirrorsOf(s, i, s.legs, plan.fills),
       strategies := b.strategies[i := ExecutedStrategy(s, plan, margin)])
  }

  lemma ExecutionPosts(b: Book, user: nat, i: nat, m: ExecutionMarket, after: Book, debit: int)
    requires ExecuteStrategy(b, user, i, m) == Ok(after) && debit == -m.margin
    ensures i < |b.strategies| && b.strategies[i].user == user && b.strategies[i].status.Draft? && b.strategies[i].legs != []
    ensures PlanUpTo(b.strategies[i].legs, m.quotes, |b.strategies[i].legs|).problems == 0
    ensures PostTo(FilledBook(b, i, m.quotes, m.margin), user, TRADE_DEBIT, debit, STRATEGY_POSITION(i), Margin) == Ok(after)
    ensures 0 < m.margin
  {
  }

  lemma FilledBookMoves(b: Book, i: nat, quotes: seq<Quote>, margin: int, s: Strategy, more: seq<Order>)
    requires i < |b.strategies|
    requires s == ExecutedStrategy(b.strategies[i], PlanUpTo(b.strategies[i].legs, quotes, |b.strategies[i].legs|), margin)
    requires more == MirrorsOf(b.strategies[i], i, b.strategies[i].legs,
                               PlanUpTo(b.strategies[i].legs, quotes, |b.strategies[i].legs|).fills)
    ensures StrategyMoves(b, FilledBook(b, i, quotes, margin), i, s, more)
  {
    MirrorsAreFresh(b.strategies[i], i, b.strategies[i].legs, PlanUpTo(b.strategies[i].legs, quotes, |b.strategies[i].legs|).fills);
  }

  lemma ExecuteKeeps(b: Book, user: nat, i: nat, m: ExecutionMarket, after: Book)
    requires Inv(b) && ExecuteStrategy(b, user, i, m) == Ok(after)
    ensures Inv(after)
  {
    ExecutionPosts(b, user, i, m, after, -m.margin);
    ExecutedKeeps(b, user, i, m.quotes, m.margin, -m.margin, after);
  }

  lemma ExecutedKeeps(b: Book, user: nat, i: nat, quotes: seq<Quote>, margin: int, debit: int, after: Book)
    requires Inv(b) && i < |b.strategies| && b.strategies[i].user == user && b.strategies[i].status.Draft?
    requires b.strategies[i].legs != [] && 0 < margin && debit == -margin
    requires PlanUpTo(b.strategies[i].legs, quotes, |b.strategies[i].legs|).problems == 0
    requires PostTo(FilledBook(b, i, quotes, margin), user, TRADE_DEBIT, debit, STRATEGY_POSITION(i), Margin) == Ok(after)
    ensures Inv(after)
  {
    var s := b.strategies[i];
    var plan := PlanUpTo(s.legs, quotes, |s.legs|);
    var more, executed := MirrorsOf(s, i, s.legs, plan.fills), ExecutedStrategy(s, plan, margin);
    ExecutedOk(s, quotes, margin);
    FilledBookMoves(b, i, quotes, margin, executed, more);
    BlockedKeeps(b, FilledBook(b, i, quotes, margin), after, i, executed, more, debit);
  }

  lemma BlockedKeeps(b: Book, b0: Book, after: Book, i: nat, s: Strategy, more: seq<Order>, debit: int)
    requires Inv(b) && StrategyMoves(b, b0, i, s, more) && b0.accounts == b.accounts && b.strategies[i].status.Draft?
    requires StrategyHeld(s) == -debit && StrategyOk(s, [debit])
    requires PostTo(b0, s.user, TRADE_DEBIT, debit, STRATEGY_POSITION(i), Margin) == Ok(after)
    ensures Inv(after)
  {
    var r, amounts := STRATEGY_POSITION(i), [debit];
    AboutPost(b0, after, s.user, TRADE_DEBIT, debit, r, Margin, amounts, debit);
    assert TrailOk(b, s.user, r);
    assert Amounts(b.accounts[s.user].rows, r) + amounts == amounts;
    StrategyMoveKeeps(b, after, i, s, more, r, amounts, debit);
  }

  // --- Closing keeps the invariant -------------------------------------------

  lemma {:induction false} RealizedUpdate(legs: seq<LegRow>, k: nat, row: LegRow)
    requires k < |legs| && legs[k].status != CLOSED && row.status == CLOSED
    ensures RealizedOf(legs[k := row]) == RealizedOf(legs) + row.realizedPnl
  {
    var n := |legs| - 1;
    if k == n {
      assert legs[k := row][..n] == legs[..n];
    } else {
      assert legs[k := row][..n] == legs[..n][k := row];
      RealizedUpdate(legs[..n], k, row);
    }
  }

  lemma {:induction false} RealizedOfClosed(legs: seq<LegRow>, exits: seq<int>, n: nat)
    requires n <= |legs|
    ensures RealizedOf(ClosedLegs(legs, exits)[..n]) == RealizedOf(legs[..n]) + RealizedUpTo(legs, exits, n)
  {
    if n > 0 {
      RealizedOfClosed(legs, exits, n - 1);
      assert legs[..n][..n - 1] == legs[..n - 1];
      assert ClosedLegs(legs, exits)[..n][..n - 1] == ClosedLegs(legs, exits)[..n - 1];
    }
  }

  lemma AllRealized(legs: seq<LegRow>, exits: seq<int>)
    ensures RealizedOf(ClosedLegs(legs, exits)) == RealizedOf(legs) + RealizedUpTo(legs, exits, |legs|)
  {
    RealizedOfClosed(legs, exits, |legs|);
    assert legs[..|legs|] == legs && ClosedLegs(legs, exits)[..|legs|] == ClosedLegs(legs, exits);
  }

  /** Orders only lose open mirrors, and only by closing them. */
  ghost predicate OnlyMirrorsClose(before: seq<Order>, after: seq<Order>) {
    |after| == |before| && forall k :: 0 <= k < |before| ==> SameOrderLife(before[k], after[k])
  }

  ghost predicate MirrorsBare(orders: seq<Order>) {
    forall k :: 0 <= k < |orders| && orders[k].strategy.Some? ==> orders[k].position.NoPosition?
  }

  lemma CloseMirrorOnly(live: seq<Order>, flushed: seq<Order>, sid: nat, row: LegRow, exit: int)
    requires MirrorsBare(flushed) && OnlyMirrorsClose(flushed, live)
    ensures OnlyMirrorsClose(flushed, CloseMirror(live, flushed, sid, row, exit))
  {
    var k := FindMirror(flushed, sid, row);
    if row.kind != FUT && k < |flushed| {
      assert SameOrderLife(flushed[k], live[k]);
    }
  }

  lemma {:induction false} MirrorsClosedOnly(orders: seq<Order>, sid: nat, legs: seq<LegRow>, exits: seq<int>, n: nat)
    requires n <= |legs| && MirrorsBare(orders)
    ensures OnlyMirrorsClose(orders, MirrorsClosed(orders, sid, legs, exits, n))
  {
    if n > 0 {
      MirrorsClosedOnly(orders, sid, legs, exits, n - 1);
      CloseMirrorOnly(MirrorsClosed(orders, sid, legs, exits, n - 1), orders, sid, legs[n - 1], ExitOf(exits, n - 1));
    }
  }

  /** `s` is `was` with some legs closed and their P&L booked. */
  ghost predicate PartlyClosed(was: Strategy, s: Strategy) {
    && was.status.Executed? && was.position.Some? && was.position.value.isOpen
    && s == was.(legs := s.legs, position := Some(was.position.value.(realizedPnl := RealizedOf(s.legs))))
    && (forall l :: l in s.legs ==> l.status != PENDING)
  }

  /** An executed strategy with its position open. */
  ghost predicate Live(s: Strategy) {
    && s.status.Executed? && s.position.Some? && s.position.value.isOpen
    && 0 < s.position.value.marginBlocked
    && s.position.value.realizedPnl == RealizedOf(s.legs)
    && (forall k :: 0 <= k < |s.legs| ==> s.legs[k].status != PENDING)
  }

  lemma OpenLegMeansLive(s: Strategy, posted: seq<int>)
    requires StrategyOk(s, posted)
    requires s.status.Executed? || exists k :: 0 <= k < |s.legs| && s.legs[k].status == OPEN
    ensures Live(s)
  {
    assert forall k :: 0 <= k < |s.legs| ==> s.legs[k] in s.legs;
  }

  lemma OneClosedShape(s: Strategy, k: nat, exit: int)
    requires k < |s.legs| && s.legs[k].status == OPEN && s.position.Some? && s.position.value.realizedPnl == RealizedOf(s.legs)
    ensures var c := OneClosed(s, k, exit);
            && c.legs == s.legs[k := ClosedLeg(s.legs[k], exit)]
            && c == s.(legs := c.legs, position := Some(s.position.value.(realizedPnl := RealizedOf(c.legs))))
  {
    RealizedUpdate(s.legs, k, ClosedLeg(s.legs[k], exit));
  }

  lemma AllClosedShape(s: Strategy, exits: seq<int>)
    requires s.position.Some? && s.position.value.realizedPnl == RealizedOf(s.legs)
    ensures var c := AllClosed(s, exits);
            && c.legs == ClosedLegs(s.legs, exits)
            && c == s.(legs := c.legs, position := Some(s.position.value.(realizedPnl := RealizedOf(c.legs))))
  {
    AllRealized(s.legs, exits);
  }

  lemma OneLegPartly(was: Strategy, k: nat, exit: int)
    requires Live(was) && k < |was.legs| && was.legs[k].status == OPEN
    ensures PartlyClosed(was, OneClosed(was, k, exit))
  {
    OneClosedShape(was, k, exit);
  }

  lemma AllLegsPartly(was: Strategy, exits: seq<int>)
    requires Live(was)
    ensures PartlyClosed(was, AllClosed(was, exits))
  {
    AllClosedShape(was, exits);
  }

  function Settled(s: Strategy): Strategy
    requires s.position.Some?
  {
    s.(status := SquaredOff, position := Some(s.position.value.(isOpen := false)))
  }

  lemma StillOpenOk(was: Strategy, s: Strategy, posted: seq<int>)
    requires StrategyOk(was, posted) && PartlyClosed(was, s) && AnyOpen(s.legs)
    ensures StrategyOk(s, posted)
  {
  }

  lemma SettledOk(was: Strategy, s: Strategy, posted: seq<int>, amounts: seq<int>)
    requires StrategyOk(was, posted) && PartlyClosed(was, s) && !AnyOpen(s.legs)
    requires amounts == [s.position.value.marginBlocked] + NonZero(s.position.value.realizedPnl - s.position.value.brokerage)
    ensures StrategyOk(Settled(s), posted + amounts)
  {
    var margin := s.position.value.marginBlocked;
    assert posted + amounts == [-margin, margin] + NonZero(s.position.value.realizedPnl - s.position.value.brokerage);
  }

  lemma FinishIs(b: Book, i: nat, s: Strategy, orders: seq<Order>)
    requires i < |b.strategies| && s.position.Some? && s.position.value.isOpen
    ensures Finish(Advanced(b, i, s, orders), i)
            == if AnyOpen(s.legs) then Ok(Advanced(b, i, s, orders))
               else PostExit(Advanced(b, i, Settled(s), orders), s.user, STRATEGY_POSITION(i), s.position.value.marginBlocked,
                             s.position.value.realizedPnl - s.position.value.brokerage)
  {
    assert b.strategies[i := s][i := Settled(s)] == b.strategies[i := Settled(s)];
  }

  lemma FinishKeeps(b: Book, i: nat, s: Strategy, orders: seq<Order>, after: Book)
    requires Inv(b) && i < |b.strategies| && PartlyClosed(b.strategies[i], s) && OnlyMirrorsClose(b.orders, orders)
    requires Finish(Advanced(b, i, s, orders), i) == Ok(after)
    ensures Inv(after)
  {
    var r := STRATEGY_POSITION(i);
    var posted := Amounts(b.accounts[s.user].rows, r);
    assert TrailOk(b, s.user, r);
    FinishIs(b, i, s, orders);
    if AnyOpen(s.legs) {
      StillOpenOk(b.strategies[i], s, posted);
      PauseKeeps(b, i, s, orders, r, posted, after);
    } else {
      var p := s.position.value;
      var margin, net := p.marginBlocked, p.realizedPnl - p.brokerage;
      var amounts := [margin] + NonZero(net);
      SettledOk(b.strategies[i], s, posted, amounts);
      SettlementKeeps(b, i, Settled(s), orders, r, margin, net, amounts, posted, after);
    }
  }

  lemma PauseKeeps(b: Book, i: nat, s: Strategy, orders: seq<Order>, r: Reference, posted: seq<int>, after: Book)
    requires Inv(b) && i < |b.strategies| && OnlyMirrorsClose(b.orders, orders) && s.user == b.strategies[i].user
    requires r == STRATEGY_POSITION(i) && StrategyHeld(s) == StrategyHeld(b.strategies[i])
    requires posted == Amounts(b.accounts[s.user].rows, r) && StrategyOk(s, posted)
    requires after == Advanced(b, i, s, orders)
    ensures Inv(after)
  {
    PostedNothing(b.accounts, s.user, r);
    assert posted + [] == posted;
    StrategyMoveKeeps(b, after, i, s, [], r, [], 0);
  }

  lemma SettlementKeeps(b: Book, i: nat, done: Strategy, orders: seq<Order>, r: Reference, margin: int, net: int,
                        amounts: seq<int>, posted: seq<int>, after: Book)
    requires Inv(b) && i < |b.strategies| && OnlyMirrorsClose(b.orders, orders) && done.user == b.strategies[i].user
    requires r == STRATEGY_POSITION(i) && margin == StrategyHeld(b.strategies[i]) != 0 && StrategyHeld(done) == 0
    requires amounts == [margin] + NonZero(net)
    requires posted == Amounts(b.accounts[done.user].rows, r) && StrategyOk(done, posted + amounts)
    requires PostExit(Advanced(b, i, done, orders), done.user, r, margin, net) == Ok(after)
    ensures Inv(after)
  {
    var b0 := Advanced(b, i, done, orders);
    var b1 := PostTo(b0, done.user, TRADE_CREDIT, margin, r, Margin).value;
    AboutExit(b0, b1, after, done.user, r, margin, net, amounts);
    StrategyMoveKeeps(b, after, i, done, [], r, amounts, margin);
  }

  lemma CloseLegKeeps(b: Book, user: nat, i: nat, legId: nat, marketOpen: bool, exit: int, after: Book)
    requires Inv(b) && CloseLeg(b, user, i, legId, marketOpen, exit) == Ok(after)
    ensures Inv(after)
  {
    var s := b.strategies[i];
    var k := LegIndex(s.legs, legId);
    assert TrailOk(b, user, STRATEGY_POSITION(i));
    OpenLegMeansLive(s, Amounts(b.accounts[user].rows, STRATEGY_POSITION(i)));
    OneLegPartly(s, k, exit);
    MirrorsHaveNoPosition(b);
    CloseMirrorOnly(b.orders, b.orders, i, s.legs[k], exit);
    FinishKeeps(b, i, OneClosed(s, k, exit), CloseMirror(b.orders, b.orders, i, s.legs[k], exit), after);
  }

  lemma SquareOffKeeps(b: Book, user: nat, i: nat, marketOpen: bool, exits: seq<int>, after: Book)
    requires Inv(b) && SquareOff(b, user, i, marketOpen, exits) == Ok(after)
    ensures Inv(after)
  {
    var s := b.strategies[i];
    assert TrailOk(b, user, STRATEGY_POSITION(i));
    OpenLegMeansLive(s, Amounts(b.accounts[user].rows, STRATEGY_POSITION(i)));
    AllLegsPartly(s, exits);
    MirrorsHaveNoPosition(b);
    MirrorsClosedOnly(b.orders, i, s.legs, exits, |s.legs|);
    FinishKeeps(b, i, AllClosed(s, exits), MirrorsClosed(b.orders, i, s.legs, exits, |s.legs|), after);
  }
}
