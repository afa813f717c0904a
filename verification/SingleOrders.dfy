/** virtual_order_service.py: placing and closing one market order. Quotes,
    slippage and the discipline verdict arrive as parameters. */
module SingleOrders {
  import opened Wrappers
  import opened Domain
  import opened Ledger
  import opened Books
  import Costs
  import Rounding

  const LEVERAGE_MULTIPLIER := 5

  /** What placing an order finds out from the outside. */
  datatype Market = Market(open: bool, ltp: Option<int>, fill: int, violates: bool, leveraged: bool)

  /** Margin for a contract, quantised half to even. */
  function MarginFor(price: int, lotSize: int, quantity: int, leveraged: bool): int {
    Rounding.HalfEven((price * lotSize * quantity) as real / (if leveraged then LEVERAGE_MULTIPLIER as real else 1.0))
  }

  function BrokerageOn(price: int, quantity: int, lotSize: int, action: Action): int {
    Costs.CalculateBrokerage(price as real, quantity, lotSize, action).total
  }

  /** The columns' CHECK constraints. */
  predicate Storable(t: Terms) {
    0 < t.quantity && IsOption(t.kind) && !t.action.OtherAction?
  }

  function FindOrder(orders: seq<Order>, user: nat, clientId: Option<nat>): (i: Option<nat>)
    ensures i.Some? ==> i.value < |orders| && orders[i.value].user == user && orders[i.value].clientId == clientId
    ensures i.None? && clientId.Some? ==> forall k :: 0 <= k < |orders| ==> orders[k].user != user || orders[k].clientId != clientId
  {
    if clientId.None? || orders == [] then None
    else
      var n := |orders| - 1;
      if orders[n].user == user && orders[n].clientId == clientId then Some(n)
      else FindOrder(orders[..n], user, clientId)
  }

  function NewOrder(user: nat, clientId: Option<nat>, terms: Terms, m: Market): Order {
    var brokerage := BrokerageOn(m.fill, terms.quantity, terms.lotSize, terms.action);
    Order(user, clientId, terms, m.fill, None, Open, None, brokerage, brokerage, None,
          Position(MarginFor(m.fill, terms.lotSize, terms.quantity, m.leveraged), true))
  }

  /** Margin and entry brokerage leave the balance together. */
  function OpenOrder(b: Book, o: Order): Outcome<Book>
    requires o.position.Position?
  {
    PostEntry(b.(orders := b.orders + [o]), o.user, VIRTUAL_ORDER(|b.orders|), o.position.marginBlocked, o.entryBrokerage)
  }

  /** Returns the book and the number of the order, new or replayed. */
  function PlaceOrder(b: Book, user: nat, clientId: Option<nat>, terms: Terms, m: Market): Outcome<(Book, nat)> {
    if !m.open then Raise(MarketClosed)
    else if user >= |b.accounts| then Raise(NoAccount)
    else
      var existing := FindOrder(b.orders, user, clientId);
      if existing.Some? then
        if b.orders[existing.value].terms == terms then Ok((b, existing.value)) else Raise(IdempotencyConflict)
      else if m.ltp.None? then Raise(QuoteUnavailable)
      else if b.accounts[user].disciplineOn && m.violates then Raise(DisciplineViolation)
      else
        var order := NewOrder(user, clientId, terms, m);
        if b.accounts[user].balance < order.position.marginBlocked + order.entryBrokerage then Raise(InsufficientBalance)
        else if !Storable(terms) then Raise(ConstraintViolated)
        else
          var placed :- OpenOrder(b, order);
          Ok((placed, |b.orders|))
  }

  datatype ExitReason = MANUAL | EMERGENCY_EXIT | SL_HIT | TARGET_HIT | LIMIT_EXIT | EOD_SQUAREOFF

  function StatusAfter(reason: ExitReason): OrderStatus {
    match reason
    case SL_HIT => SlHit
    case TARGET_HIT => TargetHit
    case _ => Closed
  }

  /** Gross P&L of one contract position. */
  function GrossPnl(action: Action, entry: int, exit: int, quantity: int, lotSize: int): int {
    (if action == BUY then exit - entry else entry - exit) * (quantity * lotSize)
  }

  function OrderNetPnl(o: Order, exit: int): int {
    GrossPnl(o.terms.action, o.entryPrice, exit, o.terms.quantity, o.terms.lotSize)
    - BrokerageOn(exit, o.terms.quantity, o.terms.lotSize, Opposite(o.terms.action))
  }

  function ClosedOrder(o: Order, exit: int, reason: ExitReason): Order {
    var exitBrokerage := BrokerageOn(exit, o.terms.quantity, o.terms.lotSize, Opposite(o.terms.action));
    o.(status := StatusAfter(reason),
       exitPrice := Some(exit),
       pnl := Some(OrderNetPnl(o, exit)),
       brokerage := o.brokerage + exitBrokerage,
       position := if o.position.Position? then o.position.(isOpen := false) else NoPosition)
  }

  /** Margin back first, then the P&L, as two rows. A mirrored leg has no
      position of its own, so only the P&L moves. */
  function CloseOrder(b: Book, user: nat, i: nat, marketOpen: bool, exit: int, reason: ExitReason): Outcome<Book> {
    if !marketOpen then Raise(MarketClosed)
    else if i >= |b.orders| || b.orders[i].user != user then Raise(NotFound)
    else if !b.orders[i].status.Open? then Raise(AlreadyClosed)
    else
      var o := b.orders[i];
      PostExit(b.(orders := b.orders[i := ClosedOrder(o, exit, reason)]), user, VIRTUAL_ORDER(i),
               if o.position.Position? then o.position.marginBlocked else 0, OrderNetPnl(o, exit))
  }

  // --- What placing and closing do ---------------------------------------------

  /** The margin is the value of all units, or a fifth of it, to the nearest paisa. */
  lemma MarginIsNearest(price: int, lotSize: int, quantity: int, leveraged: bool)
    ensures var value, margin := price * lotSize * quantity, MarginFor(price, lotSize, quantity, leveraged);
            if leveraged then -5 <= 2 * (5 * margin - value) <= 5 else margin == value
  {
    var x := (price * lotSize * quantity) as real / (if leveraged then 5.0 else 1.0);
    assert -0.5 <= x - Rounding.HalfEven(x) as real <= 0.5;
  }

  /** The last order of the user under a client id. */
  ghost predicate MadeBefore(orders: seq<Order>, user: nat, clientId: Option<nat>, k: nat) {
    && clientId.Some? && k < |orders| && orders[k].user == user && orders[k].clientId == clientId
    && forall l :: k < l < |orders| ==> orders[l].user != user || orders[l].clientId != clientId
  }

  lemma {:induction false} FindsTheLast(orders: seq<Order>, user: nat, clientId: Option<nat>, k: nat)
    ensures MadeBefore(orders, user, clientId, k) <==> FindOrder(orders, user, clientId) == Some(k)
  {
    if clientId.Some? && orders != [] {
      var n := |orders| - 1;
      if orders[n].user != user || orders[n].clientId != clientId {
        FindsTheLast(orders[..n], user, clientId, k);
        assert MadeBefore(orders, user, clientId, k) <==> MadeBefore(orders[..n], user, clientId, k);
      }
    }
  }

  /** A client id used before makes no second order: the first is returned and
      nothing moves, or, with other terms, the call conflicts. */
  lemma RepeatedIdMakesNoSecondOrder(b: Book, user: nat, clientId: Option<nat>, terms: Terms, m: Market, k: nat)
    requires m.open && user < |b.accounts| && MadeBefore(b.orders, user, clientId, k)
    ensures PlaceOrder(b, user, clientId, terms, m) == if b.orders[k].terms == terms then Ok((b, k)) else Raise(IdempotencyConflict)
  {
    FindsTheLast(b.orders, user, clientId, k);
  }

  ghost predicate Repeats(b: Book, user: nat, clientId: Option<nat>) {
    exists k: nat :: MadeBefore(b.orders, user, clientId, k)
  }

  function MarginOf(terms: Terms, m: Market): int {
    MarginFor(m.fill, terms.lotSize, terms.quantity, m.leveraged)
  }

  function BrokerageOf(terms: Terms, m: Market): int {
    BrokerageOn(m.fill, terms.quantity, terms.lotSize, terms.action)
  }

  ghost predicate Forbidden(a: Account, m: Market) {
    a.disciplineOn && m.violates
  }

  /** What the columns hold: a positive quantity of an option, bought or sold. */
  ghost predicate FitsTheColumns(terms: Terms) {
    0 < terms.quantity && (terms.kind == CE || terms.kind == PE) && (terms.action == BUY || terms.action == SELL)
  }

  /** A new order can be placed with these funds. */
  ghost predicate Affordable(terms: Terms, m: Market, funds: int) {
    0 < MarginOf(terms, m) && 0 < BrokerageOf(terms, m) && MarginOf(terms, m) + BrokerageOf(terms, m) <= funds
  }

  /** Short of margin with brokerage; or, were brokerage negative, of margin alone. */
  ghost predicate Short(terms: Terms, m: Market, funds: int) {
    || funds < MarginOf(terms, m) + BrokerageOf(terms, m)
    || (FitsTheColumns(terms) && MarginOf(terms, m) != 0 && funds < MarginOf(terms, m))
  }

  /** What placing an order under a client id not used before comes to. */
  lemma PlacingIs(b: Book, user: nat, clientId: Option<nat>, terms: Terms, m: Market)
    requires m.open && user < |b.accounts| && !Repeats(b, user, clientId)
    ensures var placed, a := PlaceOrder(b, user, clientId, terms, m), b.accounts[user];
            && (placed.Ok? <==> m.ltp.Some? && !Forbidden(a, m) && FitsTheColumns(terms) && Affordable(terms, m, a.balance))
            && (placed == Raise(QuoteUnavailable) <==> m.ltp.None?)
            && (placed == Raise(DisciplineViolation) <==> m.ltp.Some? && Forbidden(a, m))
            && (placed == Raise(InsufficientBalance) <==> m.ltp.Some? && !Forbidden(a, m) && Short(terms, m, a.balance))
            && placed != Raise(MarketClosed)
  {
    forall k: nat
      ensures FindOrder(b.orders, user, clientId) != Some(k)
    {
      FindsTheLast(b.orders, user, clientId, k);
    }
    var o := NewOrder(user, clientId, terms, m);
    PostingIs(b.(orders := b.orders + [o]), user, VIRTUAL_ORDER(|b.orders|), MarginOf(terms, m), BrokerageOf(terms, m));
  }

  /** Margin, then a charge: both positive, and both covered. */
  lemma PostingIs(b: Book, user: nat, r: Reference, margin: int, charge: int)
    requires user < |b.accounts|
    ensures var balance, done := b.accounts[user].balance, PostEntry(b, user, r, margin, charge);
            && (done.Ok? <==> 0 < margin <= balance && 0 < charge && margin + charge <= balance)
            && (done == Raise(InsufficientBalance) <==> (margin != 0 && balance < margin)
                                                        || (0 < margin <= balance && charge != 0 && balance < margin + charge))
            && (done.Raise? ==> done.error in {InsufficientBalance, ZeroAmount, ConstraintViolated})
  {
  }

  /** What was placed, or found: a replay changes nothing, and a new order is as
      asked, at the fill, and costs its margin and its brokerage. */
  lemma PlacedOrderIs(b: Book, user: nat, clientId: Option<nat>, terms: Terms, m: Market, after: Book, o: nat)
    requires PlaceOrder(b, user, clientId, terms, m) == Ok((after, o))
    ensures user < |b.accounts| == |after.accounts| && after.pendings == b.pendings && o < |after.orders|
    ensures after.strategies == b.strategies
    ensures forall v :: 0 <= v < |b.accounts| && v != user ==> after.accounts[v] == b.accounts[v]
    ensures if o < |b.orders| then after == b && b.orders[o].terms == terms
            else
              && o == |b.orders| && after.orders == b.orders + [after.orders[o]]
              && after.orders[o].user == user && after.orders[o].clientId == clientId && after.orders[o].terms == terms
              && after.orders[o].entryPrice == m.fill && after.orders[o].exitPrice.None? && after.orders[o].pnl.None?
              && after.orders[o].status.Open? && after.orders[o].strategy.None?
              && after.orders[o].position == Position(MarginOf(terms, m), true)
              && after.orders[o].entryBrokerage == after.orders[o].brokerage == BrokerageOf(terms, m)
              && after.accounts[user].balance == b.accounts[user].balance - MarginOf(terms, m) - BrokerageOf(terms, m)
  {
  }

  /** What closing does to the order and the account, and to nothing else. */
  lemma ClosedOrderIs(b: Book, user: nat, i: nat, exit: int, reason: ExitReason, after: Book)
    requires CloseOrder(b, user, i, true, exit, reason) == Ok(after)
    ensures i < |b.orders| == |after.orders| && user < |b.accounts| == |after.accounts|
    ensures after.orders == b.orders[i := after.orders[i]] && after.pendings == b.pendings && after.strategies == b.strategies
    ensures forall v :: 0 <= v < |b.accounts| && v != user ==> after.accounts[v] == b.accounts[v]
    ensures var o, closed := b.orders[i], after.orders[i];
            var move := if o.terms.action == BUY then exit - o.entryPrice else o.entryPrice - exit;
            var charge := BrokerageOn(exit, o.terms.quantity, o.terms.lotSize, if o.terms.action == BUY then SELL else BUY);
            var net := move * (o.terms.quantity * o.terms.lotSize) - charge;
            && closed == o.(status := closed.status, exitPrice := Some(exit), pnl := Some(net), brokerage := o.brokerage + charge,
                            position := closed.position)
            && closed.status == (if reason == SL_HIT then SlHit else if reason == TARGET_HIT then TargetHit else Closed)
            && (o.position.Position? ==> closed.position == Position(o.position.marginBlocked, false))
            && (o.position.NoPosition? ==> closed.position == NoPosition)
            && after.accounts[user].balance
               == b.accounts[user].balance + (if o.position.Position? then o.position.marginBlocked else 0) + net
  {
  }

  /** From placing to closing an order gains its user the gross P&L less both
      brokerages, and none of the margin. */
  lemma OrderRoundTrip(b: Book, user: nat, clientId: Option<nat>, terms: Terms, m: Market, placed: Book, o: nat,
                       exit: int, reason: ExitReason, after: Book)
    requires PlaceOrder(b, user, clientId, terms, m) == Ok((placed, o)) && o == |b.orders|
    requires CloseOrder(placed, user, o, true, exit, reason) == Ok(after)
    ensures user < |b.accounts| && user < |after.accounts|
    ensures after.accounts[user].balance
            == b.accounts[user].balance + GrossPnl(terms.action, m.fill, exit, terms.quantity, terms.lotSize)
               - BrokerageOn(m.fill, terms.quantity, terms.lotSize, terms.action)
               - BrokerageOn(exit, terms.quantity, terms.lotSize, Opposite(terms.action))
  {
    PlacedOrderIs(b, user, clientId, terms, m, placed, o);
  }

  /** A position gains exactly when the price moves its way, and the two sides
      of one trade cancel out. */
  lemma PnlFollowsThePrice(entry: int, exit: int, quantity: int, lotSize: int)
    requires 0 < quantity && 0 < lotSize
    ensures GrossPnl(BUY, entry, exit, quantity, lotSize) > 0 <==> exit > entry
    ensures GrossPnl(SELL, entry, exit, quantity, lotSize) > 0 <==> exit < entry
    ensures GrossPnl(BUY, entry, exit, quantity, lotSize) + GrossPnl(SELL, entry, exit, quantity, lotSize) == 0
  {
    var units := quantity * lotSize;
    assert 0 < units;
    assert exit > entry ==> 0 < (exit - entry) * units;
    assert exit < entry ==> 0 < (entry - exit) * units;
    assert (exit - entry) * units == -((entry - exit) * units);
  }

  // --- Preservation ----------------------------------------------------------

  function HeldBy(o: Order): int {
    if o.position.Position? && o.position.isOpen then o.position.marginBlocked else 0
  }

  ghost predicate FreshlyOpened(o: Order) {
    o.position.Position? && o.position.isOpen && o.status.Open? && o.pnl.None? && o.strategy.None?
  }

  lemma AppendedOrderHolds(b: Book, after: Book, o: Order)
    requires after == b.(accounts := after.accounts, orders := b.orders + [o])
    ensures HoldsShift(b, after, o.user, -HeldBy(o))
  {
    forall v: nat | v < |b.accounts| {
      SumByAppend(b.orders, o, OrderHold(v));
    }
  }

  lemma AppendedOrderTouches(b: Book, after: Book, o: Order, r: Reference)
    requires OwnersExist(b) && ClientIdsUnique(b) && o.user < |b.accounts| == |after.accounts|
    requires after == b.(accounts := after.accounts, orders := b.orders + [o]) && r == VIRTUAL_ORDER(|b.orders|)
    ensures Touches(b, after, o.user, r)
  {
  }

  lemma AppendedOrderTrail(b: Book, after: Book, o: Order, r: Reference, amounts: seq<int>, debit: int)
    requires o.user < |b.accounts| && r == VIRTUAL_ORDER(|b.orders|) && TrailOk(b, o.user, r)
    requires after == b.(accounts := after.accounts, orders := b.orders + [o])
    requires Posted(b.accounts, after.accounts, o.user, r, amounts, debit) && OrderOk(o, amounts)
    ensures TrailOk(after, o.user, r)
  {
    FreshTrail(b, after.accounts, o.user, r, amounts, debit);
  }

  lemma UpdatedOrderTouches(b: Book, after: Book, i: nat, o: Order, r: Reference)
    requires OwnersExist(b) && ClientIdsUnique(b) && |b.accounts| == |after.accounts|
    requires i < |b.orders| && o.user == b.orders[i].user && r == VIRTUAL_ORDER(i)
    requires after == b.(accounts := after.accounts, orders := b.orders[i := o])
    ensures Touches(b, after, o.user, r)
  {
  }

  lemma UpdatedOrderHolds(b: Book, after: Book, i: nat, o: Order)
    requires i < |b.orders| && o.user == b.orders[i].user
    requires after == b.(accounts := after.accounts, orders := b.orders[i := o])
    ensures HoldsShift(b, after, o.user, HeldBy(b.orders[i]) - HeldBy(o))
  {
    forall v: nat | v < |b.accounts| {
      SumByUpdate(b.orders, i, o, OrderHold(v));
    }
  }

  lemma OpenOrderPosts(b: Book, o: Order, after: Book, r: Reference, amounts: seq<int>, debit: int)
    requires o.position.Position? && OpenOrder(b, o) == Ok(after) && r == VIRTUAL_ORDER(|b.orders|)
    requires debit == -o.position.marginBlocked && amounts == [debit, -o.entryBrokerage]
    ensures o.user < |b.accounts| && debit < 0 && after == b.(accounts := after.accounts, orders := b.orders + [o])
    ensures Posted(b.accounts, after.accounts, o.user, r, amounts, debit)
  {
    var b0 := b.(orders := b.orders + [o]);
    var b1 := PostTo(b0, o.user, TRADE_DEBIT, debit, r, Margin).value;
    AboutEntry(b0, b1, after, o.user, r, debit, -o.entryBrokerage, amounts);
  }

  lemma AppendedOrderKeeps(b: Book, after: Book, o: Order, r: Reference, amounts: seq<int>, debit: int)
    requires Inv(b) && FreshlyOpened(o) && debit == -o.position.marginBlocked < 0 && o.user < |b.accounts|
    requires r == VIRTUAL_ORDER(|b.orders|) && amounts == [debit, -o.entryBrokerage]
    requires after == b.(accounts := after.accounts, orders := b.orders + [o])
    requires Posted(b.accounts, after.accounts, o.user, r, amounts, debit)
    ensures Inv(after)
  {
    assert TrailOk(b, o.user, r) && OrderOk(o, amounts);
    AppendedOrderTouches(b, after, o, r);
    AppendedOrderTrail(b, after, o, r, amounts, debit);
    AppendedOrderHolds(b, after, o);
    Kept(b, after, o.user, r, amounts, debit);
  }

  lemma OpenOrderKeeps(b: Book, o: Order, after: Book)
    requires Inv(b) && FreshlyOpened(o) && OpenOrder(b, o) == Ok(after)
    ensures Inv(after)
  {
    var r, debit := VIRTUAL_ORDER(|b.orders|), -o.position.marginBlocked;
    var amounts := [debit, -o.entryBrokerage];
    OpenOrderPosts(b, o, after, r, amounts, debit);
    AppendedOrderKeeps(b, after, o, r, amounts, debit);
  }

  lemma PlaceOrderKeeps(b: Book, user: nat, clientId: Option<nat>, terms: Terms, m: Market, after: Book, i: nat)
    requires Inv(b) && PlaceOrder(b, user, clientId, terms, m) == Ok((after, i))
    ensures Inv(after)
  {
    if FindOrder(b.orders, user, clientId).None? {
      OpenOrderKeeps(b, NewOrder(user, clientId, terms, m), after);
    }
  }

  ghost predicate ClosesInto(o: Order, closed: Order) {
    && o.status.Open? && !closed.status.Open? && closed.pnl.Some?
    && closed.user == o.user && closed.strategy == o.strategy && closed.entryBrokerage == o.entryBrokerage
    && closed.position == if o.position.Position? then o.position.(isOpen := false) else NoPosition
  }

  /** Margin returned (nothing for a mirrored leg) and the P&L if it is not nil. */
  function ClosingRows(o: Order, net: int): seq<int> {
    if o.position.Position? then [o.position.marginBlocked] + NonZero(net) else NonZero(net)
  }

  lemma ClosingKeepsOrderOk(o: Order, closed: Order, posted: seq<int>)
    requires ClosesInto(o, closed) && OrderOk(o, posted)
    ensures OrderOk(closed, posted + ClosingRows(o, closed.pnl.value))
  {
    if o.position.NoPosition? {
      assert posted == [];
      assert posted + NonZero(closed.pnl.value) == NonZero(closed.pnl.value);
    }
  }

  lemma CloseOrderKeeps(b: Book, user: nat, i: nat, marketOpen: bool, exit: int, reason: ExitReason, after: Book)
    requires Inv(b) && CloseOrder(b, user, i, marketOpen, exit, reason) == Ok(after)
    ensures Inv(after)
  {
    var o, r := b.orders[i], VIRTUAL_ORDER(i);
    var closed, net := ClosedOrder(o, exit, reason), OrderNetPnl(o, exit);
    assert TrailOk(b, user, r);
    var b0, amounts := b.(orders := b.orders[i := closed]), ClosingRows(o, net);
    if o.position.Position? {
      var margin := o.position.marginBlocked;
      var b1 := PostTo(b0, user, TRADE_CREDIT, margin, r, Margin).value;
      AboutExit(b0, b1, after, user, r, margin, net, amounts);
    } else {
      AboutSettle(b0, after, user, net, r, amounts);
    }
    ClosedOrderKeeps(b, after, i, closed, r, amounts, HeldBy(o));
  }

  lemma ClosedOrderKeeps(b: Book, after: Book, i: nat, closed: Order, r: Reference, amounts: seq<int>, held: int)
    requires Inv(b) && i < |b.orders| && ClosesInto(b.orders[i], closed)
    requires r == VIRTUAL_ORDER(i) && amounts == ClosingRows(b.orders[i], closed.pnl.value) && held == HeldBy(b.orders[i])
    requires after == b.(accounts := after.accounts, orders := b.orders[i := closed])
    requires Posted(b.accounts, after.accounts, closed.user, r, amounts, held)
    ensures Inv(after)
  {
    assert TrailOk(b, closed.user, r);
    UpdatedOrderTouches(b, after, i, closed, r);
    ClosingKeepsOrderOk(b.orders[i], closed, Amounts(b.accounts[closed.user].rows, r));
    UpdatedOrderHolds(b, after, i, closed);
    Kept(b, after, closed.user, r, amounts, held);
  }

  /** From 20 units on, which every instrument's lot is, margin tells prices
      apart in spite of rounding. */
  lemma MarginFollowsPrice(price: int, other: int, lotSize: int, quantity: int, leveraged: bool)
    requires 20 <= lotSize && 0 < quantity
    ensures MarginFor(price, lotSize, quantity, leveraged) <= MarginFor(other, lotSize, quantity, leveraged) <==> price <= other
  {
    if price <= other {
      MarginRises(price, other, lotSize, quantity, leveraged);
    } else {
      MarginRises(other + 1, price, lotSize, quantity, leveraged);
      OnePaisaMoreMargin(other, lotSize, quantity, leveraged);
    }
  }

  lemma Units(price: int, other: int, lotSize: int, quantity: int)
    requires price <= other && 0 <= lotSize && 0 <= quantity
    ensures price * lotSize * quantity <= other * lotSize * quantity
  {
    assert 0 <= (other - price) * lotSize;
    assert 0 <= (other - price) * lotSize * quantity;
  }

  lemma MarginRises(price: int, other: int, lotSize: int, quantity: int, leveraged: bool)
    requires price <= other && 0 <= lotSize && 0 <= quantity
    ensures MarginFor(price, lotSize, quantity, leveraged) <= MarginFor(other, lotSize, quantity, leveraged)
  {
    Units(price, other, lotSize, quantity);
    var parts := if leveraged then LEVERAGE_MULTIPLIER as real else 1.0;
    Rounding.HalfEvenMonotone((price * lotSize * quantity) as real / parts, (other * lotSize * quantity) as real / parts);
  }

  lemma OnePaisaMoreMargin(price: int, lotSize: int, quantity: int, leveraged: bool)
    requires 20 <= lotSize && 0 < quantity
    ensures MarginFor(price, lotSize, quantity, leveraged) < MarginFor(price + 1, lotSize, quantity, leveraged)
  {
    OneMoreOfEach(price, lotSize, quantity);
    MoreIsMore(price * lotSize * quantity, (price + 1) * lotSize * quantity, if leveraged then 5.0 else 1.0);
  }

  lemma OneMoreOfEach(price: int, lotSize: int, quantity: int)
    requires 20 <= lotSize && 0 < quantity
    ensures price * lotSize * quantity + 20 <= (price + 1) * lotSize * quantity
  {
    assert (price + 1) * lotSize * quantity == price * lotSize * quantity + lotSize * quantity;
    assert lotSize <= lotSize * quantity;
  }

  lemma MoreIsMore(value: int, more: int, parts: real)
    requires value + 20 <= more && (parts == 5.0 || parts == 1.0)
    ensures Rounding.HalfEven(value as real / parts) < Rounding.HalfEven(more as real / parts)
  {
  }

  // --- When a position can be closed ------------------------------------------

  /** What the owner has once the margin is back and the P&L applied. */
  function BalanceOnClosing(b: Book, o: Order, exit: int): int
    requires o.user < |b.accounts|
  {
    b.accounts[o.user].balance + HeldBy(o) + OrderNetPnl(o, exit)
  }

  lemma ExitPossibleIff(b: Book, user: nat, r: Reference, margin: int, net: int)
    requires user < |b.accounts| && 0 <= b.accounts[user].balance && 0 <= margin
    ensures PostExit(b, user, r, margin, net).Ok? <==> 0 <= b.accounts[user].balance + margin + net
  {
  }

  /** A user is meant to be able to close a position always. That is so while
      the market is open exactly unless the loss exceeds balance and margin. */
  lemma CloseOrderPossibleIff(b: Book, user: nat, i: nat, marketOpen: bool, exit: int, reason: ExitReason)
    requires Inv(b)
    ensures CloseOrder(b, user, i, marketOpen, exit, reason).Ok?
            <==> && marketOpen
                 && i < |b.orders| && b.orders[i].user == user < |b.accounts|
                 && b.orders[i].status.Open?
                 && 0 <= BalanceOnClosing(b, b.orders[i], exit)
  {
    if marketOpen && i < |b.orders| && b.orders[i].user == user && b.orders[i].status.Open? {
      var o := b.orders[i];
      assert AccountOk(b.accounts[user]) && TrailOk(b, user, VIRTUAL_ORDER(i));
      BalanceIsSumOfRows(b.accounts[user]);
      ExitPossibleIff(b.(orders := b.orders[i := ClosedOrder(o, exit, reason)]), user, VIRTUAL_ORDER(i), HeldBy(o),
                      OrderNetPnl(o, exit));
    }
  }
}
