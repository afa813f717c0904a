/** What each operation on a resting limit does to the row, the money and the
    rest of the book, and when it is allowed. */
module LimitOrders {
  import opened Wrappers
  import opened Domain
  import opened Ledger
  import opened Books
  import opened SingleOrders
  import opened PendingOrders
  import Costs

  /** The client's rupees to the nearest paisa, ties to the even one. */
  ghost predicate Quoted(paise: int, rupees: real) {
    && -0.5 <= paise as real - rupees * 100.0 <= 0.5
    && (paise as real - rupees * 100.0 in {-0.5, 0.5} ==> paise % 2 == 0)
  }

  ghost predicate QuotedIfAny(paise: Option<int>, rupees: Option<real>) {
    (paise.Some? <==> rupees.Some?) && (paise.Some? ==> Quoted(paise.value, rupees.value))
  }

  /** Field by field what the client asked for, the stop and the target to the
      paisa, intraday and untagged unless said otherwise. */
  ghost predicate AsAsked(t: Terms, intent: Intent) {
    && t.instrument == intent.instrument && t.expiry == intent.expiry && t.strike == intent.strike
    && t.kind == intent.kind && t.action == intent.action && t.quantity == intent.quantity && t.lotSize == intent.lotSize
    && t.product == (if intent.product.Some? then intent.product.value else INTRADAY)
    && QuotedIfAny(t.slPrice, intent.slPrice) && QuotedIfAny(t.targetPrice, intent.targetPrice)
    && t.setupTag == (if intent.setupTag.Some? && intent.setupTag.value != "" then intent.setupTag.value else "OTHER")
  }

  lemma QuotedIsMoney(paise: int, rupees: real)
    ensures Quoted(paise, rupees) <==> paise == Money(rupees)
  {
  }

  lemma AsAskedIff(t: Terms, intent: Intent)
    ensures AsAsked(t, intent) <==> t == TermsOf(intent)
  {
    if intent.slPrice.Some? {
      QuotedIsMoney(t.slPrice.GetOr(0), intent.slPrice.value);
    }
    if intent.targetPrice.Some? {
      QuotedIsMoney(t.targetPrice.GetOr(0), intent.targetPrice.value);
    }
  }

  /** A new placement rests on the client's terms and takes its reservation, and
      nothing else, from the owner. */
  lemma PlacementReserves(b: Book, user: nat, intent: Intent, m: Market, day: int, after: Book, i: nat)
    requires PlacePending(b, user, intent, m, day) == Ok((after, i)) && i == |b.pendings|
    ensures |after.pendings| == |b.pendings| + 1 && after.pendings[..i] == b.pendings
    ensures user < |b.accounts| == |after.accounts|
    ensures var p := after.pendings[i];
            && p.user == user && p.clientId == intent.clientId && p.status == Pending && p.tradingDay == day
            && AsAsked(p.terms, intent) && Quoted(p.limitPrice, intent.limitPrice) && 0 < p.limitPrice
            && p.filledOrder.None? && p.fillPrice.None?
            && 0 < p.marginBlocked == MarginFor(p.limitPrice, intent.lotSize, intent.quantity, m.leveraged)
            && after.accounts[user].balance == b.accounts[user].balance - p.marginBlocked
    ensures forall v :: 0 <= v < |b.accounts| && v != user ==> after.accounts[v] == b.accounts[v]
    ensures after.orders == b.orders && after.strategies == b.strategies
  {
    AsAskedIff(after.pendings[i].terms, intent);
    QuotedIsMoney(after.pendings[i].limitPrice, intent.limitPrice);
  }

  /** The last limit of the user under a client id. */
  ghost predicate ParkedBefore(pendings: seq<PendingOrder>, user: nat, clientId: Option<nat>, k: nat) {
    && clientId.Some? && k < |pendings| && pendings[k].user == user && pendings[k].clientId == clientId
    && forall l :: k < l < |pendings| ==> pendings[l].user != user || pendings[l].clientId != clientId
  }

  lemma {:induction false} FindsTheLastParked(pendings: seq<PendingOrder>, user: nat, clientId: Option<nat>, k: nat)
    ensures ParkedBefore(pendings, user, clientId, k) <==> FindPending(pendings, user, clientId) == Some(k)
  {
    if clientId.Some? && pendings != [] {
      var n := |pendings| - 1;
      if pendings[n].user != user || pendings[n].clientId != clientId {
        FindsTheLastParked(pendings[..n], user, clientId, k);
        assert ParkedBefore(pendings, user, clientId, k) <==> ParkedBefore(pendings[..n], user, clientId, k);
      }
    }
  }

  /** A client id used before parks no second limit: asked for the same, the call
      returns the first, whatever became of it, and otherwise it conflicts. */
  lemma RetryConflictsIff(b: Book, user: nat, intent: Intent, m: Market, day: int, k: nat)
    requires m.open && user < |b.accounts| && ParkedBefore(b.pendings, user, intent.clientId, k)
    ensures PlacePending(b, user, intent, m, day)
            == if AsAsked(b.pendings[k].terms, intent) && Quoted(b.pendings[k].limitPrice, intent.limitPrice) then Ok((b, k))
               else Raise(IdempotencyConflict)
  {
    FindsTheLastParked(b.pendings, user, intent.clientId, k);
    AsAskedIff(b.pendings[k].terms, intent);
    QuotedIsMoney(b.pendings[k].limitPrice, intent.limitPrice);
  }

  /** When a limit under a fresh client id can be parked; `limit` is its price in
      paise and `margin` what that reserves. */
  lemma ParkingPossibleIff(b: Book, user: nat, intent: Intent, m: Market, day: int, limit: int, margin: int)
    requires forall k: nat :: !ParkedBefore(b.pendings, user, intent.clientId, k)
    requires Quoted(limit, intent.limitPrice) && margin == MarginFor(limit, intent.lotSize, intent.quantity, m.leveraged)
    ensures PlacePending(b, user, intent, m, day).Ok?
            <==> && m.open && user < |b.accounts| && m.ltp.Some? && !Forbidden(b.accounts[user], m)
                 && 0 < limit && 0 < intent.quantity && (intent.kind == CE || intent.kind == PE)
                 && (intent.action == BUY || intent.action == SELL)
                 && 0 < margin <= b.accounts[user].balance
  {
    forall k: nat
      ensures FindPending(b.pendings, user, intent.clientId) != Some(k)
    {
      FindsTheLastParked(b.pendings, user, intent.clientId, k);
    }
    QuotedIsMoney(limit, intent.limitPrice);
  }

  /** A limit can be withdrawn by its owner, while it rests, and always then. */
  lemma CancelPossibleIff(b: Book, user: nat, i: nat)
    requires Inv(b)
    ensures CancelPending(b, user, i).Ok? <==> i < |b.pendings| && b.pendings[i].user == user && b.pendings[i].status == Pending
  {
    if StillResting(b, i) && b.pendings[i].user == user {
      ReleaseSucceeds(b, i, b.pendings[i].(status := Cancelled, marginBlocked := 0));
    }
  }

  lemma CancelRefunds(b: Book, user: nat, i: nat, after: Book)
    requires CancelPending(b, user, i) == Ok(after)
    ensures i < |b.pendings| && user == b.pendings[i].user
    ensures after.pendings == b.pendings[i := b.pendings[i].(status := Cancelled, marginBlocked := 0)]
    ensures b.pendings[i].marginBlocked != 0 ==>
              user < |b.accounts| && after.accounts[user].balance == b.accounts[user].balance + b.pendings[i].marginBlocked
    ensures |after.accounts| == |b.accounts| && forall v :: 0 <= v < |b.accounts| && v != user ==> after.accounts[v] == b.accounts[v]
    ensures after.orders == b.orders && after.strategies == b.strategies
  {
  }

  /** Resting, and from a day before `before` if one is given. */
  predicate Due(p: PendingOrder, before: Option<int>) {
    p.status == Pending && match before case None => true case Some(day) => p.tradingDay < day
  }

  /** Expiry takes exactly the due orders out of the book. */
  lemma {:induction false} ExpiresExactlyTheDue(b: Book, i: nat, before: Option<int>, after: Book)
    requires i <= |b.pendings| && ExpireFrom(b, i, before) == Ok(after)
    ensures |after.pendings| == |b.pendings| && after.orders == b.orders && after.strategies == b.strategies
    ensures forall k :: 0 <= k < |b.pendings| ==>
              after.pendings[k] == if i <= k && Due(b.pendings[k], before) then b.pendings[k].(status := Expired, marginBlocked := 0)
                                   else b.pendings[k]
    decreases |b.pendings| - i
  {
    if i < |b.pendings| {
      if ExpiresNow(b.pendings[i], before) {
        ExpiresExactlyTheDue(ClosePending(b, i, Expired).value, i + 1, before, after);
      } else {
        ExpiresExactlyTheDue(b, i + 1, before, after);
      }
    }
  }

  /** What filling did: a client id used before is only linked; otherwise one
      order on the resting terms at the live fill, paid out of the reservation
      and the balance. */
  lemma FillSwapsTheReservation(b: Book, i: nat, m: Market, after: Book)
    requires FillOne(b, i, m) == Ok(after) && StillResting(b, i)
    ensures |after.pendings| == |b.pendings| && b.pendings[i].user < |b.accounts| == |after.accounts|
    ensures var p, q := b.pendings[i], after.pendings[i];
            && q.status == Filled && q.marginBlocked == 0 && q.terms == p.terms && q.limitPrice == p.limitPrice
            && q.filledOrder.Some? && q.filledOrder.value < |after.orders|
            && q.fillPrice == Some(after.orders[q.filledOrder.value].entryPrice)
    ensures var p, o := b.pendings[i], after.pendings[i].filledOrder.value;
            if o < |b.orders| then
              && after.orders == b.orders && b.orders[o].terms == p.terms
              && after.accounts[p.user].balance == b.accounts[p.user].balance + p.marginBlocked
            else
              && o == |b.orders| && after.orders[..o] == b.orders && |after.orders| == o + 1
              && after.orders[o].terms == p.terms && after.orders[o].user == p.user && after.orders[o].clientId == p.clientId
              && after.orders[o].terms.slPrice == p.terms.slPrice && after.orders[o].terms.targetPrice == p.terms.targetPrice
              && after.orders[o].entryPrice == m.fill && after.orders[o].status.Open?
              && after.orders[o].position == Position(MarginOf(p.terms, m), true)
              && after.orders[o].entryBrokerage == BrokerageOf(p.terms, m)
              && after.accounts[p.user].balance
                 == b.accounts[p.user].balance + p.marginBlocked - MarginOf(p.terms, m) - BrokerageOf(p.terms, m)
    ensures forall k :: 0 <= k < |b.pendings| && k != i ==> after.pendings[k] == b.pendings[k]
    ensures forall v :: 0 <= v < |b.accounts| && v != b.pendings[i].user ==> after.accounts[v] == b.accounts[v]
    ensures after.strategies == b.strategies
  {
    var p := b.pendings[i];
    var b1 := Release(b, i, p.(marginBlocked := 0)).value;
    var (b2, o) := PlaceOrder(b1, p.user, p.clientId, p.terms, m).value;
    PlacedOrderIs(b1, p.user, p.clientId, p.terms, m, b2, o);
  }

  /** From the client's words to the live order: parked and then filled anew, it
      is what was asked for, stop and target included, at the market's fill. */
  lemma FilledAsAsked(b: Book, user: nat, intent: Intent, m: Market, day: int, parked: Book, i: nat, live: Market, after: Book)
    requires PlacePending(b, user, intent, m, day) == Ok((parked, i)) && i == |b.pendings|
    requires FillOne(parked, i, live) == Ok(after)
    ensures i < |after.pendings| && after.pendings[i].filledOrder.Some?
    ensures var o := after.pendings[i].filledOrder.value;
            o >= |b.orders| ==>
              && o < |after.orders| && after.orders[o].user == user && after.orders[o].clientId == intent.clientId
              && AsAsked(after.orders[o].terms, intent) && after.orders[o].entryPrice == live.fill
  {
    PlacementReserves(b, user, intent, m, day, parked, i);
    FillSwapsTheReservation(parked, i, live, after);
  }

  // --- Only at the limit ----------------------------------------------------------

  /** A quote at or through the limit. */
  ghost predicate AtOrThrough(p: PendingOrder, quote: int) {
    && (p.terms.action == BUY ==> quote <= p.limitPrice)
    && (p.terms.action == SELL ==> p.limitPrice <= quote)
  }

  lemma {:induction false} LeftOnlyByATrigger(b: Book, ticks: seq<Tick>, i: nat) returns (k: nat)
    requires StillResting(b, i) && !StillResting(Sweep(b, ticks), i)
    ensures k < |ticks| && ticks[k].id == i && ticks[k].quote.Some? && AtOrThrough(b.pendings[i], ticks[k].quote.value)
    decreases |ticks|
  {
    var (mid, verdict) := SweepStep(b, ticks[0]);
    SweepTouchesOne(b, ticks[0], i);
    if mid.pendings[i] != b.pendings[i] {
      AttemptedIsTriggered(b, ticks[0]);
      k := 0;
    } else {
      k := LeftOnlyByATrigger(mid, ticks[1..], i);
      k := k + 1;
    }
  }

  lemma AttemptedIsTriggered(b: Book, tick: Tick)
    requires Attempted(b, tick)
    ensures tick.quote.Some? && AtOrThrough(b.pendings[tick.id], tick.quote.value)
  {
  }

  lemma SweepTouchesOne(b: Book, tick: Tick, i: nat)
    requires StillResting(b, i)
    ensures i < |SweepStep(b, tick).0.pendings|
    ensures SweepStep(b, tick).0.pendings[i] != b.pendings[i] ==> Attempted(b, tick) && tick.id == i
  {
    if StillResting(b, tick.id) {
      match FillOne(b, tick.id, tick.market)
      case Ok(after) =>
        var p := b.pendings[tick.id];
        var b1 := Release(b, tick.id, p.(marginBlocked := 0)).value;
        var (b2, o) := PlaceOrder(b1, p.user, p.clientId, p.terms, tick.market).value;
        PlacedOrderIs(b1, p.user, p.clientId, p.terms, tick.market, b2, o);
      case Raise(_) =>
    }
  }

  /** No sweep takes a limit out of the book the market has not reached: it
      attempts a BUY only on a quote at its limit or below, a SELL only on one
      at its limit or above. What it then fills at is another matter. */
  lemma TriggersOnlyAtTheLimit(b: Book, ticks: seq<Tick>, i: nat)
    requires StillResting(b, i) && !StillResting(Sweep(b, ticks), i)
    ensures exists k :: 0 <= k < |ticks| && ticks[k].id == i && ticks[k].quote.Some?
                        && AtOrThrough(b.pendings[i], ticks[k].quote.value)
  {
    var k := LeftOnlyByATrigger(b, ticks, i);
  }

  // --- What a triggered limit fills at ----------------------------------------------

  /** The order is placed at a fresh quote, slipped by some draw. */
  ghost predicate Slipped(m: Market, action: Action, draw: real) {
    && m.ltp.Some? && 0 <= m.ltp.value && 0.0 <= draw
    && m.fill == Costs.CalculateSlippage(m.ltp.value as real, action, draw).fill
  }

  /** The fill made an order, rather than linking the client id's earlier one. */
  ghost predicate FilledAnew(b: Book, i: nat, m: Market, after: Book) {
    && StillResting(b, i) && FillOne(b, i, m) == Ok(after)
    && i < |after.pendings| && after.pendings[i].filledOrder == Some(|b.orders|)
  }

  lemma FillIsTheMarkets(b: Book, i: nat, m: Market, after: Book)
    requires FilledAnew(b, i, m, after)
    ensures after.pendings[i].fillPrice == Some(m.fill) && |after.orders| == |b.orders| + 1
    ensures var p, o := b.pendings[i], after.orders[|b.orders|];
            && Storable(p.terms)
            && o.position == Position(MarginFor(m.fill, p.terms.lotSize, p.terms.quantity, m.leveraged), true)
  {
  }

  /** A BUY limit fills at its price or better exactly when the fresh quote and
      its slippage do not exceed it, and that is also exactly when the margin of
      the order is no more than was reserved for it. */
  lemma BuyFillsWithinItsLimitIff(b: Book, i: nat, m: Market, draw: real, after: Book)
    requires FilledAnew(b, i, m, after) && b.pendings[i].terms.action == BUY && Slipped(m, BUY, draw)
    requires 20 <= b.pendings[i].terms.lotSize
    ensures var p, points := b.pendings[i], Costs.CalculateSlippage(m.ltp.value as real, BUY, draw).points;
            && after.pendings[i].fillPrice == Some(m.fill)
            && (m.fill <= p.limitPrice <==> m.ltp.value + points <= p.limitPrice)
    ensures var p := b.pendings[i];
            |after.orders| == |b.orders| + 1 && after.orders[|b.orders|].position.Position?
            && (after.orders[|b.orders|].position.marginBlocked
                <= MarginFor(p.limitPrice, p.terms.lotSize, p.terms.quantity, m.leveraged)
                <==> m.fill <= p.limitPrice)
  {
    var p := b.pendings[i];
    FillIsTheMarkets(b, i, m, after);
    Costs.WholeQuotesFillExactly(m.ltp.value, draw);
    MarginFollowsPrice(m.fill, p.limitPrice, p.terms.lotSize, p.terms.quantity, m.leveraged);
  }

  /** A SELL limit fills at its price or better exactly when the quote less its
      slippage, or the one tick it never goes below, is not less than it. */
  lemma SellFillsWithinItsLimitIff(b: Book, i: nat, m: Market, draw: real, after: Book)
    requires FilledAnew(b, i, m, after) && b.pendings[i].terms.action == SELL && Slipped(m, SELL, draw)
    ensures var p, points := b.pendings[i], Costs.CalculateSlippage(m.ltp.value as real, SELL, draw).points;
            && after.pendings[i].fillPrice == Some(m.fill)
            && (p.limitPrice <= m.fill <==> p.limitPrice <= m.ltp.value - points || p.limitPrice <= Costs.TICK)
  {
    FillIsTheMarkets(b, i, m, after);
    Costs.WholeQuotesFillExactly(m.ltp.value, draw);
  }

  /** What the reservation holds for each paisa of a price gap. */
  function Share(leveraged: bool): int {
    if leveraged then LEVERAGE_MULTIPLIER else 1
  }

  lemma MarginGap(limit: int, fill: int, lotSize: int, quantity: int, leveraged: bool)
    requires lotSize % 5 == 0
    ensures (MarginFor(limit, lotSize, quantity, leveraged) - MarginFor(fill, lotSize, quantity, leveraged)) * Share(leveraged)
            == (limit - fill) * (lotSize * quantity)
  {
    MarginIsExact(limit, lotSize, quantity, leveraged);
    MarginIsExact(fill, lotSize, quantity, leveraged);
    assert (limit - fill) * (lotSize * quantity) == limit * (lotSize * quantity) - fill * (lotSize * quantity);
  }

  /** Every instrument's lot is a multiple of five, so its margins are exact. */
  lemma MarginIsExact(price: int, lotSize: int, quantity: int, leveraged: bool)
    requires lotSize % 5 == 0
    ensures MarginFor(price, lotSize, quantity, leveraged) * Share(leveraged) == price * (lotSize * quantity)
  {
    var fifth := price * (lotSize / 5) * quantity;
    assert lotSize == 5 * (lotSize / 5);
    assert price * lotSize * quantity == 5 * fifth;
    assert price * (lotSize * quantity) == price * lotSize * quantity;
    var gross := (price * lotSize * quantity) as real;
    if leveraged {
      assert gross / 5.0 == fifth as real;
    }
  }

  lemma FillBalance(b: Book, i: nat, m: Market, after: Book)
    requires FilledAnew(b, i, m, after) && b.pendings[i].marginBlocked != 0
    ensures var p := b.pendings[i];
            && p.user < |b.accounts| && p.user < |after.accounts|
            && after.accounts[p.user].balance
               == b.accounts[p.user].balance + p.marginBlocked
                  - MarginFor(m.fill, p.terms.lotSize, p.terms.quantity, m.leveraged)
                  - BrokerageOn(m.fill, p.terms.quantity, p.terms.lotSize, p.terms.action)
  {
    var p := b.pendings[i];
    var b1 := Release(b, i, p.(marginBlocked := 0)).value;
    var (b2, o) := PlaceOrder(b1, p.user, p.clientId, p.terms, m).value;
    PlacedOrderIs(b1, p.user, p.clientId, p.terms, m, b2, o);
    FillIsTheMarkets(b, i, m, after);
  }

  /** A fill takes nothing from the balance beyond its reservation exactly when
      the fill undercuts the limit by so much that the gap, over all units and
      five times for a leveraged one, pays the entry brokerage. */
  lemma ReservationCoversTheFillIff(b: Book, i: nat, m: Market, after: Book)
    requires FilledAnew(b, i, m, after) && b.pendings[i].terms.lotSize % 5 == 0
    requires b.pendings[i].marginBlocked
             == MarginFor(b.pendings[i].limitPrice, b.pendings[i].terms.lotSize, b.pendings[i].terms.quantity, m.leveraged) != 0
    ensures var p := b.pendings[i];
            && p.user < |b.accounts| && p.user < |after.accounts|
            && (b.accounts[p.user].balance <= after.accounts[p.user].balance
                <==> Share(m.leveraged) * BrokerageOn(m.fill, p.terms.quantity, p.terms.lotSize, p.terms.action)
                     <= (p.limitPrice - m.fill) * (p.terms.lotSize * p.terms.quantity))
  {
    var p := b.pendings[i];
    FillBalance(b, i, m, after);
    MarginGap(p.limitPrice, m.fill, p.terms.lotSize, p.terms.quantity, m.leveraged);
  }
}
