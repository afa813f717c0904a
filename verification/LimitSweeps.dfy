/** What one sweep comes to for each order it scans, from the quote, the market
    and the owner's account alone. */
module LimitSweeps {
  import opened Wrappers
  import opened Domain
  import opened Ledger
  import opened Books
  import opened SingleOrders
  import opened PendingOrders
  import opened LimitOrders
  import Desk

  /** The order rests, and the scan's quote is as good as its limit: for a BUY no
      higher, otherwise no lower. */
  ghost predicate Reached(b: Book, tick: Tick) {
    && tick.id < |b.pendings| && b.pendings[tick.id].status == Pending && tick.quote.Some?
    && if b.pendings[tick.id].terms.action == BUY then tick.quote.value <= b.pendings[tick.id].limitPrice
       else b.pendings[tick.id].limitPrice <= tick.quote.value
  }

  /** The client id already made an order, on these terms or on others. */
  ghost predicate MadeAlready(b: Book, p: PendingOrder) {
    exists k: nat :: MadeBefore(b.orders, p.user, p.clientId, k)
  }

  ghost predicate MadeOnTheseTerms(b: Book, p: PendingOrder) {
    exists k: nat :: MadeBefore(b.orders, p.user, p.clientId, k) && b.orders[k].terms == p.terms
  }

  /** A new order can be placed: quoted, allowed, fit for the columns, and paid
      for out of the balance and the order's own reservation. */
  ghost predicate CanBePlaced(b: Book, p: PendingOrder, m: Market)
    requires p.user < |b.accounts|
  {
    && m.ltp.Some? && !Forbidden(b.accounts[p.user], m) && FitsTheColumns(p.terms)
    && Affordable(p.terms, m, b.accounts[p.user].balance + p.marginBlocked)
  }

  ghost predicate MustBeRefused(b: Book, p: PendingOrder, m: Market)
    requires p.user < |b.accounts|
  {
    m.ltp.None? || Forbidden(b.accounts[p.user], m) || Short(p.terms, m, b.accounts[p.user].balance + p.marginBlocked)
  }

  /** The book with the reservation given back. */
  lemma ReleasedIs(b: Book, i: nat, p: PendingOrder, b1: Book)
    requires Inv(b) && i < |b.pendings| && p == b.pendings[i] && p.status == Pending
    requires Release(b, i, p.(marginBlocked := 0)) == Ok(b1)
    ensures p.user < |b.accounts| == |b1.accounts| && b1.orders == b.orders && b1.strategies == b.strategies
    ensures b1.accounts[p.user].balance == b.accounts[p.user].balance + p.marginBlocked
    ensures b1.accounts[p.user].disciplineOn == b.accounts[p.user].disciplineOn
  {
    assert TrailOk(b, p.user, PENDING_ORDER(i));
  }

  /** What filling comes to once the reservation is back. */
  lemma FillingIs(b: Book, i: nat, m: Market, p: PendingOrder)
    requires Inv(b) && i < |b.pendings| && p == b.pendings[i] && p.status == Pending
    ensures var filled := FillOne(b, i, m);
            && p.user < |b.accounts|
            && (!m.open ==> filled == Raise(MarketClosed))
            && (m.open ==>
                  && (filled.Ok? <==> if MadeAlready(b, p) then MadeOnTheseTerms(b, p) else CanBePlaced(b, p, m))
                  && (filled.Raise? && Refusal(filled.error) <==> !MadeAlready(b, p) && MustBeRefused(b, p, m))
                  && filled != Raise(MarketClosed))
  {
    ReleaseSucceeds(b, i, p.(marginBlocked := 0));
    var b1 := Release(b, i, p.(marginBlocked := 0)).value;
    ReleasedIs(b, i, p, b1);
    assert FillOne(b, i, m).Ok? <==> PlaceOrder(b1, p.user, p.clientId, p.terms, m).Ok?;
    assert FillOne(b, i, m).Raise? ==> PlaceOrder(b1, p.user, p.clientId, p.terms, m) == Raise(FillOne(b, i, m).error);
    if m.open {
      PlacingAfterRelease(b, b1, p, m);
    }
  }

  lemma PlacingAfterRelease(b: Book, b1: Book, p: PendingOrder, m: Market)
    requires m.open && p.user < |b.accounts| == |b1.accounts| && b1.orders == b.orders
    requires b1.accounts[p.user].balance == b.accounts[p.user].balance + p.marginBlocked
    requires b1.accounts[p.user].disciplineOn == b.accounts[p.user].disciplineOn
    ensures var placed := PlaceOrder(b1, p.user, p.clientId, p.terms, m);
            && (placed.Ok? <==> if MadeAlready(b, p) then MadeOnTheseTerms(b, p) else CanBePlaced(b, p, m))
            && (placed.Raise? && Refusal(placed.error) <==> !MadeAlready(b, p) && MustBeRefused(b, p, m))
            && placed != Raise(MarketClosed)
  {
    if MadeAlready(b, p) {
      var k: nat :| MadeBefore(b.orders, p.user, p.clientId, k);
      RepeatedIdMakesNoSecondOrder(b1, p.user, p.clientId, p.terms, m, k);
      assert forall l: nat :: MadeBefore(b.orders, p.user, p.clientId, l) ==> l == k;
    } else {
      assert !Repeats(b1, p.user, p.clientId);
      PlacingIs(b1, p.user, p.clientId, p.terms, m);
    }
  }

  /** Rejected, with the reservation back and nothing else moved. */
  ghost predicate GivenBack(b: Book, i: nat, p: PendingOrder, after: Book)
    requires i < |b.pendings| && p.user < |b.accounts|
  {
    && after.pendings == b.pendings[i := p.(status := Rejected, marginBlocked := 0)]
    && after.orders == b.orders && after.strategies == b.strategies && |after.accounts| == |b.accounts|
    && after.accounts[p.user].balance == b.accounts[p.user].balance + p.marginBlocked
    && forall v :: 0 <= v < |b.accounts| && v != p.user ==> after.accounts[v] == b.accounts[v]
  }

  lemma RejectionGivesBack(b: Book, i: nat, p: PendingOrder, after: Book)
    requires Inv(b) && i < |b.pendings| && p == b.pendings[i] && p.status == Pending
    requires ClosePending(b, i, Rejected) == Ok(after)
    ensures p.user < |b.accounts| && GivenBack(b, i, p, after)
  {
    assert TrailOk(b, p.user, PENDING_ORDER(i));
  }

  lemma SweepOfOne(b: Book, tick: Tick)
    ensures Sweep(b, [tick]) == SweepStep(b, tick).0
  {
    assert [tick][1..] == [];
  }

  /** A limit that rests is taken out of the book by its tick exactly when the
      quote has reached it, the market is open and placing says yes or no: filled
      when its client id made this very order before or a new one can be placed,
      rejected when placing refuses it, and left resting otherwise. */
  lemma ReachedLimitOutcome(b: Book, tick: Tick, after: Book, p: PendingOrder)
    requires Inv(b) && Reached(b, tick) && p == b.pendings[tick.id] && after == Sweep(b, [tick])
    ensures tick.id < |after.pendings| && p.user < |b.accounts|
    ensures var now, m := after.pendings[tick.id].status, tick.market;
            && (now == Filled <==> m.open && if MadeAlready(b, p) then MadeOnTheseTerms(b, p) else CanBePlaced(b, p, m))
            && (now == Rejected <==> m.open && !MadeAlready(b, p) && MustBeRefused(b, p, m))
            && (now != Filled && now != Rejected ==> after == b)
            && (now == Filled ==> FillOne(b, tick.id, m) == Ok(after))
    ensures after.pendings[tick.id].status == Rejected ==> GivenBack(b, tick.id, p, after)
  {
    SweepOfOne(b, tick);
    FillingIs(b, tick.id, tick.market, p);
    assert Attempted(b, tick);
    var filled := FillOne(b, tick.id, tick.market);
    if filled.Ok? {
      FillSwapsTheReservation(b, tick.id, tick.market, filled.value);
    } else if filled.error != MarketClosed && Refusal(filled.error) {
      ReleaseSucceeds(b, tick.id, p.(status := Rejected, marginBlocked := 0));
      RejectionGivesBack(b, tick.id, p, ClosePending(b, tick.id, Rejected).value);
    }
  }

  /** Any other tick changes nothing at all. */
  lemma UnreachedChangesNothing(b: Book, tick: Tick)
    requires !Reached(b, tick)
    ensures Sweep(b, [tick]) == b
  {
    SweepOfOne(b, tick);
  }

  /** A sweep is its ticks one after the other, and ends early exactly at a limit
      that is reached with the market closed. */
  lemma SweepIsItsTicks(b: Book, tick: Tick, rest: seq<Tick>)
    requires Inv(b)
    ensures Sweep(b, [tick] + rest) == if Reached(b, tick) && !tick.market.open then b else Sweep(Sweep(b, [tick]), rest)
  {
    SweepOfOne(b, tick);
    assert ([tick] + rest)[1..] == rest;
    if Reached(b, tick) {
      FillingIs(b, tick.id, tick.market, b.pendings[tick.id]);
    }
  }

  /** The owner, and nobody else, is told of a fill or a rejection when it
      happens, and of nothing when neither does. */
  lemma OwnerIsToldIff(b: Book, tick: Tick, after: Book, told: seq<Desk.Event>)
    requires Inv(b) && Reached(b, tick) && after == Sweep(b, [tick]) && told == Desk.SweepEvents(b, [tick])
    ensures tick.id < |after.pendings|
    ensures forall user, notice :: Desk.Told(user, notice) in told <==>
              && user == b.pendings[tick.id].user
              && after.pendings[tick.id].status == (if notice == Desk.LimitFilled then Filled else Rejected)
  {
    var p := b.pendings[tick.id];
    assert [tick][1..] == [];
    ReachedLimitOutcome(b, tick, after, p);
    FillingIs(b, tick.id, tick.market, p);
    AttemptSweeps(b, tick);
    var step := Desk.StepEvents(b, tick);
    assert told == step + [];
  }
}
