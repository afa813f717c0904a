/** pending_order_service.py: resting LIMIT orders. A reservation leaves the
    balance when the order is placed and comes back the moment it leaves the
    book, whichever way it leaves. */
module PendingOrders {
  import opened Wrappers
  import opened Domain
  import opened Ledger
  import opened Books
  import opened SingleOrders
  import Rounding

  /** What a client sends; prices in rupees, not yet at two decimals. */
  datatype Intent = Intent(
    clientId: Option<nat>,
    instrument: string,
    expiry: int,
    strike: real,
    kind: Kind,
    action: Action,
    quantity: int,
    lotSize: int,
    product: Option<Product>,
    limitPrice: real,
    slPrice: Option<real>,
    targetPrice: Option<real>,
    setupTag: Option<string>)

  function Money(rupees: real): int {
    Rounding.HalfEven(rupees * 100.0)
  }

  function OptionalMoney(rupees: Option<real>): Option<int> {
    match rupees
    case None => None
    case Some(value) => Some(Money(value))
  }

  function TermsOf(intent: Intent): Terms {
    Terms(intent.instrument, intent.expiry, intent.strike, intent.kind, intent.action, intent.quantity, intent.lotSize,
          intent.product.GetOr(INTRADAY), OptionalMoney(intent.slPrice), OptionalMoney(intent.targetPrice),
          if intent.setupTag.None? || intent.setupTag.value == "" then "OTHER" else intent.setupTag.value)
  }

  /** A retry must repeat every resting term. */
  predicate MatchesPayload(p: PendingOrder, intent: Intent) {
    p.terms == TermsOf(intent) && p.limitPrice == Money(intent.limitPrice)
  }

  function FindPending(pendings: seq<PendingOrder>, user: nat, clientId: Option<nat>): (i: Option<nat>)
    ensures i.Some? ==> i.value < |pendings| && pendings[i.value].user == user && pendings[i.value].clientId == clientId
    ensures i.None? && clientId.Some? ==>
              forall k :: 0 <= k < |pendings| ==> pendings[k].user != user || pendings[k].clientId != clientId
  {
    if clientId.None? || pendings == [] then None
    else
      var n := |pendings| - 1;
      if pendings[n].user == user && pendings[n].clientId == clientId then Some(n)
      else FindPending(pendings[..n], user, clientId)
  }

  function NewPending(user: nat, intent: Intent, m: Market, day: int): PendingOrder {
    var limit := Money(intent.limitPrice);
    PendingOrder(user, intent.clientId, TermsOf(intent), limit, Pending,
                 MarginFor(limit, intent.lotSize, intent.quantity, m.leveraged), day, None, None)
  }

  /** Add the row, then block its margin. */
  function Reserve(b: Book, p: PendingOrder): Outcome<Book> {
    PostTo(b.(pendings := b.pendings + [p]), p.user, TRADE_DEBIT, -p.marginBlocked, PENDING_ORDER(|b.pendings|), Margin)
  }

  /** Returns the book and the number of the resting order, new or replayed. */
  function PlacePending(b: Book, user: nat, intent: Intent, m: Market, day: int): Outcome<(Book, nat)> {
    if !m.open then Raise(MarketClosed)
    else if user >= |b.accounts| then Raise(NoAccount)
    else
      var existing := FindPending(b.pendings, user, intent.clientId);
      if existing.Some? then
        if MatchesPayload(b.pendings[existing.value], intent) then Ok((b, existing.value)) else Raise(IdempotencyConflict)
      else if m.ltp.None? then Raise(QuoteUnavailable)
      else if b.accounts[user].disciplineOn && m.violates then Raise(DisciplineViolation)
      else
        var p := NewPending(user, intent, m, day);
        if b.accounts[user].balance < p.marginBlocked then Raise(InsufficientBalance)
        else if !Storable(p.terms) || p.limitPrice <= 0 then Raise(ConstraintViolated)
        else
          var parked :- Reserve(b, p);
          Ok((parked, |b.pendings|))
  }

  /** Put `p` in place of resting order `i` and give the reservation back. */
  function Release(b: Book, i: nat, p: PendingOrder): Outcome<Book>
    requires i < |b.pendings|
  {
    var reserved := b.pendings[i].marginBlocked;
    var b1 := b.(pendings := b.pendings[i := p]);
    if reserved == 0 then Ok(b1)
    else PostTo(b1, b.pendings[i].user, REFUND, reserved, PENDING_ORDER(i), Margin)
  }

  function ClosePending(b: Book, i: nat, status: PendingStatus): Outcome<Book>
    requires i < |b.pendings|
  {
    Release(b, i, b.pendings[i].(status := status, marginBlocked := 0))
  }

  function CancelPending(b: Book, user: nat, i: nat): Outcome<Book> {
    if i >= |b.pendings| || b.pendings[i].user != user then Raise(NotFound)
    else if !b.pendings[i].status.Pending? then Raise(NotCancellable)
    else ClosePending(b, i, Cancelled)
  }

  predicate StillResting(b: Book, i: nat) {
    i < |b.pendings| && b.pendings[i].status.Pending?
  }

  /** Refund the reservation, place the real order at the live price, and only
      then mark the row FILLED. An order no longer resting is left alone. */
  function FillOne(b: Book, i: nat, m: Market): Outcome<Book> {
    if !StillResting(b, i) then Ok(b)
    else
      var p := b.pendings[i];
      var b1 :- Release(b, i, p.(marginBlocked := 0));
      var placed :- PlaceOrder(b1, p.user, p.clientId, p.terms, m);
      var (b2, o) := placed;
      Ok(b2.(pendings := b2.pendings[i := p.(
        status := Filled, marginBlocked := 0, filledOrder := Some(o),
        fillPrice := if o < |b2.orders| then Some(b2.orders[o].entryPrice) else None)]))
  }

  function RejectOne(b: Book, i: nat): Outcome<Book> {
    if !StillResting(b, i) then Ok(b) else ClosePending(b, i, Rejected)
  }

  predicate ExpiresNow(p: PendingOrder, before: Option<int>) {
    p.status.Pending? && (before.None? || p.tradingDay < before.value)
  }

  /** One transaction for the whole book, or for days before `before`. */
  function ExpireFrom(b: Book, i: nat, before: Option<int>): Outcome<Book>
    requires i <= |b.pendings|
    decreases |b.pendings| - i
  {
    if i == |b.pendings| then Ok(b)
    else if !ExpiresNow(b.pendings[i], before) then ExpireFrom(b, i + 1, before)
    else
      var b1 :- ClosePending(b, i, Expired);
      ExpireFrom(b1, i + 1, before)
  }

  // --- The fill sweep --------------------------------------------------------

  /** A BUY wants to pay no more than the limit, a SELL to receive no less. */
  predicate IsTriggered(p: PendingOrder, ltp: int) {
    if p.terms.action == BUY then ltp <= p.limitPrice else ltp >= p.limitPrice
  }

  /** One order of the scan: the quote the scan saw, if any, and what placing
      the real order will then find. */
  datatype Tick = Tick(id: nat, quote: Option<int>, market: Market)

  datatype Verdict = Untouched | Committed | Refused | Failed | Stopped

  predicate Refusal(e: Error) {
    e == DisciplineViolation || e == InsufficientBalance || e == QuoteUnavailable
  }

  /** One order's transaction: commit, or roll back and record the refusal, or
      roll back and leave it resting. Stopped ends the sweep. */
  function Attempt(b: Book, tick: Tick): (Book, Verdict) {
    match FillOne(b, tick.id, tick.market)
    case Ok(after) => (after, Committed)
    case Raise(error) =>
      if error == MarketClosed then (b, Stopped)
      else if !Refusal(error) then (b, Failed)
      else match RejectOne(b, tick.id)
        case Ok(after) => (after, Refused)
        case Raise(_) => (b, Failed)
  }

  predicate Attempted(b: Book, tick: Tick) {
    tick.id < |b.pendings| && tick.quote.Some? && IsTriggered(b.pendings[tick.id], tick.quote.value)
  }

  function SweepStep(b: Book, tick: Tick): (Book, Verdict) {
    if Attempted(b, tick) then Attempt(b, tick) else (b, Untouched)
  }

  /** The whole sweep, order after order. */
  function Sweep(b: Book, ticks: seq<Tick>): Book
    decreases |ticks|
  {
    if ticks == [] then b
    else
      var (after, verdict) := SweepStep(b, ticks[0]);
      if verdict == Stopped then after else Sweep(after, ticks[1..])
  }

  // --- Preservation ----------------------------------------------------------

  lemma AppendedPendingHolds(b: Book, after: Book, p: PendingOrder)
    requires after == b.(accounts := after.accounts, pendings := b.pendings + [p])
    ensures HoldsShift(b, after, p.user, -p.marginBlocked)
  {
    forall v: nat | v < |b.accounts| {
      SumByAppend(b.pendings, p, PendingHold(v));
    }
  }

  lemma UpdatedPendingHolds(b: Book, after: Book, i: nat, p: PendingOrder)
    requires i < |b.pendings| && p.user == b.pendings[i].user
    requires after == b.(accounts := after.accounts, pendings := b.pendings[i := p])
    ensures HoldsShift(b, after, p.user, b.pendings[i].marginBlocked - p.marginBlocked)
  {
    forall v: nat | v < |b.accounts| {
      SumByUpdate(b.pendings, i, p, PendingHold(v));
    }
  }

  lemma AppendedPendingTouches(b: Book, after: Book, p: PendingOrder, r: Reference)
    requires OwnersExist(b) && ClientIdsUnique(b) && p.user < |b.accounts| == |after.accounts|
    requires FindPending(b.pendings, p.user, p.clientId).None?
    requires after == b.(accounts := after.accounts, pendings := b.pendings + [p]) && r == PENDING_ORDER(|b.pendings|)
    ensures Touches(b, after, p.user, r)
  {
  }

  lemma UpdatedPendingTouches(b: Book, after: Book, i: nat, p: PendingOrder, r: Reference)
    requires OwnersExist(b) && ClientIdsUnique(b) && |b.accounts| == |after.accounts|
    requires i < |b.pendings| && SameClientId(p, b.pendings[i]) && r == PENDING_ORDER(i)
    requires after == b.(accounts := after.accounts, pendings := b.pendings[i := p])
    ensures Touches(b, after, p.user, r)
  {
    assert forall k :: 0 <= k < |b.pendings| ==> SameClientId(after.pendings[k], b.pendings[k]);
    assert forall k, l :: 0 <= k < l < |b.pendings| && SameClientId(after.pendings[k], after.pendings[l])
             ==> SameClientId(b.pendings[k], b.pendings[l]);
  }

  lemma ReserveKeeps(b: Book, p: PendingOrder, after: Book)
    requires Inv(b) && p.status.Pending? && FindPending(b.pendings, p.user, p.clientId).None?
    requires Reserve(b, p) == Ok(after)
    ensures Inv(after)
  {
    var b0, r, debit := b.(pendings := b.pendings + [p]), PENDING_ORDER(|b.pendings|), -p.marginBlocked;
    var amounts := [debit];
    AboutPost(b0, after, p.user, TRADE_DEBIT, debit, r, Margin, amounts, debit);
    ParkedKeeps(b, after, p, r, amounts, debit);
  }

  lemma ParkedKeeps(b: Book, after: Book, p: PendingOrder, r: Reference, amounts: seq<int>, debit: int)
    requires Inv(b) && p.status.Pending? && FindPending(b.pendings, p.user, p.clientId).None? && p.user < |b.accounts|
    requires debit == -p.marginBlocked < 0 && amounts == [debit] && r == PENDING_ORDER(|b.pendings|)
    requires after == b.(accounts := after.accounts, pendings := b.pendings + [p])
    requires Posted(b.accounts, after.accounts, p.user, r, amounts, debit)
    ensures Inv(after)
  {
    assert TrailOk(b, p.user, r) && PendingOk(p, amounts);
    AppendedPendingTouches(b, after, p, r);
    ParkedTrail(b, after, p, r, amounts, debit);
    AppendedPendingHolds(b, after, p);
    Kept(b, after, p.user, r, amounts, debit);
  }

  lemma ParkedTrail(b: Book, after: Book, p: PendingOrder, r: Reference, amounts: seq<int>, debit: int)
    requires p.user < |b.accounts| && r == PENDING_ORDER(|b.pendings|) && TrailOk(b, p.user, r)
    requires after == b.(accounts := after.accounts, pendings := b.pendings + [p])
    requires Posted(b.accounts, after.accounts, p.user, r, amounts, debit) && PendingOk(p, amounts)
    ensures TrailOk(after, p.user, r)
  {
    FreshTrail(b, after.accounts, p.user, r, amounts, debit);
  }

  lemma PlacePendingKeeps(b: Book, user: nat, intent: Intent, m: Market, day: int, after: Book, i: nat)
    requires Inv(b) && PlacePending(b, user, intent, m, day) == Ok((after, i))
    ensures Inv(after)
  {
    if FindPending(b.pendings, user, intent.clientId).None? {
      ReserveKeeps(b, NewPending(user, intent, m, day), after);
    }
  }

  /** Leaving the book: still the same order, no longer resting. */
  ghost predicate LeavesBook(p: PendingOrder, q: PendingOrder) {
    p.status.Pending? && !q.status.Pending? && q.marginBlocked == 0 && SameClientId(q, p)
  }

  lemma ReleaseKeeps(b: Book, i: nat, q: PendingOrder, after: Book)
    requires Inv(b) && i < |b.pendings| && LeavesBook(b.pendings[i], q) && Release(b, i, q) == Ok(after)
    ensures Inv(after)
  {
    var r, reserved := PENDING_ORDER(i), b.pendings[i].marginBlocked;
    assert TrailOk(b, q.user, r);
    var b0, amounts := b.(pendings := b.pendings[i := q]), [reserved];
    AboutPost(b0, after, q.user, REFUND, reserved, r, Margin, amounts, reserved);
    ReleasedKeeps(b, after, i, q, r, amounts, reserved);
  }

  lemma ReleasedKeeps(b: Book, after: Book, i: nat, q: PendingOrder, r: Reference, amounts: seq<int>, reserved: int)
    requires Inv(b) && i < |b.pendings| && LeavesBook(b.pendings[i], q)
    requires r == PENDING_ORDER(i) && reserved == b.pendings[i].marginBlocked && amounts == [reserved]
    requires after == b.(accounts := after.accounts, pendings := b.pendings[i := q])
    requires Posted(b.accounts, after.accounts, q.user, r, amounts, reserved)
    ensures Inv(after)
  {
    assert TrailOk(b, q.user, r);
    UpdatedPendingTouches(b, after, i, q, r);
    assert PendingOk(q, Amounts(b.accounts[q.user].rows, r) + amounts);
    UpdatedPendingHolds(b, after, i, q);
    Kept(b, after, q.user, r, amounts, reserved);
  }

  lemma CancelKeeps(b: Book, user: nat, i: nat, after: Book)
    requires Inv(b) && CancelPending(b, user, i) == Ok(after)
    ensures Inv(after)
  {
    ReleaseKeeps(b, i, b.pendings[i].(status := Cancelled, marginBlocked := 0), after);
  }

  lemma RejectKeeps(b: Book, i: nat, after: Book)
    requires Inv(b) && RejectOne(b, i) == Ok(after)
    ensures Inv(after)
  {
    if StillResting(b, i) {
      ReleaseKeeps(b, i, b.pendings[i].(status := Rejected, marginBlocked := 0), after);
    }
  }

  /** A refund can always be posted, so giving a reservation back never fails. */
  lemma ReleaseSucceeds(b: Book, i: nat, q: PendingOrder)
    requires Inv(b) && StillResting(b, i)
    ensures Release(b, i, q).Ok?
  {
    var user := b.pendings[i].user;
    assert AccountOk(b.accounts[user]) && TrailOk(b, user, PENDING_ORDER(i));
    BalanceIsSumOfRows(b.accounts[user]);
  }

  lemma {:induction false} ExpireKeeps(b: Book, i: nat, before: Option<int>)
    requires Inv(b) && i <= |b.pendings|
    ensures ExpireFrom(b, i, before).Ok? && Inv(ExpireFrom(b, i, before).value)
    decreases |b.pendings| - i
  {
    if i < |b.pendings| {
      if ExpiresNow(b.pendings[i], before) {
        var q := b.pendings[i].(status := Expired, marginBlocked := 0);
        ReleaseSucceeds(b, i, q);
        var b1 := Release(b, i, q).value;
        ReleaseKeeps(b, i, q, b1);
        ExpireKeeps(b1, i + 1, before);
      } else {
        ExpireKeeps(b, i + 1, before);
      }
    }
  }

  /** Placing an order neither reads nor writes the resting book. */
  lemma PlaceOrderIgnoresPendings(b: Book, pendings: seq<PendingOrder>, user: nat, clientId: Option<nat>, terms: Terms,
                                  m: Market, after: Book, o: nat)
    requires PlaceOrder(b, user, clientId, terms, m) == Ok((after, o))
    ensures after.pendings == b.pendings
    ensures PlaceOrder(b.(pendings := pendings), user, clientId, terms, m) == Ok((after.(pendings := pendings), o))
  {
  }

  lemma FillKeeps(b: Book, i: nat, m: Market, after: Book)
    requires Inv(b) && FillOne(b, i, m) == Ok(after)
    ensures Inv(after)
  {
    if StillResting(b, i) {
      var p, q := b.pendings[i], after.pendings[i];
      var b1 := Release(b, i, p.(marginBlocked := 0)).value;
      var (b2, o) := PlaceOrder(b1, p.user, p.clientId, p.terms, m).value;
      PlaceOrderIgnoresPendings(b1, b.pendings[i := q], p.user, p.clientId, p.terms, m, b2, o);
      assert b1.pendings[i := q] == b.pendings[i := q];
      assert Release(b, i, q) == Ok(b1.(pendings := b.pendings[i := q])) by {
        ReleaseSucceeds(b, i, q);
      }
      ReleaseKeeps(b, i, q, b1.(pendings := b.pendings[i := q]));
      PlaceOrderKeeps(b1.(pendings := b.pendings[i := q]), p.user, p.clientId, p.terms, m, after, o);
    }
  }

  // --- What a sweep can and cannot do ----------------------------------------

  /** True when the sweep gave up because the market closed under it. */
  predicate Stops(b: Book, ticks: seq<Tick>)
    decreases |ticks|
  {
    ticks != [] &&
      var (after, verdict) := SweepStep(b, ticks[0]);
      verdict == Stopped || Stops(after, ticks[1..])
  }

  lemma {:induction false} SweepSplit(b: Book, first: seq<Tick>, rest: seq<Tick>)
    ensures Sweep(b, first + rest) == if Stops(b, first) then Sweep(b, first) else Sweep(Sweep(b, first), rest)
    decreases |first|
  {
    if first == [] {
      assert [] + rest == rest;
    } else {
      assert (first + rest)[0] == first[0] && (first + rest)[1..] == first[1..] + rest;
      var (after, verdict) := SweepStep(b, first[0]);
      if verdict != Stopped {
        SweepSplit(after, first[1..], rest);
      }
    }
  }

  /** An unexpected failure undoes its own order only: the sweep ends exactly
      as if that order had not been scanned. */
  lemma FailureUndoesOnlyItself(b: Book, earlier: seq<Tick>, tick: Tick, later: seq<Tick>)
    requires !Stops(b, earlier) && SweepStep(Sweep(b, earlier), tick).1 == Failed
    ensures Sweep(b, earlier + [tick] + later) == Sweep(b, earlier + later)
  {
    var mid := Sweep(b, earlier);
    SweepSplit(b, earlier, [tick] + later);
    SweepSplit(b, earlier, later);
    assert earlier + [tick] + later == earlier + ([tick] + later);
    assert ([tick] + later)[1..] == later;
  }

  /** A market close undoes its own order and scans no further, and every
      transaction before it stands. */
  lemma MarketCloseKeepsEarlierFills(b: Book, earlier: seq<Tick>, tick: Tick, later: seq<Tick>)
    requires !Stops(b, earlier) && SweepStep(Sweep(b, earlier), tick).1 == Stopped
    ensures Sweep(b, earlier + [tick] + later) == Sweep(b, earlier)
  {
    SweepSplit(b, earlier, [tick] + later);
    assert earlier + [tick] + later == earlier + ([tick] + later);
  }

  lemma AttemptKeeps(b: Book, tick: Tick)
    requires Inv(b)
    ensures Inv(Attempt(b, tick).0)
  {
    match FillOne(b, tick.id, tick.market)
    case Ok(after) => FillKeeps(b, tick.id, tick.market, after);
    case Raise(_) =>
      if RejectOne(b, tick.id).Ok? {
        RejectKeeps(b, tick.id, RejectOne(b, tick.id).value);
      }
  }

  lemma {:induction false} SweepKeeps(b: Book, ticks: seq<Tick>)
    requires Inv(b)
    ensures Inv(Sweep(b, ticks))
    decreases |ticks|
  {
    if ticks != [] {
      AttemptKeeps(b, ticks[0]);
      if SweepStep(b, ticks[0]).1 != Stopped {
        SweepKeeps(SweepStep(b, ticks[0]).0, ticks[1..]);
      }
    }
  }

  /** Untouched, or filled, or rejected: nothing else of the row moves. */
  ghost predicate SweptInto(p: PendingOrder, q: PendingOrder) {
    || q == p
    || (p.status.Pending? && (
          || q == p.(status := Rejected, marginBlocked := 0)
          || q == p.(status := Filled, marginBlocked := 0, filledOrder := q.filledOrder, fillPrice := q.fillPrice)))
  }

  ghost predicate BookSwept(b: Book, after: Book) {
    |after.pendings| == |b.pendings| && forall i :: 0 <= i < |b.pendings| ==> SweptInto(b.pendings[i], after.pendings[i])
  }

  lemma AttemptSweeps(b: Book, tick: Tick)
    ensures BookSwept(b, Attempt(b, tick).0)
  {
    if StillResting(b, tick.id) {
      match FillOne(b, tick.id, tick.market)
      case Ok(after) =>
        var p := b.pendings[tick.id];
        var b1 := Release(b, tick.id, p.(marginBlocked := 0)).value;
        var (b2, o) := PlaceOrder(b1, p.user, p.clientId, p.terms, tick.market).value;
        PlaceOrderIgnoresPendings(b1, b1.pendings, p.user, p.clientId, p.terms, tick.market, b2, o);
      case Raise(_) =>
    }
  }

  /** After any sweep each order is untouched, FILLED, or REJECTED. */
  lemma {:induction false} SweepOutcome(b: Book, ticks: seq<Tick>)
    ensures BookSwept(b, Sweep(b, ticks))
    decreases |ticks|
  {
    if ticks != [] {
      AttemptSweeps(b, ticks[0]);
      var (b1, verdict) := SweepStep(b, ticks[0]);
      if verdict != Stopped {
        SweepOutcome(b1, ticks[1..]);
        var after := Sweep(b1, ticks[1..]);
        assert forall i :: 0 <= i < |b.pendings| ==> SweptInto(b.pendings[i], b1.pendings[i]) && SweptInto(b1.pendings[i], after.pendings[i]);
      }
    }
  }

  lemma FillGrows(b: Book, i: nat, m: Market, after: Book)
    requires FillOne(b, i, m) == Ok(after)
    ensures LedgerGrows(b.accounts, after.accounts)
  {
    if StillResting(b, i) {
      var p := b.pendings[i];
      var b1 := Release(b, i, p.(marginBlocked := 0)).value;
      var b2 := PlaceOrder(b1, p.user, p.clientId, p.terms, m).value.0;
      GrowsOnwards(b.accounts, b1.accounts, b2.accounts);
    }
  }

  lemma AttemptGrows(b: Book, tick: Tick)
    ensures LedgerGrows(b.accounts, Attempt(b, tick).0.accounts)
  {
    var filled := FillOne(b, tick.id, tick.market);
    if filled.Ok? {
      FillGrows(b, tick.id, tick.market, filled.value);
    }
  }

  lemma {:induction false} SweepGrows(b: Book, ticks: seq<Tick>)
    ensures LedgerGrows(b.accounts, Sweep(b, ticks).accounts)
    decreases |ticks|
  {
    if ticks != [] {
      AttemptGrows(b, ticks[0]);
      var (b1, verdict) := SweepStep(b, ticks[0]);
      if verdict != Stopped {
        SweepGrows(b1, ticks[1..]);
        GrowsOnwards(b.accounts, b1.accounts, Sweep(b1, ticks[1..]).accounts);
      }
    }
  }

  /** An order seen resting and later not was refunded what it had reserved. */
  lemma LeftBookRefunded(p: PendingOrder, q: PendingOrder, before: seq<int>, after: seq<int>)
    requires PendingOk(p, before) && PendingOk(q, after) && before <= after
    requires p.status.Pending? && !q.status.Pending?
    ensures after == [-p.marginBlocked, p.marginBlocked]
  {
    assert after[0] == before[0];
  }

  lemma LeftBookRefundedIn(b: Book, after: Book, i: nat, user: nat, r: Reference, before: seq<int>, posted: seq<int>)
    requires StillResting(b, i) && user == b.pendings[i].user && r == PENDING_ORDER(i)
    requires i < |after.pendings| && after.pendings[i].user == user && !after.pendings[i].status.Pending?
    requires user < |b.accounts| && LedgerGrows(b.accounts, after.accounts)
    requires TrailOk(b, user, r) && before == Amounts(b.accounts[user].rows, r)
    requires TrailOk(after, user, r) && posted == Amounts(after.accounts[user].rows, r)
    ensures posted == [-b.pendings[i].marginBlocked, b.pendings[i].marginBlocked]
  {
    AmountsPrefix(b.accounts[user].rows, after.accounts[user].rows, r);
    LeftBookRefunded(b.pendings[i], after.pendings[i], before, posted);
  }

  /** What the sweep took out of the book it refunded to the paisa: the ledger
      shows the order's own debit and one equal credit, and nothing else. */
  lemma SweepRefundsExactly(b: Book, ticks: seq<Tick>, i: nat, after: Book, user: nat)
    requires Inv(b) && after == Sweep(b, ticks) && StillResting(b, i) && !StillResting(after, i)
    requires user == b.pendings[i].user
    ensures i < |after.pendings| && after.pendings[i].status in {Filled, Rejected} && user < |after.accounts|
    ensures Amounts(after.accounts[user].rows, PENDING_ORDER(i)) == [-b.pendings[i].marginBlocked, b.pendings[i].marginBlocked]
  {
    SweepKeeps(b, ticks);
    SweepOutcome(b, ticks);
    SweepGrows(b, ticks);
    assert SweptInto(b.pendings[i], after.pendings[i]);
    var r := PENDING_ORDER(i);
    LeftBookRefundedIn(b, after, i, user, r, Amounts(b.accounts[user].rows, r), Amounts(after.accounts[user].rows, r));
  }

  /** Refusing an order gives its user exactly the reservation back. */
  lemma RefusedRefundsTheReservation(b: Book, tick: Tick)
    requires Inv(b) && Attempt(b, tick).1 == Refused
    ensures var p, after := b.pendings[tick.id], Attempt(b, tick).0;
            && StillResting(b, tick.id)
            && after.accounts[p.user].balance == b.accounts[p.user].balance + p.marginBlocked
            && after.pendings[tick.id] == p.(status := Rejected, marginBlocked := 0)
            && after.orders == b.orders && after.strategies == b.strategies
  {
    assert TrailOk(b, b.pendings[tick.id].user, PENDING_ORDER(tick.id));
  }
}
