/** The paper-money services as they run: a database session whose rows the
    services change one field at a time, committed when a request returns and
    rolled back when it raises. Every service is proved against the function
    that says what its transaction does. */
module Desk {
  import opened Wrappers
  import opened Domain
  import opened Ledger
  import opened Books
  import opened SingleOrders
  import opened PendingOrders
  import opened StrategyExecution
  import opened StrategyDrafts
  import opened DisciplineMode
  import Builder
  import Runs

  datatype Notice = LimitFilled | LimitRejected

  /** What a sweep does to the database and to the user, in order. */
  datatype Event = Durable | Undone | Told(user: nat, notice: Notice)

  /** A service either returns having made the book what the specification
      says, or raises what the specification raises. */
  ghost predicate Follows(done: Outcome<()>, now: Book, spec: Outcome<Book>) {
    match spec
    case Ok(after) => done.Ok? && now == after
    case Raise(error) => done == Raise(error)
  }

  ghost predicate FollowsWith(done: Outcome<nat>, now: Book, spec: Outcome<(Book, nat)>) {
    match spec
    case Ok((after, i)) => done == Ok(i) && now == after
    case Raise(error) => done == Raise(error)
  }

  function StepEvents(b: Book, tick: Tick): seq<Event> {
    if !Attempted(b, tick) then []
    else
      var user := b.pendings[tick.id].user;
      match Attempt(b, tick).1
      case Committed => [Durable, Told(user, LimitFilled)]
      case Refused => [Undone, Durable, Told(user, LimitRejected)]
      case Stopped => [Undone]
      case _ => if Refusal(FillOne(b, tick.id, tick.market).error) then [Undone, Undone] else [Undone]
  }

  function SweepEvents(b: Book, ticks: seq<Tick>): seq<Event>
    decreases |ticks|
  {
    if ticks == [] then []
    else
      var (after, verdict) := SweepStep(b, ticks[0]);
      StepEvents(b, ticks[0]) + if verdict == Stopped then [] else SweepEvents(after, ticks[1..])
  }

  function FillNotices(events: seq<Event>): nat {
    if events == [] then 0
    else
      var last := events[|events| - 1];
      FillNotices(events[..|events| - 1]) + if last.Told? && last.notice == LimitFilled then 1 else 0
  }

  lemma {:induction false} NoticesAddUp(earlier: seq<Event>, more: seq<Event>)
    ensures FillNotices(earlier + more) == FillNotices(earlier) + FillNotices(more)
  {
    if more == [] {
      assert earlier + more == earlier;
    } else {
      NoticesAddUp(earlier, more[..|more| - 1]);
      assert (earlier + more)[..|earlier + more| - 1] == earlier + more[..|more| - 1];
    }
  }

  lemma StepNotices(b: Book, tick: Tick)
    ensures FillNotices(StepEvents(b, tick)) == if SweepStep(b, tick).1 == Committed then 1 else 0
  {
    var user := if tick.id < |b.pendings| then b.pendings[tick.id].user else 0;
    assert [Durable, Told(user, LimitFilled)][..1] == [Durable] && [Durable][..0] == [];
    assert [Undone, Durable, Told(user, LimitRejected)][..2] == [Undone, Durable] && [Undone, Durable][..1] == [Undone];
    assert [Undone, Undone][..1] == [Undone] && [Undone][..0] == [];
  }

  lemma TickCounts(log0: seq<Event>, log: seq<Event>, b: Book, tick: Tick, filled: nat)
    requires FillNotices(log) == FillNotices(log0) + filled
    ensures FillNotices(log + StepEvents(b, tick))
            == FillNotices(log0) + filled + if SweepStep(b, tick).1 == Committed then 1 else 0
  {
    StepNotices(b, tick);
    NoticesAddUp(log, StepEvents(b, tick));
  }

  lemma SweepCounts(log0: seq<Event>, events: seq<Event>, filled: nat)
    requires FillNotices(log0 + events) == FillNotices(log0) + filled
    ensures filled == FillNotices(events)
  {
    NoticesAddUp(log0, events);
  }

  /** Scanning from tick `n` on completes the sweep that began with `b0`. */
  ghost predicate SweepsOn(b0: Book, log0: seq<Event>, ticks: seq<Tick>, n: nat, b: Book, log: seq<Event>)
    requires n <= |ticks|
  {
    && Sweep(b, ticks[n..]) == Sweep(b0, ticks)
    && log + SweepEvents(b, ticks[n..]) == log0 + SweepEvents(b0, ticks)
  }

  lemma OneTickOn(b0: Book, log0: seq<Event>, ticks: seq<Tick>, n: nat, b: Book, log: seq<Event>, after: Book, longer: seq<Event>)
    requires n < |ticks| && SweepsOn(b0, log0, ticks, n, b, log)
    requires after == SweepStep(b, ticks[n]).0 && longer == log + StepEvents(b, ticks[n])
    ensures SweepStep(b, ticks[n]).1 != Stopped ==> SweepsOn(b0, log0, ticks, n + 1, after, longer)
    ensures SweepStep(b, ticks[n]).1 == Stopped ==> after == Sweep(b0, ticks) && longer == log0 + SweepEvents(b0, ticks)
  {
    TickUnfolds(b, ticks, n);
    var step := StepEvents(b, ticks[n]);
    if SweepStep(b, ticks[n]).1 == Stopped {
      assert step + [] == step;
    } else {
      Associates(log, step, SweepEvents(after, ticks[n + 1..]));
    }
  }

  lemma TickUnfolds(b: Book, ticks: seq<Tick>, n: nat)
    requires n < |ticks|
    ensures var (after, verdict) := SweepStep(b, ticks[n]);
            && Sweep(b, ticks[n..]) == (if verdict == Stopped then after else Sweep(after, ticks[n + 1..]))
            && SweepEvents(b, ticks[n..])
               == StepEvents(b, ticks[n]) + if verdict == Stopped then [] else SweepEvents(after, ticks[n + 1..])
  {
    var rest := ticks[n..];
    assert rest[0] == ticks[n] && rest[1..] == ticks[n + 1..];
  }

  lemma Associates(a: seq<Event>, b: seq<Event>, c: seq<Event>)
    ensures a + (b + c) == (a + b) + c
  {
  }

  /** Nobody is told of anything the database could still lose. */
  ghost predicate ToldAfterDurable(events: seq<Event>) {
    forall k :: 0 <= k < |events| && events[k].Told? ==> 0 < k && events[k - 1] == Durable
  }

  lemma {:induction false} EveryNoticeFollowsACommit(b: Book, ticks: seq<Tick>)
    ensures ToldAfterDurable(SweepEvents(b, ticks))
    decreases |ticks|
  {
    if ticks != [] {
      var (after, verdict) := SweepStep(b, ticks[0]);
      EveryNoticeFollowsACommit(after, ticks[1..]);
    }
  }

  /** The scan's list is read once. An order that left the book since is
      skipped by the fill, which changes nothing, and yet reported as filled. */
  lemma SkippedOrderIsReportedFilled(b: Book, tick: Tick)
    requires Attempted(b, tick) && !StillResting(b, tick.id)
    ensures Sweep(b, [tick]) == b
    ensures SweepEvents(b, [tick]) == [Durable, Told(b.pendings[tick.id].user, LimitFilled)]
  {
    assert [tick][1..] == [];
  }

  /** The notice of a fill is true, that is this fill made the order FILLED, if
      and only if the order still rested at its tick. */
  lemma FillNoticeIsTrueIff(b: Book, tick: Tick)
    requires tick.id < |b.pendings| && Told(b.pendings[tick.id].user, LimitFilled) in StepEvents(b, tick)
    ensures var after := SweepStep(b, tick).0;
            && tick.id < |after.pendings|
            && (b.pendings[tick.id].status != Filled && after.pendings[tick.id].status == Filled <==> StillResting(b, tick.id))
  {
    AttemptSweeps(b, tick);
  }

  function ExpiringUpTo(pendings: seq<PendingOrder>, before: Option<int>, n: nat): nat
    requires n <= |pendings|
  {
    if n == 0 then 0 else ExpiringUpTo(pendings, before, n - 1) + if ExpiresNow(pendings[n - 1], before) then 1 else 0
  }

  /** Strategy `i` has its first `n` legs as in `done` and the rest as before. */
  ghost predicate LegsUpTo(was: seq<Strategy>, now: seq<Strategy>, i: nat, done: seq<LegRow>, n: nat) {
    && i < |was| == |now| && n <= |done| == |was[i].legs| == |now[i].legs|
    && now == was[i := was[i].(legs := now[i].legs)]
    && (forall k :: 0 <= k < n ==> now[i].legs[k] == done[k])
    && (forall k :: n <= k < |done| ==> now[i].legs[k] == was[i].legs[k])
  }

  lemma AllLegsDone(was: seq<Strategy>, now: seq<Strategy>, i: nat, done: seq<LegRow>)
    requires i < |was| && LegsUpTo(was, now, i, done, |was[i].legs|)
    ensures now == was[i := was[i].(legs := done)]
  {
    assert now[i].legs == done;
  }

  lemma OneMoreMirror(s: Strategy, sid: nat, legs: seq<LegRow>, fills: seq<LegFill>, n: nat)
    requires n < |legs|
    ensures MirrorsOf(s, sid, legs[..n + 1], fills)
            == MirrorsOf(s, sid, legs[..n], fills)
               + if legs[n].kind == FUT || FillFor(fills, legs[n].id).None? then []
                 else [MirrorOf(s, sid, legs[n], FillFor(fills, legs[n].id).value)]
  {
    assert legs[..n + 1][..n] == legs[..n];
  }

  method PlanExecution(legs: seq<LegRow>, quotes: seq<Quote>) returns (plan: Plan)
    ensures plan == PlanUpTo(legs, quotes, |legs|)
  {
    var fills, problems, totalBrokerage := [], 0, 0;
    for n := 0 to |legs|
      invariant Plan(fills, problems, totalBrokerage) == PlanUpTo(legs, quotes, n)
    {
      match QuoteOf(quotes, n)
      case Unusable =>
        problems := problems + 1;
      case Usable(ltp, fill) =>
        var brokerage := BrokerageOn(fill, legs[n].lots, legs[n].lotSize, legs[n].action);
        fills := fills + [LegFill(legs[n].id, ltp, fill, brokerage)];
        totalBrokerage := totalBrokerage + brokerage;
    }
    plan := Plan(fills, problems, totalBrokerage);
  }

  class Session {
    var accounts: seq<Account>
    var pendings: seq<PendingOrder>
    var orders: seq<Order>
    var strategies: seq<Strategy>
    var saved: Book
    var log: seq<Event>

    constructor (book: Book)
      ensures Snapshot() == saved == book && log == []
    {
      accounts, pendings, orders, strategies := book.accounts, book.pendings, book.orders, book.strategies;
      saved, log := book, [];
    }

    function Snapshot(): Book
      reads this`accounts, this`pendings, this`orders, this`strategies
    {
      Book(accounts, pendings, orders, strategies)
    }

    method Commit()
      modifies this`saved, this`log
      ensures saved == Snapshot() && log == old(log) + [Durable]
    {
      saved := Snapshot();
      log := log + [Durable];
    }

    method Rollback()
      modifies this`accounts, this`pendings, this`orders, this`strategies, this`log
      ensures Snapshot() == saved && log == old(log) + [Undone]
    {
      accounts, pendings, orders, strategies := saved.accounts, saved.pendings, saved.orders, saved.strategies;
      log := log + [Undone];
    }

    method Notify(user: nat, notice: Notice)
      modifies this`log
      ensures log == old(log) + [Told(user, notice)]
    {
      log := log + [Told(user, notice)];
    }

    // --- ledger_service ------------------------------------------------------

    method Post(user: nat, txnType: TxnType, amount: int, reference: Reference, purpose: Purpose) returns (done: Outcome<()>)
      modifies this`accounts
      ensures Follows(done, Snapshot(), PostTo(old(Snapshot()), user, txnType, amount, reference, purpose))
    {
      if user >= |accounts| {
        return Raise(NoAccount);
      }
      if amount == 0 {
        return Raise(ZeroAmount);
      }
      var before := accounts[user].balance;
      var after := before + amount;
      if after < 0 {
        return Raise(InsufficientBalance);
      }
      if !SignFits(txnType, amount) {
        return Raise(ConstraintViolated);
      }
      var row := Row(txnType, amount, before, after, reference, purpose);
      accounts := accounts[user := accounts[user].(rows := accounts[user].rows + [row])];
      accounts := accounts[user := accounts[user].(balance := after)];
      done := Ok(());
    }

    method Settle(user: nat, net: int, reference: Reference) returns (done: Outcome<()>)
      modifies this`accounts
      ensures Follows(done, Snapshot(), SettleTo(old(Snapshot()), user, net, reference))
    {
      if user >= |accounts| {
        return Raise(NoAccount);
      }
      if net == 0 {
        assert accounts[user := accounts[user]] == accounts;
        return Ok(());
      }
      done := Post(user, if net > 0 then TRADE_CREDIT else TRADE_DEBIT, net, reference, RealisedPnl);
    }

    /** The margin back, if there is any, and then the P&L: two rows. */
    method PayOut(user: nat, reference: Reference, margin: int, net: int) returns (done: Outcome<()>)
      modifies this`accounts
      ensures Follows(done, Snapshot(), PostExit(old(Snapshot()), user, reference, margin, net))
    {
      if margin != 0 {
        done := Post(user, TRADE_CREDIT, margin, reference, Margin);
        if done.Raise? {
          return;
        }
      }
      done := Settle(user, net, reference);
    }

    method OpenAccount() returns (done: Outcome<()>)
      modifies this`accounts
      ensures Follows(done, Snapshot(), DisciplineMode.OpenAccount(old(Snapshot())))
    {
      var user := |accounts|;
      accounts := accounts + [Account(0, [], true, TIER_1, false, TIER_1_CAPITAL)];
      done := Post(user, INITIAL_CREDIT, TIER_1_CAPITAL, ACCOUNT(user), Opening);
    }

    // --- discipline_mode_service ---------------------------------------------

    method Unlock(user: nat)
      requires user < |accounts|
      modifies this`accounts
      ensures Snapshot() == ChangeAccount(old(Snapshot()), user, Unlocked(old(accounts)[user]))
    {
      accounts := accounts[user := accounts[user].(tier := TIER_3)];
      accounts := accounts[user := accounts[user].(capitalUnlocked := true)];
      if FULL_SANDBOX_CAPITAL > accounts[user].initialBalance {
        accounts := accounts[user := accounts[user].(initialBalance := FULL_SANDBOX_CAPITAL)];
      }
    }

    method SetMode(user: nat, enabled: bool) returns (done: Outcome<()>)
      modifies this`accounts
      ensures Follows(done, Snapshot(), DisciplineMode.SetMode(old(Snapshot()), user, enabled))
    {
      if user >= |accounts| {
        return Raise(NotFound);
      }
      accounts := accounts[user := accounts[user].(disciplineOn := enabled)];
      if !enabled {
        var blocked := PositionMargin(Snapshot(), user);
        var target := FULL_SANDBOX_CAPITAL - blocked;
        if target > accounts[user].balance {
          var adjusted := Post(user, MANUAL_ADJUSTMENT, target - accounts[user].balance, ACCOUNT(user), CapitalUnlock);
          if adjusted.Raise? {
            return adjusted;
          }
        }
        Unlock(user);
      }
      done := Ok(());
    }

    // --- virtual_order_service -----------------------------------------------

    /** Add the order, then its position, then block and charge. */
    method OpenPosition(order: Order, margin: int) returns (done: Outcome<()>)
      modifies this`accounts, this`orders
      ensures Follows(done, Snapshot(), OpenOrder(old(Snapshot()), order.(position := Position(margin, true))))
    {
      var i := |orders|;
      orders := orders + [order];
      orders := orders[i := order.(position := Position(margin, true))];
      done := Post(order.user, TRADE_DEBIT, -margin, VIRTUAL_ORDER(i), Margin);
      if done.Ok? {
        done := Post(order.user, CHARGE, -order.entryBrokerage, VIRTUAL_ORDER(i), Brokerage);
      }
    }

    method PlaceOrder(user: nat, clientId: Option<nat>, terms: Terms, m: Market) returns (done: Outcome<nat>)
      modifies this`accounts, this`orders
      ensures FollowsWith(done, Snapshot(), SingleOrders.PlaceOrder(old(Snapshot()), user, clientId, terms, m))
    {
      if !m.open {
        return Raise(MarketClosed);
      }
      if user >= |accounts| {
        return Raise(NoAccount);
      }
      var existing := FindOrder(orders, user, clientId);
      if existing.Some? {
        return if orders[existing.value].terms == terms then Ok(existing.value) else Raise(IdempotencyConflict);
      }
      if m.ltp.None? {
        return Raise(QuoteUnavailable);
      }
      if accounts[user].disciplineOn && m.violates {
        return Raise(DisciplineViolation);
      }
      var margin := MarginFor(m.fill, terms.lotSize, terms.quantity, m.leveraged);
      var brokerage := BrokerageOn(m.fill, terms.quantity, terms.lotSize, terms.action);
      if accounts[user].balance < margin + brokerage {
        return Raise(InsufficientBalance);
      }
      if !Storable(terms) {
        return Raise(ConstraintViolated);
      }
      var i := |orders|;
      var order := Order(user, clientId, terms, m.fill, None, Open, None, brokerage, brokerage, None, NoPosition);
      var added := OpenPosition(order, margin);
      done := if added.Ok? then Ok(i) else Raise(added.error);
    }

    method CloseOrder(user: nat, i: nat, marketOpen: bool, exit: int, reason: ExitReason) returns (done: Outcome<()>)
      modifies this`accounts, this`orders
      ensures Follows(done, Snapshot(), SingleOrders.CloseOrder(old(Snapshot()), user, i, marketOpen, exit, reason))
    {
      if !marketOpen {
        return Raise(MarketClosed);
      }
      if i >= |orders| || orders[i].user != user {
        return Raise(NotFound);
      }
      if !orders[i].status.Open? {
        return Raise(AlreadyClosed);
      }
      var margin := if orders[i].position.Position? then orders[i].position.marginBlocked else 0;
      var net := MarkClosed(i, exit, reason);
      done := PayOut(user, VIRTUAL_ORDER(i), margin, net);
    }

    method MarkClosed(i: nat, exit: int, reason: ExitReason) returns (net: int)
      requires i < |orders|
      modifies this`orders
      ensures orders == old(orders)[i := ClosedOrder(old(orders)[i], exit, reason)]
      ensures net == OrderNetPnl(old(orders)[i], exit)
    {
      var o := orders[i];
      var exitBrokerage := BrokerageOn(exit, o.terms.quantity, o.terms.lotSize, Opposite(o.terms.action));
      net := GrossPnl(o.terms.action, o.entryPrice, exit, o.terms.quantity, o.terms.lotSize) - exitBrokerage;
      orders := orders[i := o.(status := StatusAfter(reason))];
      orders := orders[i := orders[i].(exitPrice := Some(exit), pnl := Some(net), brokerage := o.brokerage + exitBrokerage)];
      if o.position.Position? {
        orders := orders[i := orders[i].(position := o.position.(isOpen := false))];
      }
    }

    // --- pending_order_service -----------------------------------------------

    method PlacePending(user: nat, intent: Intent, m: Market, day: int) returns (done: Outcome<nat>)
      modifies this`accounts, this`pendings
      ensures FollowsWith(done, Snapshot(), PendingOrders.PlacePending(old(Snapshot()), user, intent, m, day))
    {
      if !m.open {
        return Raise(MarketClosed);
      }
      if user >= |accounts| {
        return Raise(NoAccount);
      }
      var existing := FindPending(pendings, user, intent.clientId);
      if existing.Some? {
        return if MatchesPayload(pendings[existing.value], intent) then Ok(existing.value) else Raise(IdempotencyConflict);
      }
      if m.ltp.None? {
        return Raise(QuoteUnavailable);
      }
      if accounts[user].disciplineOn && m.violates {
        return Raise(DisciplineViolation);
      }
      var limitPrice := Money(intent.limitPrice);
      var margin := MarginFor(limitPrice, intent.lotSize, intent.quantity, m.leveraged);
      if accounts[user].balance < margin {
        return Raise(InsufficientBalance);
      }
      var terms := TermsOf(intent);
      if !Storable(terms) || limitPrice <= 0 {
        return Raise(ConstraintViolated);
      }
      var i := |pendings|;
      pendings := pendings + [PendingOrder(user, intent.clientId, terms, limitPrice, Pending, margin, day, None, None)];
      var blocked := Post(user, TRADE_DEBIT, -margin, PENDING_ORDER(i), Margin);
      if blocked.Raise? {
        return Raise(blocked.error);
      }
      done := Ok(i);
    }

    /** Moves the row to a terminal state and says what to give back. */
    method ClosePending(i: nat, status: PendingStatus) returns (released: int)
      requires i < |pendings|
      modifies this`pendings
      ensures released == old(pendings)[i].marginBlocked
      ensures pendings == old(pendings)[i := old(pendings)[i].(status := status, marginBlocked := 0)]
    {
      released := pendings[i].marginBlocked;
      pendings := pendings[i := pendings[i].(status := status)];
      pendings := pendings[i := pendings[i].(marginBlocked := 0)];
    }

    method CloseAndRefund(i: nat, status: PendingStatus) returns (done: Outcome<()>)
      requires i < |pendings|
      modifies this`accounts, this`pendings
      ensures Follows(done, Snapshot(), PendingOrders.ClosePending(old(Snapshot()), i, status))
    {
      var released := ClosePending(i, status);
      if released == 0 {
        return Ok(());
      }
      done := Post(pendings[i].user, REFUND, released, PENDING_ORDER(i), Margin);
    }

    method CancelPending(user: nat, i: nat) returns (done: Outcome<()>)
      modifies this`accounts, this`pendings
      ensures Follows(done, Snapshot(), PendingOrders.CancelPending(old(Snapshot()), user, i))
    {
      if i >= |pendings| || pendings[i].user != user {
        return Raise(NotFound);
      }
      if !pendings[i].status.Pending? {
        return Raise(NotCancellable);
      }
      done := CloseAndRefund(i, Cancelled);
    }

    method RejectOne(i: nat) returns (done: Outcome<()>)
      modifies this`accounts, this`pendings
      ensures Follows(done, Snapshot(), PendingOrders.RejectOne(old(Snapshot()), i))
    {
      if i >= |pendings| || !pendings[i].status.Pending? {
        return Ok(());
      }
      done := CloseAndRefund(i, Rejected);
    }

    method ReturnReservation(i: nat) returns (done: Outcome<()>)
      requires i < |pendings|
      modifies this`accounts, this`pendings
      ensures Follows(done, Snapshot(), Release(old(Snapshot()), i, old(pendings)[i].(marginBlocked := 0)))
    {
      var reserved := pendings[i].marginBlocked;
      if reserved != 0 {
        var refunded := Post(pendings[i].user, REFUND, reserved, PENDING_ORDER(i), Margin);
        if refunded.Raise? {
          return refunded;
        }
      }
      pendings := pendings[i := pendings[i].(marginBlocked := 0)];
      done := Ok(());
    }

    method FillOne(i: nat, m: Market) returns (done: Outcome<()>)
      modifies this`accounts, this`pendings, this`orders
      ensures Follows(done, Snapshot(), PendingOrders.FillOne(old(Snapshot()), i, m))
    {
      if i >= |pendings| || !pendings[i].status.Pending? {
        return Ok(());
      }
      done := ReturnReservation(i);
      if done.Raise? {
        return;
      }
      var p := pendings[i];
      var placed := PlaceOrder(p.user, p.clientId, p.terms, m);
      if placed.Raise? {
        return Raise(placed.error);
      }
      var o := placed.value;
      pendings := pendings[i := pendings[i].(status := Filled)];
      pendings := pendings[i := pendings[i].(filledOrder := Some(o))];
      pendings := pendings[i := pendings[i].(fillPrice := if o < |orders| then Some(orders[o].entryPrice) else None)];
      done := Ok(());
    }

    method ExpirePending(before: Option<int>) returns (done: Outcome<nat>)
      modifies this`accounts, this`pendings
      ensures match ExpireFrom(old(Snapshot()), 0, before)
              case Ok(after) => Snapshot() == after && done == Ok(ExpiringUpTo(old(pendings), before, |old(pendings)|))
              case Raise(error) => done == Raise(error)
    {
      var expired := 0;
      var i := 0;
      while i < |pendings|
        invariant i <= |pendings| == |old(pendings)|
        invariant forall k :: i <= k < |pendings| ==> pendings[k] == old(pendings)[k]
        invariant expired == ExpiringUpTo(old(pendings), before, i)
        invariant ExpireFrom(Snapshot(), i, before) == ExpireFrom(old(Snapshot()), 0, before)
      {
        if ExpiresNow(pendings[i], before) {
          var closed := CloseAndRefund(i, Expired);
          if closed.Raise? {
            return Raise(closed.error);
          }
          expired := expired + 1;
        }
        i := i + 1;
      }
      done := Ok(expired);
    }

    /** One transaction an order: committed, or rolled back and the refusal
        recorded in a transaction of its own, or rolled back and left resting. */
    method ScanAndFill(marketOpen: bool, ticks: seq<Tick>) returns (filled: nat)
      requires saved == Snapshot()
      modifies this
      ensures filled == if marketOpen then FillNotices(SweepEvents(old(Snapshot()), ticks)) else 0
      ensures saved == Snapshot() == if marketOpen then Sweep(old(Snapshot()), ticks) else old(Snapshot())
      ensures log == old(log) + if marketOpen then SweepEvents(old(Snapshot()), ticks) else []
    {
      filled := 0;
      if !marketOpen {
        return;
      }
      var n := 0;
      assert ticks[0..] == ticks;
      while n < |ticks|
        invariant n <= |ticks| && saved == Snapshot()
        invariant SweepsOn(old(Snapshot()), old(log), ticks, n, Snapshot(), log)
        invariant FillNotices(log) == FillNotices(old(log)) + filled
      {
        ghost var b, told := Snapshot(), log;
        var goOn, counted := ScanOne(ticks[n]);
        OneTickOn(old(Snapshot()), old(log), ticks, n, b, told, Snapshot(), log);
        TickCounts(old(log), told, b, ticks[n], filled);
        if counted {
          filled := filled + 1;
        }
        if !goOn {
          break;
        }
        n := n + 1;
      }
      assert n == |ticks| ==> ticks[n..] == [] && log + [] == log;
      SweepCounts(old(log), SweepEvents(old(Snapshot()), ticks), filled);
    }

    method RecordRefusal(i: nat, user: nat)
      requires saved == Snapshot()
      modifies this
      ensures saved == Snapshot()
      ensures match PendingOrders.RejectOne(old(Snapshot()), i)
              case Ok(after) => Snapshot() == after && log == old(log) + [Durable, Told(user, LimitRejected)]
              case Raise(_) => Snapshot() == old(Snapshot()) && log == old(log) + [Undone]
    {
      var rejected := RejectOne(i);
      if rejected.Ok? {
        Commit();
        Notify(user, LimitRejected);
      } else {
        Rollback();
      }
    }

    method ScanOne(tick: Tick) returns (goOn: bool, counted: bool)
      requires saved == Snapshot()
      modifies this
      ensures saved == Snapshot() == SweepStep(old(Snapshot()), tick).0
      ensures goOn <==> SweepStep(old(Snapshot()), tick).1 != Stopped
      ensures counted <==> SweepStep(old(Snapshot()), tick).1 == Committed
      ensures log == old(log) + StepEvents(old(Snapshot()), tick)
    {
      if !(tick.id < |pendings| && tick.quote.Some? && IsTriggered(pendings[tick.id], tick.quote.value)) {
        return true, false;
      }
      var user := pendings[tick.id].user;
      var filled := FillOne(tick.id, tick.market);
      if filled.Ok? {
        Commit();
        Notify(user, LimitFilled);
        return true, true;
      }
      Rollback();
      if filled.error == MarketClosed {
        return false, false;
      }
      if Refusal(filled.error) {
        RecordRefusal(tick.id, user);
      }
      goOn, counted := true, false;
    }

    // --- strategy_execution_service ------------------------------------------

    /** Opens the legs and adds their mirrors, leg after leg. */
    method OpenLegs(i: nat, fills: seq<LegFill>)
      requires i < |strategies|
      modifies this`orders, this`strategies
      ensures strategies == old(strategies)[i := old(strategies)[i].(legs := OpenedLegs(old(strategies)[i].legs, fills))]
      ensures orders == old(orders) + MirrorsOf(old(strategies)[i], i, old(strategies)[i].legs, fills)
    {
      ghost var was, s := strategies, strategies[i];
      ghost var done := OpenedLegs(s.legs, fills);
      var n := 0;
      while n < |strategies[i].legs|
        invariant LegsUpTo(was, strategies, i, done, n)
        invariant orders == old(orders) + MirrorsOf(s, i, s.legs[..n], fills)
      {
        OneMoreMirror(s, i, s.legs, fills, n);
        OpenOneLeg(i, n, fills);
        n := n + 1;
      }
      AllLegsDone(was, strategies, i, done);
      assert s.legs[..n] == s.legs;
    }

    method OpenOneLeg(i: nat, n: nat, fills: seq<LegFill>)
      requires i < |strategies| && n < |strategies[i].legs|
      modifies this`orders, this`strategies
      ensures var s := old(strategies)[i];
              && strategies == old(strategies)[i := s.(legs := s.legs[n := OpenedLeg(s.legs[n], fills)])]
              && orders == old(orders) + if s.legs[n].kind == FUT || FillFor(fills, s.legs[n].id).None? then []
                                         else [MirrorOf(s, i, s.legs[n], FillFor(fills, s.legs[n].id).value)]
    {
      var row := strategies[i].legs[n];
      var fill := FillFor(fills, row.id);
      if fill.None? {
        assert strategies[i].legs[n := row] == strategies[i].legs;
        assert strategies[i := strategies[i]] == strategies;
        return;
      }
      var legs := strategies[i].legs[n := row.(entryPrice := Some(fill.value.fill))];
      legs := legs[n := legs[n].(status := OPEN)];
      assert legs == strategies[i].legs[n := OpenedLeg(row, fills)];
      strategies := strategies[i := strategies[i].(legs := legs)];
      if row.kind != FUT {
        orders := orders + [MirrorOf(strategies[i], i, row, fill.value)];
      }
    }

    method ExecuteStrategy(user: nat, i: nat, m: ExecutionMarket) returns (done: Outcome<()>)
      modifies this`accounts, this`orders, this`strategies
      ensures Follows(done, Snapshot(), StrategyExecution.ExecuteStrategy(old(Snapshot()), user, i, m))
    {
      if !m.open {
        return Raise(MarketClosed);
      }
      if i >= |strategies| || strategies[i].user != user {
        return Raise(NotFound);
      }
      if !strategies[i].status.Draft? {
        return Raise(NotADraft);
      }
      if strategies[i].legs == [] {
        return Raise(EmptyStrategy);
      }
      if user >= |accounts| {
        return Raise(NoAccount);
      }
      var invalid := Builder.ValidateStrategy(ToDraft(strategies[i]));
      if invalid.Some? {
        return Raise(invalid.value);
      }
      var plan := PlanExecution(strategies[i].legs, m.quotes);
      if plan.problems > 0 {
        return Raise(Unpriceable);
      }
      if accounts[user].balance < m.margin {
        return Raise(InsufficientBalance);
      }
      if accounts[user].disciplineOn && m.violates {
        return Raise(DisciplineViolation);
      }
      done := Persist(i, plan, m.margin);
    }

    method Persist(i: nat, plan: Plan, margin: int) returns (done: Outcome<()>)
      requires i < |strategies|
      modifies this`accounts, this`orders, this`strategies
      ensures var b, s := old(Snapshot()), old(strategies)[i];
              Follows(done, Snapshot(),
                      PostTo(b.(orders := b.orders + MirrorsOf(s, i, s.legs, plan.fills),
                                strategies := b.strategies[i := ExecutedStrategy(s, plan, margin)]),
                             s.user, TRADE_DEBIT, -margin, STRATEGY_POSITION(i), Margin))
    {
      OpenLegs(i, plan.fills);
      strategies := strategies[i := strategies[i].(status := Executed)];
      strategies := strategies[i := strategies[i].(position := Some(StrategyPosition(margin, 0, plan.totalBrokerage, true)))];
      assert strategies == old(strategies)[i := ExecutedStrategy(old(strategies)[i], plan, margin)];
      done := Post(strategies[i].user, TRADE_DEBIT, -margin, STRATEGY_POSITION(i), Margin);
    }

    /** Closes leg `k` and its mirror. The lookup of the mirror runs against
        the database, which holds the orders as last flushed. */
    method CloseSingleLeg(i: nat, k: nat, exit: int, flushed: seq<Order>) returns (realized: int)
      requires i < |strategies| && k < |strategies[i].legs| && |flushed| == |orders|
      modifies this`orders, this`strategies
      ensures var s := old(strategies)[i];
              && realized == LegPnl(s.legs[k], exit)
              && strategies == old(strategies)[i := s.(legs := s.legs[k := ClosedLeg(s.legs[k], exit)])]
              && orders == CloseMirror(old(orders), flushed, i, s.legs[k], exit)
    {
      var row := strategies[i].legs[k];
      var gross := Sign(row.action) * (exit - row.entryPrice.GetOr(0)) * (row.lots * row.lotSize);
      realized := gross - BrokerageOn(exit, row.lots, row.lotSize, Opposite(row.action));
      var closed := row.(exitPrice := Some(exit), realizedPnl := realized, status := CLOSED);
      strategies := strategies[i := strategies[i].(legs := strategies[i].legs[k := closed])];
      if row.kind == FUT {
        return;
      }
      var o := FindMirror(flushed, i, row);
      if o < |flushed| {
        orders := orders[o := orders[o].(exitPrice := Some(exit), pnl := Some(realized))];
        orders := orders[o := orders[o].(status := Closed)];
      }
    }

    method CloseIfAllLegsDone(i: nat) returns (done: Outcome<()>)
      requires i < |strategies|
      modifies this`accounts, this`strategies
      ensures Follows(done, Snapshot(), Finish(old(Snapshot()), i))
    {
      if AnyOpen(strategies[i].legs) {
        return Ok(());
      }
      strategies := strategies[i := strategies[i].(status := SquaredOff)];
      if strategies[i].position.Some? && strategies[i].position.value.isOpen {
        var p, user := strategies[i].position.value, strategies[i].user;
        done := PayOut(user, STRATEGY_POSITION(i), p.marginBlocked, p.realizedPnl - p.brokerage);
        if done.Raise? {
          return;
        }
        strategies := strategies[i := strategies[i].(position := Some(p.(isOpen := false)))];
      }
      done := Ok(());
    }

    method Realize(i: nat, realized: int)
      requires i < |strategies|
      modifies this`strategies
      ensures strategies == old(strategies)[i := AddRealized(old(strategies)[i], realized)]
    {
      if strategies[i].position.Some? {
        var p := strategies[i].position.value;
        strategies := strategies[i := strategies[i].(position := Some(p.(realizedPnl := p.realizedPnl + realized)))];
      }
    }

    method CloseLeg(user: nat, i: nat, legId: nat, marketOpen: bool, exit: int) returns (done: Outcome<()>)
      modifies this`accounts, this`orders, this`strategies
      ensures Follows(done, Snapshot(), StrategyExecution.CloseLeg(old(Snapshot()), user, i, legId, marketOpen, exit))
    {
      if !marketOpen {
        return Raise(MarketClosed);
      }
      if i >= |strategies| || strategies[i].user != user {
        return Raise(NotFound);
      }
      var k := LegIndex(strategies[i].legs, legId);
      if k == |strategies[i].legs| {
        return Raise(LegNotFound);
      }
      if strategies[i].legs[k].status != OPEN {
        return Raise(LegNotOpen);
      }
      var realized := CloseSingleLeg(i, k, exit, orders);
      Realize(i, realized);
      assert strategies == old(strategies)[i := OneClosed(old(strategies)[i], k, exit)];
      done := CloseIfAllLegsDone(i);
    }

    /** Nothing is flushed between the legs, so every mirror lookup sees the
        orders as they were when the call began. */
    method CloseOpenLegs(i: nat, exits: seq<int>) returns (total: int)
      requires i < |strategies|
      modifies this`orders, this`strategies
      ensures var s := old(strategies)[i];
              && total == RealizedUpTo(s.legs, exits, |s.legs|)
              && strategies == old(strategies)[i := s.(legs := ClosedLegs(s.legs, exits))]
              && orders == MirrorsClosed(old(orders), i, s.legs, exits, |s.legs|)
    {
      ghost var was, s := strategies, strategies[i];
      ghost var done := ClosedLegs(s.legs, exits);
      var flushed := orders;
      var k := 0;
      total := 0;
      while k < |strategies[i].legs|
        invariant LegsUpTo(was, strategies, i, done, k) && |orders| == |flushed|
        invariant total == RealizedUpTo(s.legs, exits, k)
        invariant orders == MirrorsClosed(flushed, i, s.legs, exits, k)
      {
        if strategies[i].legs[k].status == OPEN {
          var realized := CloseSingleLeg(i, k, ExitOf(exits, k), flushed);
          total := total + realized;
        }
        k := k + 1;
      }
      AllLegsDone(was, strategies, i, done);
    }

    method SquareOff(user: nat, i: nat, marketOpen: bool, exits: seq<int>) returns (done: Outcome<()>)
      modifies this`accounts, this`orders, this`strategies
      ensures Follows(done, Snapshot(), StrategyExecution.SquareOff(old(Snapshot()), user, i, marketOpen, exits))
    {
      if !marketOpen {
        return Raise(MarketClosed);
      }
      if i >= |strategies| || strategies[i].user != user {
        return Raise(NotFound);
      }
      if !strategies[i].status.Executed? {
        return Raise(NotExecuted);
      }
      var total := CloseOpenLegs(i, exits);
      Realize(i, total);
      assert strategies == old(strategies)[i := AllClosed(old(strategies)[i], exits)];
      done := CloseIfAllLegsDone(i);
    }

    // --- strategy_service ----------------------------------------------------

    method SaveDraft(s: Strategy) returns (done: Outcome<()>)
      modifies this`strategies
      ensures Follows(done, Snapshot(), StrategyDrafts.SaveDraft(old(Snapshot()), s))
    {
      if s.user >= |accounts| {
        return Raise(NoAccount);
      }
      if !s.status.Draft? || s.position.Some? || !AllPending(s.legs) {
        return Raise(ConstraintViolated);
      }
      strategies := strategies + [s];
      done := Ok(());
    }

    method EditDraft(user: nat, i: nat, legs: seq<LegRow>) returns (done: Outcome<()>)
      modifies this`strategies
      ensures Follows(done, Snapshot(), StrategyDrafts.EditDraft(old(Snapshot()), user, i, legs))
    {
      if i >= |strategies| || strategies[i].user != user {
        return Raise(NotFound);
      }
      if !strategies[i].status.Draft? {
        return Raise(NotADraft);
      }
      if !AllPending(legs) {
        return Raise(ConstraintViolated);
      }
      strategies := strategies[i := strategies[i].(legs := legs)];
      done := Ok(());
    }

    // --- One request ---------------------------------------------------------

    /** A request commits when its service returns and rolls back when it
        raises, so it takes exactly one step of the run model. */
    method Serve(call: Runs.Call)
      requires saved == Snapshot()
      modifies this
      ensures saved == Snapshot() == Runs.Step(old(Snapshot()), call)
      ensures Inv(old(Snapshot())) ==> Inv(Snapshot())
    {
      ghost var b := Snapshot();
      if call.FillLimit? {
        var goOn, counted := ScanOne(call.tick);
      } else {
        var done := Dispatch(call);
        if done.Ok? {
          Commit();
        } else {
          Rollback();
        }
      }
      if Inv(b) {
        Runs.StepKeeps(b, call);
      }
    }

    method Dispatch(call: Runs.Call) returns (done: Outcome<()>)
      requires !call.FillLimit?
      modifies this`accounts, this`pendings, this`orders, this`strategies
      ensures Runs.Step(old(Snapshot()), call) == if done.Ok? then Snapshot() else old(Snapshot())
    {
      match call
      case OpenAnAccount => done := OpenAccount();
      case PlaceLimit(user, intent, market, day) =>
        var placed := PlacePending(user, intent, market, day);
        done := if placed.Ok? then Ok(()) else Raise(placed.error);
      case CancelLimit(user, id) => done := CancelPending(user, id);
      case ExpireLimits(before) =>
        var expired := ExpirePending(before);
        done := if expired.Ok? then Ok(()) else Raise(expired.error);
      case PlaceMarket(user, clientId, terms, market) =>
        var placed := PlaceOrder(user, clientId, terms, market);
        done := if placed.Ok? then Ok(()) else Raise(placed.error);
      case CloseMarket(user, id, marketOpen, exit, reason) => done := CloseOrder(user, id, marketOpen, exit, reason);
      case Save(strategy) => done := SaveDraft(strategy);
      case Edit(user, id, legs) => done := EditDraft(user, id, legs);
      case Execute(user, id, conditions) => done := ExecuteStrategy(user, id, conditions);
      case CloseOne(user, id, legId, marketOpen, exit) => done := CloseLeg(user, id, legId, marketOpen, exit);
      case CloseAll(user, id, marketOpen, exits) => done := SquareOff(user, id, marketOpen, exits);
      case SwitchMode(user, enabled) => done := SetMode(user, enabled);
    }
  }
}
