/** The ledger rows each money-moving call writes: their type, amount, reference
    and purpose, in order, and no other row on anybody's ledger. */
module AuditRows {
  import opened Wrappers
  import opened Domain
  import opened Ledger
  import opened Books
  import opened SingleOrders
  import opened PendingOrders
  import opened LimitOrders
  import opened StrategyExecution
  import opened DisciplineMode

  datatype Entry = Entry(txnType: TxnType, amount: int, reference: Reference, purpose: Purpose)

  /** The rows of some entries, each from the balance the one before left. */
  function RowsFrom(balance: int, entries: seq<Entry>): seq<Row>
    decreases |entries|
  {
    if entries == [] then []
    else
      var e := entries[0];
      [Row(e.txnType, e.amount, balance, balance + e.amount, e.reference, e.purpose)] + RowsFrom(balance + e.amount, entries[1..])
  }

  /** These entries are all that was written, to this user's ledger. */
  ghost predicate Wrote(before: seq<Account>, after: seq<Account>, user: nat, entries: seq<Entry>) {
    && user < |before| == |after|
    && after[user].rows == before[user].rows + RowsFrom(before[user].balance, entries)
    && forall v :: 0 <= v < |before| && v != user ==> after[v].rows == before[v].rows
  }

  lemma OneEntry(balance: int, e: Entry)
    ensures RowsFrom(balance, [e]) == [Row(e.txnType, e.amount, balance, balance + e.amount, e.reference, e.purpose)]
  {
    assert [e][1..] == [];
  }

  lemma PostWrote(b: Book, user: nat, e: Entry, after: Book)
    requires PostTo(b, user, e.txnType, e.amount, e.reference, e.purpose) == Ok(after)
    ensures Wrote(b.accounts, after.accounts, user, [e]) && after.accounts[user].balance == b.accounts[user].balance + e.amount
  {
    OneEntry(b.accounts[user].balance, e);
  }

  /** Nothing, or one entry, of realised P&L. */
  function PnlEntries(net: int, r: Reference): seq<Entry> {
    if net == 0 then [] else [Entry(if net > 0 then TRADE_CREDIT else TRADE_DEBIT, net, r, RealisedPnl)]
  }

  lemma WroteThen(before: seq<Account>, mid: seq<Account>, after: seq<Account>, user: nat, e: Entry, more: seq<Entry>)
    requires Wrote(before, mid, user, [e]) && Wrote(mid, after, user, more)
    requires mid[user].balance == before[user].balance + e.amount
    ensures Wrote(before, after, user, [e] + more)
  {
    assert ([e] + more)[1..] == more;
    OneEntry(before[user].balance, e);
  }

  lemma ExitWrote(b: Book, user: nat, r: Reference, margin: int, net: int, after: Book)
    requires PostExit(b, user, r, margin, net) == Ok(after)
    ensures Wrote(b.accounts, after.accounts, user,
                  (if margin == 0 then [] else [Entry(TRADE_CREDIT, margin, r, Margin)]) + PnlEntries(net, r))
  {
    var pnl := PnlEntries(net, r);
    if margin == 0 {
      assert [] + pnl == pnl;
      SettleWrote(b, user, net, r, after);
    } else {
      var e := Entry(TRADE_CREDIT, margin, r, Margin);
      var b1 := PostTo(b, user, TRADE_CREDIT, margin, r, Margin).value;
      PostWrote(b, user, e, b1);
      SettleWrote(b1, user, net, r, after);
      WroteThen(b.accounts, b1.accounts, after.accounts, user, e, pnl);
    }
  }

  lemma SettleWrote(b: Book, user: nat, net: int, r: Reference, after: Book)
    requires SettleTo(b, user, net, r) == Ok(after)
    ensures Wrote(b.accounts, after.accounts, user, PnlEntries(net, r))
  {
    if net != 0 {
      PostWrote(b, user, Entry(if net > 0 then TRADE_CREDIT else TRADE_DEBIT, net, r, RealisedPnl), after);
    }
  }

  // --- Orders -------------------------------------------------------------------

  /** Its margin, then its brokerage. */
  function PlacingEntries(terms: Terms, m: Market, o: nat): seq<Entry> {
    [Entry(TRADE_DEBIT, -MarginOf(terms, m), VIRTUAL_ORDER(o), Margin),
     Entry(CHARGE, -BrokerageOf(terms, m), VIRTUAL_ORDER(o), Brokerage)]
  }

  /** A new order writes its margin and its brokerage; a replay writes nothing. */
  lemma PlacingWrites(b: Book, user: nat, clientId: Option<nat>, terms: Terms, m: Market, after: Book, o: nat)
    requires PlaceOrder(b, user, clientId, terms, m) == Ok((after, o))
    ensures Wrote(b.accounts, after.accounts, user,
                  if o < |b.orders| then [] else PlacingEntries(terms, m, o))
  {
    if o >= |b.orders| {
      var b0 := b.(orders := b.orders + [NewOrder(user, clientId, terms, m)]);
      var debit := Entry(TRADE_DEBIT, -MarginOf(terms, m), VIRTUAL_ORDER(o), Margin);
      var charge := Entry(CHARGE, -BrokerageOf(terms, m), VIRTUAL_ORDER(o), Brokerage);
      var b1 := PostTo(b0, user, TRADE_DEBIT, debit.amount, VIRTUAL_ORDER(o), Margin).value;
      PostWrote(b0, user, debit, b1);
      PostWrote(b1, user, charge, after);
      WroteThen(b.accounts, b1.accounts, after.accounts, user, debit, [charge]);
      assert [debit] + [charge] == [debit, charge];
    }
  }

  /** Closing one writes its margin back, if it had a position, and its P&L, if
      there is any. */
  lemma ClosingWrites(b: Book, user: nat, i: nat, exit: int, reason: ExitReason, after: Book)
    requires CloseOrder(b, user, i, true, exit, reason) == Ok(after)
    ensures i < |b.orders| && i < |after.orders| && after.orders[i].pnl.Some?
    ensures Wrote(b.accounts, after.accounts, user,
                  (if HeldOnClosing(b.orders[i]) == 0 then []
                   else [Entry(TRADE_CREDIT, HeldOnClosing(b.orders[i]), VIRTUAL_ORDER(i), Margin)])
                  + PnlEntries(after.orders[i].pnl.value, VIRTUAL_ORDER(i)))
  {
    var o := b.orders[i];
    ExitWrote(b.(orders := b.orders[i := ClosedOrder(o, exit, reason)]), user, VIRTUAL_ORDER(i), HeldOnClosing(o),
              OrderNetPnl(o, exit), after);
  }

  function HeldOnClosing(o: Order): int {
    if o.position.Position? then o.position.marginBlocked else 0
  }

  // --- Resting limits -------------------------------------------------------------

  lemma ParkingWrites(b: Book, user: nat, intent: Intent, m: Market, day: int, after: Book, i: nat)
    requires PlacePending(b, user, intent, m, day) == Ok((after, i))
    ensures i < |after.pendings|
    ensures Wrote(b.accounts, after.accounts, user,
                  if i < |b.pendings| then [] else [Entry(TRADE_DEBIT, -after.pendings[i].marginBlocked, PENDING_ORDER(i), Margin)])
  {
    if i >= |b.pendings| {
      var p := NewPending(user, intent, m, day);
      PostWrote(b.(pendings := b.pendings + [p]), user, Entry(TRADE_DEBIT, -p.marginBlocked, PENDING_ORDER(i), Margin), after);
    }
  }

  lemma ReleaseWrites(b: Book, i: nat, p: PendingOrder, after: Book)
    requires i < |b.pendings| && Release(b, i, p) == Ok(after) && b.pendings[i].marginBlocked != 0
    ensures Wrote(b.accounts, after.accounts, b.pendings[i].user,
                  [Entry(REFUND, b.pendings[i].marginBlocked, PENDING_ORDER(i), Margin)])
  {
    PostWrote(b.(pendings := b.pendings[i := p]), b.pendings[i].user,
              Entry(REFUND, b.pendings[i].marginBlocked, PENDING_ORDER(i), Margin), after);
  }

  /** Cancelling or rejecting a limit writes its refund. */
  lemma LeavingWrites(b: Book, i: nat, status: PendingStatus, after: Book)
    requires Inv(b) && i < |b.pendings| && b.pendings[i].status == Pending && ClosePending(b, i, status) == Ok(after)
    ensures Wrote(b.accounts, after.accounts, b.pendings[i].user,
                  [Entry(REFUND, b.pendings[i].marginBlocked, PENDING_ORDER(i), Margin)])
  {
    assert TrailOk(b, b.pendings[i].user, PENDING_ORDER(i));
    ReleaseWrites(b, i, b.pendings[i].(status := status, marginBlocked := 0), after);
  }

  /** A fill writes the refund first and then what the order costs, if it is new. */
  lemma FillingWrites(b: Book, i: nat, m: Market, after: Book)
    requires Inv(b) && i < |b.pendings| && b.pendings[i].status == Pending && FillOne(b, i, m) == Ok(after)
    ensures i < |after.pendings| && after.pendings[i].filledOrder.Some?
    ensures var p, o := b.pendings[i], after.pendings[i].filledOrder.value;
            Wrote(b.accounts, after.accounts, p.user,
                  [Entry(REFUND, p.marginBlocked, PENDING_ORDER(i), Margin)]
                  + if o < |b.orders| then [] else PlacingEntries(p.terms, m, o))
  {
    var p := b.pendings[i];
    assert TrailOk(b, p.user, PENDING_ORDER(i));
    var refund := Entry(REFUND, p.marginBlocked, PENDING_ORDER(i), Margin);
    var b1 := Release(b, i, p.(marginBlocked := 0)).value;
    var (b2, o) := PlaceOrder(b1, p.user, p.clientId, p.terms, m).value;
    ReleaseWrites(b, i, p.(marginBlocked := 0), b1);
    PlacingWrites(b1, p.user, p.clientId, p.terms, m, b2, o);
    WroteThen(b.accounts, b1.accounts, after.accounts, p.user, refund,
              if o < |b.orders| then [] else PlacingEntries(p.terms, m, o));
  }

  // --- Strategies and the mode -----------------------------------------------------

  lemma ExecutingWrites(b: Book, user: nat, i: nat, m: ExecutionMarket, after: Book)
    requires ExecuteStrategy(b, user, i, m) == Ok(after)
    ensures Wrote(b.accounts, after.accounts, user, [Entry(TRADE_DEBIT, -m.margin, STRATEGY_POSITION(i), Margin)])
  {
    ExecutionPosts(b, user, i, m, after, -m.margin);
    PostWrote(FilledBook(b, i, m.quotes, m.margin), user, Entry(TRADE_DEBIT, -m.margin, STRATEGY_POSITION(i), Margin), after);
  }

  /** The close that ends a strategy writes its margin back and, if it is not
      nothing, its P&L net of the entry brokerage. */
  lemma SettlingWrites(b: Book, i: nat, after: Book)
    requires i < |b.strategies| && Finish(b, i) == Ok(after) && !AnyOpen(b.strategies[i].legs)
    requires b.strategies[i].position.Some? && b.strategies[i].position.value.isOpen && 0 < b.strategies[i].position.value.marginBlocked
    ensures var s, p := b.strategies[i], b.strategies[i].position.value;
            Wrote(b.accounts, after.accounts, s.user,
                  [Entry(TRADE_CREDIT, p.marginBlocked, STRATEGY_POSITION(i), Margin)]
                  + PnlEntries(p.realizedPnl - p.brokerage, STRATEGY_POSITION(i)))
  {
    var s, p := b.strategies[i], b.strategies[i].position.value;
    ExitWrote(b.(strategies := b.strategies[i := Settled(s)]), s.user, STRATEGY_POSITION(i), p.marginBlocked,
              p.realizedPnl - p.brokerage, after);
  }

  /** Switching the rules off writes the top-up, if one is needed; on, nothing. */
  lemma SwitchingWrites(b: Book, user: nat, enabled: bool, after: Book)
    requires SetMode(b, user, enabled) == Ok(after)
    ensures user < |b.accounts| && user < |after.accounts|
    ensures var added := after.accounts[user].balance - b.accounts[user].balance;
            Wrote(b.accounts, after.accounts, user,
                  if added == 0 then [] else [Entry(MANUAL_ADJUSTMENT, added, ACCOUNT(user), CapitalUnlock)])
  {
    var added := after.accounts[user].balance - b.accounts[user].balance;
    if added != 0 {
      var b1 := ChangeAccount(b, user, b.accounts[user].(disciplineOn := enabled));
      var b2 := PostTo(b1, user, MANUAL_ADJUSTMENT, added, ACCOUNT(user), CapitalUnlock).value;
      PostWrote(b1, user, Entry(MANUAL_ADJUSTMENT, added, ACCOUNT(user), CapitalUnlock), b2);
    }
  }
}
