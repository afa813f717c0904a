/** When each strategy call succeeds and what it then writes, in the terms of the
    draft, the quotes and the exit fills. */
module StrategyCalls {
  import opened Wrappers
  import opened Domain
  import opened Ledger
  import opened Books
  import opened StrategyExecution
  import opened StrategySettlement
  import SingleOrders
  import Builder

  // --- Executing ---------------------------------------------------------------

  /** As the builder's check reads a stored leg. */
  ghost predicate RowFits(row: LegRow, underlying: string) {
    Builder.LegFits(Leg(row.id, Contract(row.instrument, row.expiry, row.kind, row.strike, None, None), row.action, row.lots,
                        row.lotSize, row.entryPrice, row.status), underlying)
  }

  /** One to ten fitting legs, of one expiry unless calendars are allowed. */
  ghost predicate DraftFits(s: Strategy) {
    && 1 <= |s.legs| <= 10
    && (forall k :: 0 <= k < |s.legs| ==> RowFits(s.legs[k], s.underlying))
    && (s.allowCalendar || forall j, k :: 0 <= j < |s.legs| && 0 <= k < |s.legs| ==> s.legs[j].expiry == s.legs[k].expiry)
  }

  lemma DraftFitsIff(s: Strategy)
    requires s.legs != []
    ensures Builder.ValidateStrategy(ToDraft(s)).None? <==> DraftFits(s)
  {
    var d := ToDraft(s);
    Builder.ValidateStrategyIff(d);
    forall k | 0 <= k < |s.legs|
      ensures Builder.LegFits(d.legs[k], d.underlying) <==> RowFits(s.legs[k], s.underlying)
    {
    }
    assert forall k :: 0 <= k < |s.legs| ==> d.legs[k].contract.expiry == s.legs[k].expiry;
  }

  ghost predicate EveryLegQuoted(legs: seq<LegRow>, quotes: seq<Quote>, n: nat) {
    forall k :: 0 <= k < n ==> k < |quotes| && quotes[k].Usable?
  }

  lemma {:induction false} NoProblemsIff(legs: seq<LegRow>, quotes: seq<Quote>, n: nat)
    requires n <= |legs|
    ensures PlanUpTo(legs, quotes, n).problems == 0 <==> EveryLegQuoted(legs, quotes, n)
  {
    if n > 0 {
      NoProblemsIff(legs, quotes, n - 1);
    }
  }

  /** A draft executes exactly when the market is open, it is the user's own, fits,
      has a usable quote for every leg, is not forbidden, and its margin is
      positive and covered. */
  lemma ExecutePossibleIff(b: Book, user: nat, i: nat, m: ExecutionMarket)
    ensures ExecuteStrategy(b, user, i, m).Ok?
            <==> && m.open && user < |b.accounts| && i < |b.strategies| && b.strategies[i].user == user
                 && b.strategies[i].status == Draft && DraftFits(b.strategies[i])
                 && EveryLegQuoted(b.strategies[i].legs, m.quotes, |b.strategies[i].legs|)
                 && !(b.accounts[user].disciplineOn && m.violates)
                 && 0 < m.margin <= b.accounts[user].balance
  {
    if i < |b.strategies| && b.strategies[i].legs != [] {
      DraftFitsIff(b.strategies[i]);
      NoProblemsIff(b.strategies[i].legs, m.quotes, |b.strategies[i].legs|);
    }
  }

  /** How many of the first `n` legs are options. */
  function OptionsAmong(legs: seq<LegRow>, n: nat): nat
    requires n <= |legs|
  {
    if n == 0 then 0 else OptionsAmong(legs, n - 1) + if legs[n - 1].kind == FUT then 0 else 1
  }

  /** The order that shows an option leg in the book: its terms, its fill and its
      brokerage, without a stop, a target or a position of its own. */
  ghost predicate ShowsLeg(o: Order, s: Strategy, sid: nat, row: LegRow, fill: int) {
    && o.user == s.user && o.clientId.None? && o.strategy == Some(sid) && o.position.NoPosition?
    && o.status.Open? && o.exitPrice.None? && o.pnl.None? && o.entryPrice == fill
    && o.entryBrokerage == 0 && o.brokerage == SingleOrders.BrokerageOn(fill, row.lots, row.lotSize, row.action)
    && var t := o.terms;
       && t.instrument == s.underlying && t.expiry == row.expiry && t.kind == row.kind && t.action == row.action
       && (row.strike.Some? ==> t.strike == row.strike.value)
       && t.quantity == row.lots && t.lotSize == row.lotSize && t.product == s.product
       && t.slPrice.None? && t.targetPrice.None? && t.setupTag == (if s.setupTag == "" then "OTHER" else s.setupTag)
  }

  ghost predicate LegShown(orders: seq<Order>, s: Strategy, sid: nat, quotes: seq<Quote>, k: nat)
    requires k < |s.legs|
  {
    && k < |quotes| && quotes[k].Usable? && OptionsAmong(s.legs, k) < |orders|
    && ShowsLeg(orders[OptionsAmong(s.legs, k)], s, sid, s.legs[k], quotes[k].fill)
  }

  ghost predicate OptionsShown(orders: seq<Order>, s: Strategy, sid: nat, quotes: seq<Quote>, n: nat)
    requires n <= |s.legs|
  {
    |orders| == OptionsAmong(s.legs, n) && forall k: nat :: k < n && s.legs[k].kind != FUT ==> LegShown(orders, s, sid, quotes, k)
  }

  /** The plan holds leg `k`'s fill, at its own quote. */
  ghost predicate HasItsFill(fills: seq<LegFill>, legs: seq<LegRow>, quotes: seq<Quote>, k: nat)
    requires k < |legs|
  {
    && k < |quotes| && quotes[k].Usable?
    && FillFor(fills, legs[k].id) == Some(FillOf(legs[k], quotes[k].ltp, quotes[k].fill))
  }

  lemma OneMoreShown(orders: seq<Order>, s: Strategy, sid: nat, quotes: seq<Quote>, n: nat, more: seq<Order>)
    requires n < |s.legs| && OptionsShown(orders, s, sid, quotes, n)
    requires if s.legs[n].kind == FUT then more == []
             else n < |quotes| && quotes[n].Usable? && |more| == 1 && ShowsLeg(more[0], s, sid, s.legs[n], quotes[n].fill)
    ensures OptionsShown(orders + more, s, sid, quotes, n + 1)
  {
    forall k: nat | k < n + 1 && s.legs[k].kind != FUT
      ensures LegShown(orders + more, s, sid, quotes, k)
    {
      if k < n {
        StaysShown(orders, s, sid, quotes, k, more);
      } else {
        assert (orders + more)[|orders|] == more[0];
      }
    }
  }

  lemma StaysShown(orders: seq<Order>, s: Strategy, sid: nat, quotes: seq<Quote>, k: nat, more: seq<Order>)
    requires k < |s.legs| && LegShown(orders, s, sid, quotes, k)
    ensures LegShown(orders + more, s, sid, quotes, k)
  {
  }

  lemma MirrorShowsLeg(s: Strategy, sid: nat, row: LegRow, ltp: int, fill: int)
    ensures ShowsLeg(MirrorOf(s, sid, row, FillOf(row, ltp, fill)), s, sid, row, fill)
  {
  }

  lemma {:induction false} MirrorsShowTheOptions(s: Strategy, sid: nat, quotes: seq<Quote>, fills: seq<LegFill>, n: nat)
    requires n <= |s.legs| && forall k :: 0 <= k < |s.legs| ==> HasItsFill(fills, s.legs, quotes, k)
    ensures OptionsShown(MirrorsOf(s, sid, s.legs[..n], fills), s, sid, quotes, n)
  {
    if n > 0 {
      var row := s.legs[n - 1];
      var earlier := MirrorsOf(s, sid, s.legs[..n - 1], fills);
      MirrorsShowTheOptions(s, sid, quotes, fills, n - 1);
      assert s.legs[..n][..n - 1] == s.legs[..n - 1];
      assert HasItsFill(fills, s.legs, quotes, n - 1);
      var more := if row.kind == FUT then [] else [MirrorOf(s, sid, row, FillOf(row, quotes[n - 1].ltp, quotes[n - 1].fill))];
      MirrorShowsLeg(s, sid, row, quotes[n - 1].ltp, quotes[n - 1].fill);
      OneMoreShown(earlier, s, sid, quotes, n - 1, more);
      assert MirrorsOf(s, sid, s.legs[..n], fills) == earlier + more;
    }
  }

  lemma EveryLegHasItsFill(legs: seq<LegRow>, quotes: seq<Quote>, fills: seq<LegFill>)
    requires PlanUpTo(legs, quotes, |legs|).problems == 0 && fills == PlanUpTo(legs, quotes, |legs|).fills
    requires forall i, j :: 0 <= i < j < |legs| ==> legs[i].id != legs[j].id
    ensures forall k :: 0 <= k < |legs| ==> HasItsFill(fills, legs, quotes, k)
  {
    AcceptedPlanFillsEveryLeg(legs, quotes, |legs|, PlanUpTo(legs, quotes, |legs|));
    forall k | 0 <= k < |legs|
      ensures HasItsFill(fills, legs, quotes, k)
    {
      LastFillForLeg(fills, k);
    }
  }

  /** Executing adds one order for each option leg, in leg order, showing that
      leg at the fill of its own quote, and no other. */
  lemma ExecutionShowsTheOptions(b: Book, user: nat, i: nat, m: ExecutionMarket, b0: Book, s: Strategy)
    requires ExecuteStrategy(b, user, i, m) == Ok(b0) && i < |b.strategies| && s == b.strategies[i]
    requires forall j, k :: 0 <= j < k < |s.legs| ==> s.legs[j].id != s.legs[k].id
    ensures |b.orders| <= |b0.orders| && b0.orders[..|b.orders|] == b.orders
    ensures OptionsShown(b0.orders[|b.orders|..], s, i, m.quotes, |s.legs|)
  {
    var fills := PlanUpTo(s.legs, m.quotes, |s.legs|).fills;
    EveryLegHasItsFill(s.legs, m.quotes, fills);
    MirrorsShowTheOptions(s, i, m.quotes, fills, |s.legs|);
    assert s.legs[..|s.legs|] == s.legs;
    assert b0.orders == b.orders + MirrorsOf(s, i, s.legs, fills);
  }

  // --- Closing one leg -----------------------------------------------------------

  /** The first leg with the id. */
  ghost predicate FirstWithId(legs: seq<LegRow>, id: nat, k: nat) {
    k < |legs| && legs[k].id == id && forall l :: 0 <= l < k ==> legs[l].id != id
  }

  /** Closed at `exit`, with what that makes. */
  function Exited(leg: LegRow, exit: int): LegRow {
    leg.(exitPrice := Some(exit), status := CLOSED, realizedPnl := Made(leg, leg.entryPrice.GetOr(0), exit))
  }

  lemma ExitedIs(leg: LegRow, exit: int)
    ensures ClosedLeg(leg, exit) == Exited(leg, exit) && LegPnl(leg, exit) == Made(leg, leg.entryPrice.GetOr(0), exit)
  {
    SignedMove(leg.action, exit - leg.entryPrice.GetOr(0), leg.lots * leg.lotSize);
  }

  ghost predicate OthersOpen(legs: seq<LegRow>, k: nat) {
    exists l :: 0 <= l < |legs| && l != k && legs[l].status == OPEN
  }

  /** A leg can be closed while the market is open, by the owner, if it is open,
      and, being the last, only if balance and margin cover the settlement. */
  lemma CloseLegPossibleIff(b: Book, user: nat, i: nat, legId: nat, open: bool, exit: int, k: nat)
    requires Inv(b) && i < |b.strategies| && FirstWithId(b.strategies[i].legs, legId, k)
    ensures b.strategies[i].legs[k].status == OPEN ==> b.strategies[i].position.Some? && b.strategies[i].user < |b.accounts|
    ensures CloseLeg(b, user, i, legId, open, exit).Ok?
            <==> && open && b.strategies[i].user == user && b.strategies[i].legs[k].status == OPEN
                 && (OthersOpen(b.strategies[i].legs, k)
                     || var p := b.strategies[i].position.value;
                        0 <= b.accounts[user].balance + p.marginBlocked + p.realizedPnl - p.brokerage
                             + Made(b.strategies[i].legs[k], b.strategies[i].legs[k].entryPrice.GetOr(0), exit))
  {
    var s := b.strategies[i];
    assert LegIndex(s.legs, legId) == k;
    if s.legs[k].status == OPEN {
      OpenMeansReady(b, i, k);
      if open && s.user == user {
        OneCloses(b, user, i, k, exit, CloseMirror(b.orders, b.orders, i, s.legs[k], exit));
      }
    }
  }

  lemma OpenMeansReady(b: Book, i: nat, k: nat)
    requires Inv(b) && i < |b.strategies| && k < |b.strategies[i].legs| && b.strategies[i].legs[k].status == OPEN
    ensures Ready(b, b.strategies[i].user, i)
  {
    var s := b.strategies[i];
    assert TrailOk(b, s.user, STRATEGY_POSITION(i));
    assert s.legs[k] in s.legs;
    InvMakesReady(b, s.user, i);
  }

  lemma OthersOpenIff(legs: seq<LegRow>, k: nat, row: LegRow)
    requires k < |legs| && row.status != OPEN
    ensures AnyOpen(legs[k := row]) <==> OthersOpen(legs, k)
  {
    var after := legs[k := row];
    if OthersOpen(legs, k) {
      var l :| 0 <= l < |legs| && l != k && legs[l].status == OPEN;
      assert after[l] == legs[l] && after[l] in after;
    }
    if AnyOpen(after) {
      var l :| l in after && l.status == OPEN;
      var j :| 0 <= j < |after| && after[j] == l;
      assert j != k && legs[j].status == OPEN;
    }
  }

  lemma OneCloses(b: Book, user: nat, i: nat, k: nat, exit: int, orders: seq<Order>)
    requires Ready(b, user, i) && k < |b.strategies[i].legs| && b.strategies[i].legs[k].status == OPEN
    ensures var s, p := b.strategies[i], b.strategies[i].position.value;
            var made := Made(s.legs[k], s.legs[k].entryPrice.GetOr(0), exit);
            var done := Finish(Advanced(b, i, OneClosed(s, k, exit), orders), i);
            var c := s.(legs := s.legs[k := Exited(s.legs[k], exit)], position := Some(p.(realizedPnl := p.realizedPnl + made)));
            if OthersOpen(s.legs, k) then done == Ok(Advanced(b, i, c, orders))
            else
              && (done.Ok? <==> 0 <= b.accounts[user].balance + p.marginBlocked + p.realizedPnl - p.brokerage + made)
              && done == PostExit(Advanced(b, i, Settled(c), orders), user, STRATEGY_POSITION(i), p.marginBlocked,
                                  p.realizedPnl + made - p.brokerage)
  {
    var s := b.strategies[i];
    var c := OneClosed(s, k, exit);
    ExitedIs(s.legs[k], exit);
    OthersOpenIff(s.legs, k, Exited(s.legs[k], exit));
    FinishIs(b, i, c, orders);
    SingleOrders.ExitPossibleIff(Advanced(b, i, Settled(c), orders), user, STRATEGY_POSITION(i), c.position.value.marginBlocked,
                                 c.position.value.realizedPnl - c.position.value.brokerage);
  }

  /** Closing writes the leg's exit and what it made, and that on the position;
      with the last leg the margin, the P&L and the entry brokerage are settled
      once. Nothing else of the strategy and nobody else's money moves. */
  lemma ClosedLegIs(b: Book, user: nat, i: nat, legId: nat, exit: int, k: nat, after: Book)
    requires Inv(b) && i < |b.strategies| && FirstWithId(b.strategies[i].legs, legId, k)
    requires CloseLeg(b, user, i, legId, true, exit) == Ok(after)
    ensures b.strategies[i].position.Some? && user < |b.accounts| == |after.accounts| && after.pendings == b.pendings
    ensures var s, p := b.strategies[i], b.strategies[i].position.value;
            var made, last := Made(s.legs[k], s.legs[k].entryPrice.GetOr(0), exit), !OthersOpen(s.legs, k);
            && after.strategies == b.strategies[i := s.(legs := s.legs[k := Exited(s.legs[k], exit)],
                                                        status := if last then SquaredOff else s.status,
                                                        position := Some(p.(realizedPnl := p.realizedPnl + made, isOpen := !last)))]
            && after.accounts[user].balance
               == b.accounts[user].balance + if last then p.marginBlocked + p.realizedPnl + made - p.brokerage else 0
    ensures forall v :: 0 <= v < |b.accounts| && v != user ==> after.accounts[v] == b.accounts[v]
  {
    var s := b.strategies[i];
    assert LegIndex(s.legs, legId) == k;
    OpenMeansReady(b, i, k);
    OneCloses(b, user, i, k, exit, CloseMirror(b.orders, b.orders, i, s.legs[k], exit));
    if !OthersOpen(s.legs, k) {
      assert b.strategies[i := after.strategies[i]] == after.strategies;
    }
  }
}
