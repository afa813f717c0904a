/** The order book keeps telling the truth about every strategy over a run, as
    long as nobody closes a leg's mirror as if it were an order of its own. */
module MirrorRuns {
  import opened Wrappers
  import opened Domain
  import opened Books
  import opened SingleOrders
  import opened PendingOrders
  import opened StrategyExecution
  import opened StrategyDrafts
  import opened StrategyMirrors
  import opened Runs
  import Builder

  // --- One strategy's mirrors do not disturb another's ------------------------

  /** Orders of every strategy but `own` stay, and new ones are only `own`'s. */
  ghost predicate LeavesOthers(orders: seq<Order>, after: seq<Order>, own: Option<nat>) {
    && |orders| <= |after|
    && (forall o :: 0 <= o < |orders| ==> after[o].strategy == orders[o].strategy && (orders[o].strategy != own ==> after[o] == orders[o]))
    && (forall o :: |orders| <= o < |after| ==> after[o].strategy == own)
  }

  lemma OthersKeepMirrors(orders: seq<Order>, after: seq<Order>, own: Option<nat>, sid: nat, legs: seq<LegRow>)
    requires MirrorOk(orders, sid, legs) && LeavesOthers(orders, after, own) && own != Some(sid)
    ensures MirrorOk(after, sid, legs)
  {
    var keys, more := MirrorKeys(orders, sid), MirrorKeys(after, sid);
    assert forall o :: 0 <= o < |keys| ==> more[o] == keys[o];
    assert forall o :: |keys| <= o < |more| ==> more[o].None?;
    assert forall o, k :: Paired(after, sid, legs, o, k) ==> Paired(orders, sid, legs, o, k);
    forall i | 0 <= i < |LegKeys(legs)| && LegKeys(legs)[i].Some?
      ensures LegKeys(legs)[i] in more
    {
      var o :| 0 <= o < |keys| && keys[o] == LegKeys(legs)[i];
      assert more[o] == keys[o];
    }
  }

  /** Every strategy but `i` keeps its mirrors. */
  lemma OtherStrategiesKeep(b: Book, after: Book, own: Option<nat>, j: nat)
    requires MirrorInv(b) && LeavesOthers(b.orders, after.orders, own) && own != Some(j)
    requires j < |b.strategies| && j < |after.strategies| && after.strategies[j] == b.strategies[j]
    ensures !after.strategies[j].status.Draft? && Keyed(after.strategies[j].legs)
            ==> MirrorOk(after.orders, j, after.strategies[j].legs)
  {
    if !b.strategies[j].status.Draft? && Keyed(b.strategies[j].legs) {
      OthersKeepMirrors(b.orders, after.orders, own, j, b.strategies[j].legs);
    }
  }

  /** One strategy moved, and its own mirrors are right. */
  lemma StrategyMoveKeepsMirrors(b: Book, after: Book, i: nat)
    requires MirrorInv(b) && LeavesOthers(b.orders, after.orders, Some(i))
    requires i < |b.strategies| == |after.strategies| && !after.strategies[i].status.Draft?
    requires forall j :: 0 <= j < |b.strategies| && j != i ==> after.strategies[j] == b.strategies[j]
    requires Keyed(after.strategies[i].legs) ==> MirrorOk(after.orders, i, after.strategies[i].legs)
    ensures MirrorInv(after)
  {
    forall j | 0 <= j < |after.strategies| && !after.strategies[j].status.Draft? && Keyed(after.strategies[j].legs)
      ensures MirrorOk(after.orders, j, after.strategies[j].legs)
    {
      if j != i {
        OtherStrategiesKeep(b, after, Some(i), j);
      }
    }
  }

  /** Only orders of no strategy moved. */
  lemma StandaloneMoveKeepsMirrors(b: Book, after: Book)
    requires MirrorInv(b) && LeavesOthers(b.orders, after.orders, None) && after.strategies == b.strategies
    ensures MirrorInv(after)
  {
    forall j | 0 <= j < |after.strategies| && !after.strategies[j].status.Draft? && Keyed(after.strategies[j].legs)
      ensures MirrorOk(after.orders, j, after.strategies[j].legs)
    {
      OtherStrategiesKeep(b, after, None, j);
    }
  }

  /** Only drafts came or changed. */
  lemma DraftMoveKeepsMirrors(b: Book, after: Book)
    requires MirrorInv(b) && after.orders == b.orders && |b.strategies| <= |after.strategies|
    requires forall j :: 0 <= j < |b.strategies| ==> after.strategies[j] == b.strategies[j]
                                                     || (b.strategies[j].status.Draft? && after.strategies[j].status.Draft?)
    requires forall j :: |b.strategies| <= j < |after.strategies| ==> after.strategies[j].status.Draft?
    ensures MirrorInv(after)
  {
  }

  // --- Single orders ----------------------------------------------------------

  lemma PlaceOrderLeaves(b: Book, user: nat, clientId: Option<nat>, terms: Terms, m: Market, after: Book, i: nat)
    requires PlaceOrder(b, user, clientId, terms, m) == Ok((after, i))
    ensures LeavesOthers(b.orders, after.orders, None) && after.strategies == b.strategies
  {
  }

  lemma AttemptLeaves(b: Book, tick: Tick)
    ensures LeavesOthers(b.orders, Attempt(b, tick).0.orders, None) && Attempt(b, tick).0.strategies == b.strategies
  {
    if StillResting(b, tick.id) && FillOne(b, tick.id, tick.market).Ok? {
      var p := b.pendings[tick.id];
      var b1 := Release(b, tick.id, p.(marginBlocked := 0)).value;
      var (b2, o) := PlaceOrder(b1, p.user, p.clientId, p.terms, tick.market).value;
      PlaceOrderLeaves(b1, p.user, p.clientId, p.terms, tick.market, b2, o);
    }
  }

  lemma {:induction false} ExpireLeaves(b: Book, i: nat, before: Option<int>, after: Book)
    requires i <= |b.pendings| && ExpireFrom(b, i, before) == Ok(after)
    ensures after.orders == b.orders && after.strategies == b.strategies
    decreases |b.pendings| - i
  {
    if i < |b.pendings| {
      if ExpiresNow(b.pendings[i], before) {
        ExpireLeaves(ClosePending(b, i, Expired).value, i + 1, before, after);
      } else {
        ExpireLeaves(b, i + 1, before, after);
      }
    }
  }

  // --- Strategies -------------------------------------------------------------

  /** A strategy that passes the gate gives every option leg a strike. */
  lemma ValidMeansStrikes(s: Strategy)
    requires Builder.ValidateStrategy(ToDraft(s)).None?
    ensures StrikesGiven(s.legs)
  {
    var d := ToDraft(s);
    Builder.ValidateStrategyIff(d);
    forall k | 0 <= k < |s.legs| && s.legs[k].kind != FUT
      ensures s.legs[k].strike.Some?
    {
      assert Builder.LegFits(d.legs[k], d.underlying);
    }
  }

  lemma PlanMakesExecutable(b: Book, i: nat, quotes: seq<Quote>, fills: seq<LegFill>)
    requires MirrorInv(b) && i < |b.strategies| && b.strategies[i].status.Draft? && Keyed(b.strategies[i].legs)
    requires PlanUpTo(b.strategies[i].legs, quotes, |b.strategies[i].legs|).problems == 0
    requires fills == PlanUpTo(b.strategies[i].legs, quotes, |b.strategies[i].legs|).fills
    requires StrikesGiven(b.strategies[i].legs)
    ensures Executable(b.strategies[i], i, b.orders, fills)
  {
    var legs := b.strategies[i].legs;
    AcceptedPlanFillsEveryLeg(legs, quotes, |legs|, PlanUpTo(legs, quotes, |legs|));
    forall k | 0 <= k < |legs|
      ensures FillFor(fills, legs[k].id).Some?
    {
      FillForFinds(fills, k);
    }
  }

  lemma {:induction false} MirrorsAreOwn(s: Strategy, sid: nat, legs: seq<LegRow>, fills: seq<LegFill>)
    ensures forall k :: 0 <= k < |MirrorsOf(s, sid, legs, fills)| ==> MirrorsOf(s, sid, legs, fills)[k].strategy == Some(sid)
  {
    if legs != [] {
      MirrorsAreOwn(s, sid, legs[..|legs| - 1], fills);
    }
  }

  lemma ExecutedShape(b: Book, user: nat, i: nat, m: ExecutionMarket, after: Book, fills: seq<LegFill>)
    requires ExecuteStrategy(b, user, i, m) == Ok(after)
    requires fills == PlanUpTo(b.strategies[i].legs, m.quotes, |b.strategies[i].legs|).fills
    ensures i < |b.strategies| == |after.strategies| && b.strategies[i].status.Draft?
    ensures Builder.ValidateStrategy(ToDraft(b.strategies[i])).None?
    ensures PlanUpTo(b.strategies[i].legs, m.quotes, |b.strategies[i].legs|).problems == 0
    ensures after.orders == b.orders + MirrorsOf(b.strategies[i], i, b.strategies[i].legs, fills)
    ensures after.strategies[i].legs == OpenedLegs(b.strategies[i].legs, fills) && after.strategies[i].status.Executed?
    ensures forall j :: 0 <= j < |b.strategies| && j != i ==> after.strategies[j] == b.strategies[j]
  {
  }

  lemma ExecuteKeepsMirrors(b: Book, user: nat, i: nat, m: ExecutionMarket, after: Book)
    requires MirrorInv(b) && ExecuteStrategy(b, user, i, m) == Ok(after)
    ensures MirrorInv(after)
  {
    var s := b.strategies[i];
    var fills := PlanUpTo(s.legs, m.quotes, |s.legs|).fills;
    ExecutedShape(b, user, i, m, after, fills);
    MirrorsAreOwn(s, i, s.legs, fills);
    if Keyed(after.strategies[i].legs) {
      assert LegKeys(after.strategies[i].legs) == LegKeys(s.legs);
      ValidMeansStrikes(s);
      PlanMakesExecutable(b, i, m.quotes, fills);
      ExecutionMirrors(s, i, b.orders, fills, after.orders);
    }
    StrategyMoveKeepsMirrors(b, after, i);
  }

  lemma CloseMirrorLeaves(orders: seq<Order>, live: seq<Order>, sid: nat, row: LegRow, exit: int)
    requires LeavesOthers(orders, live, Some(sid)) && |live| == |orders|
    ensures LeavesOthers(orders, CloseMirror(live, orders, sid, row, exit), Some(sid))
  {
  }

  lemma {:induction false} MirrorsClosedLeaves(orders: seq<Order>, sid: nat, legs: seq<LegRow>, exits: seq<int>, n: nat)
    requires n <= |legs|
    ensures LeavesOthers(orders, MirrorsClosed(orders, sid, legs, exits, n), Some(sid))
  {
    if n > 0 {
      MirrorsClosedLeaves(orders, sid, legs, exits, n - 1);
      CloseMirrorLeaves(orders, MirrorsClosed(orders, sid, legs, exits, n - 1), sid, legs[n - 1], ExitOf(exits, n - 1));
    }
  }

  lemma FinishedShape(b: Book, i: nat, s: Strategy, orders: seq<Order>, after: Book)
    requires i < |b.strategies| && Finish(Advanced(b, i, s, orders), i) == Ok(after)
    ensures after.orders == orders && |after.strategies| == |b.strategies|
    ensures after.strategies[i].legs == s.legs && after.strategies[i].status in {s.status, SquaredOff}
    ensures forall j :: 0 <= j < |b.strategies| && j != i ==> after.strategies[j] == b.strategies[j]
  {
  }

  lemma CloseOneKeepsMirrorInv(b: Book, user: nat, i: nat, legId: nat, open: bool, exit: int, after: Book)
    requires Inv(b) && MirrorInv(b) && CloseLeg(b, user, i, legId, open, exit) == Ok(after)
    ensures MirrorInv(after)
  {
    var s := b.strategies[i];
    var k := LegIndex(s.legs, legId);
    var orders := CloseMirror(b.orders, b.orders, i, s.legs[k], exit);
    assert TrailOk(b, user, Ledger.STRATEGY_POSITION(i));
    OpenLegMeansLive(s, Ledger.Amounts(b.accounts[user].rows, Ledger.STRATEGY_POSITION(i)));
    FinishedShape(b, i, OneClosed(s, k, exit), orders, after);
    CloseMirrorLeaves(b.orders, b.orders, i, s.legs[k], exit);
    if Keyed(after.strategies[i].legs) {
      assert LegKeys(after.strategies[i].legs) == LegKeys(s.legs);
      CloseOneKeepsMirrors(b.orders, i, s.legs, k, exit, orders, after.strategies[i].legs);
    }
    StrategyMoveKeepsMirrors(b, after, i);
  }

  lemma CloseAllKeepsMirrorInv(b: Book, user: nat, i: nat, open: bool, exits: seq<int>, after: Book)
    requires MirrorInv(b) && SquareOff(b, user, i, open, exits) == Ok(after)
    ensures MirrorInv(after)
  {
    var s := b.strategies[i];
    var orders := MirrorsClosed(b.orders, i, s.legs, exits, |s.legs|);
    FinishedShape(b, i, AllClosed(s, exits), orders, after);
    MirrorsClosedLeaves(b.orders, i, s.legs, exits, |s.legs|);
    if Keyed(after.strategies[i].legs) {
      assert LegKeys(after.strategies[i].legs) == LegKeys(s.legs);
      SquareOffKeepsMirrors(b.orders, i, s.legs, exits, orders);
    }
    StrategyMoveKeepsMirrors(b, after, i);
  }

  // --- Runs -------------------------------------------------------------------

  /** The one call that breaks the correspondence: a mirror closed by itself,
      by its owner, in an open market, while open and affordable. */
  predicate ClosesMirrorAlone(b: Book, c: Call) {
    && c.CloseMarket?
    && c.marketOpen
    && c.id < |b.orders|
    && b.orders[c.id].strategy.Some?
    && b.orders[c.id].user == c.user < |b.accounts|
    && b.orders[c.id].status.Open?
    && 0 <= b.accounts[c.user].balance + OrderNetPnl(b.orders[c.id], c.exit)
  }

  /** The guard is exact: met, the call closes the mirror; unmet, closing a
      mirror raises and nothing changes. */
  lemma LoneCloseHappensIff(b: Book, c: Call)
    requires Inv(b) && c.CloseMarket? && c.id < |b.orders| && b.orders[c.id].strategy.Some?
    ensures Step(b, c) != b <==> ClosesMirrorAlone(b, c)
  {
    CloseOrderPossibleIff(b, c.user, c.id, c.marketOpen, c.exit, c.reason);
    MirrorsHaveNoPosition(b);
    if Step(b, c) != b || ClosesMirrorAlone(b, c) {
      assert Step(b, c).orders[c.id] == ClosedOrder(b.orders[c.id], c.exit, c.reason);
    }
  }

  lemma RestingCallLeaves(b: Book, c: Call)
    requires c.PlaceLimit? || c.CancelLimit? || c.FillLimit? || c.ExpireLimits?
    ensures LeavesOthers(b.orders, Step(b, c).orders, None) && Step(b, c).strategies == b.strategies
  {
    var after := Step(b, c);
    if after != b {
      match c
      case FillLimit(tick) => AttemptLeaves(b, tick);
      case ExpireLimits(before) => ExpireLeaves(b, 0, before, after);
      case _ =>
    }
  }

  lemma SingleCallLeaves(b: Book, c: Call)
    requires c.CloseMarket? ==> Inv(b)
    requires c.OpenAnAccount? || c.PlaceMarket? || c.CloseMarket? || c.SwitchMode?
    requires !ClosesMirrorAlone(b, c)
    ensures LeavesOthers(b.orders, Step(b, c).orders, None) && Step(b, c).strategies == b.strategies
  {
    var after := Step(b, c);
    if after != b {
      match c
      case PlaceMarket(user, clientId, terms, m) =>
        PlaceOrderLeaves(b, user, clientId, terms, m, after, PlaceOrder(b, user, clientId, terms, m).value.1);
      case CloseMarket(user, id, open, exit, reason) =>
        if b.orders[id].strategy.Some? {
          LoneCloseHappensIff(b, c);
        }
      case _ =>
    }
  }

  lemma SingleCallKeepsMirrors(b: Book, c: Call)
    requires Inv(b) && MirrorInv(b) && !ClosesMirrorAlone(b, c)
    requires !c.Save? && !c.Edit? && !c.Execute? && !c.CloseOne? && !c.CloseAll?
    ensures MirrorInv(Step(b, c))
  {
    if c.PlaceLimit? || c.CancelLimit? || c.FillLimit? || c.ExpireLimits? {
      RestingCallLeaves(b, c);
    } else {
      SingleCallLeaves(b, c);
    }
    StandaloneMoveKeepsMirrors(b, Step(b, c));
  }

  lemma StepKeepsMirrors(b: Book, c: Call)
    requires Inv(b) && MirrorInv(b) && !ClosesMirrorAlone(b, c)
    ensures MirrorInv(Step(b, c))
  {
    var after := Step(b, c);
    if after != b {
      match c
      case Save(strategy) => DraftMoveKeepsMirrors(b, after);
      case Edit(user, id, legs) => DraftMoveKeepsMirrors(b, after);
      case Execute(user, id, conditions) => ExecuteKeepsMirrors(b, user, id, conditions, after);
      case CloseOne(user, id, legId, open, exit) => CloseOneKeepsMirrorInv(b, user, id, legId, open, exit, after);
      case CloseAll(user, id, open, exits) => CloseAllKeepsMirrorInv(b, user, id, open, exits, after);
      case _ => SingleCallKeepsMirrors(b, c);
    }
  }

  /** No call of the run closes a mirror alone. */
  ghost predicate Respectful(b: Book, calls: seq<Call>) {
    calls != [] ==>
      Respectful(b, calls[..|calls| - 1]) && !ClosesMirrorAlone(Run(b, calls[..|calls| - 1]), calls[|calls| - 1])
  }

  lemma {:induction false} RunKeepsMirrors(b: Book, calls: seq<Call>)
    requires Inv(b) && MirrorInv(b) && Respectful(b, calls)
    ensures MirrorInv(Run(b, calls))
  {
    if calls != [] {
      RunKeeps(b, calls[..|calls| - 1]);
      RunKeepsMirrors(b, calls[..|calls| - 1]);
      StepKeepsMirrors(Run(b, calls[..|calls| - 1]), calls[|calls| - 1]);
    }
  }

  /** Order `o` is the one mirror of leg `k`, and leg `k` its one leg; both are
      open, or both are closed with one fill and one P&L. */
  ghost predicate Reflects(orders: seq<Order>, sid: nat, legs: seq<LegRow>, o: nat, k: nat) {
    && Paired(orders, sid, legs, o, k)
    && Tells(orders[o], legs[k])
    && (forall p :: Paired(orders, sid, legs, p, k) ==> p == o)
    && (forall l :: Paired(orders, sid, legs, o, l) ==> l == k)
  }

  lemma MirrorOkReflects(orders: seq<Order>, sid: nat, legs: seq<LegRow>, o: nat, k: nat)
    requires MirrorOk(orders, sid, legs) && Paired(orders, sid, legs, o, k)
    ensures Reflects(orders, sid, legs, o, k)
  {
    forall p | Paired(orders, sid, legs, p, k) ensures p == o { PairsAreUnique(orders, sid, legs, o, k, p, k); }
    forall l | Paired(orders, sid, legs, o, l) ensures l == k { PairsAreUnique(orders, sid, legs, o, k, o, l); }
  }

  /** Over every run that closes no mirror alone, each option leg of an executed
      strategy with distinct keys has exactly one order reflecting it, and each
      order of the strategy reflects exactly one leg. */
  lemma MirrorsReflectLegs(calls: seq<Call>, b: Book, i: nat)
    requires Respectful(EMPTY_BOOK, calls) && b == Run(EMPTY_BOOK, calls)
    requires i < |b.strategies| && !b.strategies[i].status.Draft? && Keyed(b.strategies[i].legs)
    ensures forall k: nat :: k < |b.strategies[i].legs| && b.strategies[i].legs[k].kind != FUT
              ==> exists o: nat :: Reflects(b.orders, i, b.strategies[i].legs, o, k)
    ensures forall o: nat :: o < |b.orders| && b.orders[o].strategy == Some(i)
              ==> exists k: nat :: Reflects(b.orders, i, b.strategies[i].legs, o, k)
  {
    RunKeepsMirrors(EMPTY_BOOK, calls);
    var legs := b.strategies[i].legs;
    assert MirrorOk(b.orders, i, legs);
    forall k: nat | k < |legs| && legs[k].kind != FUT
      ensures exists o: nat :: Reflects(b.orders, i, legs, o, k)
    {
      assert LegKeys(legs)[k] in MirrorKeys(b.orders, i);
      var o: nat :| o < |b.orders| && MirrorKeys(b.orders, i)[o] == LegKeys(legs)[k];
      MirrorOkReflects(b.orders, i, legs, o, k);
    }
    forall o: nat | o < |b.orders| && b.orders[o].strategy == Some(i)
      ensures exists k: nat :: Reflects(b.orders, i, legs, o, k)
    {
      assert MirrorKeys(b.orders, i)[o] in LegKeys(legs);
      var k: nat :| k < |legs| && LegKeys(legs)[k] == MirrorKeys(b.orders, i)[o];
      MirrorOkReflects(b.orders, i, legs, o, k);
    }
  }

  /** And that one call does break it: a step keeps the correspondence exactly
      when it closes no mirror of a distinctly keyed strategy by itself. */
  lemma OnlyLoneClosesBreakMirrors(b: Book, c: Call)
    requires Inv(b) && MirrorInv(b)
    requires ClosesMirrorAlone(b, c) ==> Keyed(b.strategies[b.orders[c.id].strategy.value].legs)
    ensures MirrorInv(Step(b, c)) <==> !ClosesMirrorAlone(b, c)
  {
    if !ClosesMirrorAlone(b, c) {
      StepKeepsMirrors(b, c);
    } else {
      CloseOrderPossibleIff(b, c.user, c.id, c.marketOpen, c.exit, c.reason);
      MirrorsHaveNoPosition(b);
      var sid, o, after := b.orders[c.id].strategy.value, c.id, Step(b, c);
      var legs := b.strategies[sid].legs;
      assert MirrorOk(b.orders, sid, legs);
      assert MirrorKeys(b.orders, sid)[o] in LegKeys(legs);
      var k :| 0 <= k < |legs| && LegKeys(legs)[k] == MirrorKeys(b.orders, sid)[o];
      assert Paired(b.orders, sid, legs, o, k) && Tells(b.orders[o], legs[k]);
      assert Paired(after.orders, sid, legs, o, k) && !Tells(after.orders[o], legs[k]);
      assert after.strategies == b.strategies;
    }
  }
}
