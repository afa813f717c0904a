/** The life of a strategy over every run: draft, executed, squared off, in
    that order and never back. */
module StrategyRuns {
  import opened Wrappers
  import opened Domain
  import opened Ledger
  import opened Books
  import opened PendingOrders
  import opened StrategyExecution
  import opened StrategyMirrors
  import opened MirrorRuns
  import opened Runs

  function Rank(status: StrategyStatus): nat {
    match status
    case Draft => 0
    case Executed => 1
    case SquaredOff => 2
  }

  /** An open leg may close, once; a closed leg is final. */
  ghost predicate LegAdvances(row: LegRow, later: LegRow) {
    || later == row
    || (row.status == OPEN && later == row.(status := CLOSED, exitPrice := later.exitPrice, realizedPnl := later.realizedPnl))
  }

  ghost predicate LegsAdvanced(legs: seq<LegRow>, later: seq<LegRow>) {
    |later| == |legs| && forall k :: 0 <= k < |legs| ==> LegAdvances(legs[k], later[k])
  }

  ghost predicate StrategyAdvances(s: Strategy, t: Strategy) {
    && t.user == s.user
    && Rank(s.status) <= Rank(t.status)
    && (!s.status.Draft? ==> LegsAdvanced(s.legs, t.legs))
    && (s.status.SquaredOff? ==> t == s)
  }

  ghost predicate StrategiesAdvance(b: Book, after: Book) {
    |b.strategies| <= |after.strategies|
    && forall i :: 0 <= i < |b.strategies| ==> StrategyAdvances(b.strategies[i], after.strategies[i])
  }

  lemma FinishedAdvances(b: Book, i: nat, s: Strategy, orders: seq<Order>, after: Book)
    requires i < |b.strategies| && b.strategies[i].status.Executed? && s.status.Executed?
    requires s.user == b.strategies[i].user && LegsAdvanced(b.strategies[i].legs, s.legs)
    requires Finish(Advanced(b, i, s, orders), i) == Ok(after)
    ensures StrategiesAdvance(b, after)
  {
    FinishedShape(b, i, s, orders, after);
  }

  lemma CloseOneAdvances(b: Book, user: nat, i: nat, legId: nat, open: bool, exit: int, after: Book)
    requires Inv(b) && CloseLeg(b, user, i, legId, open, exit) == Ok(after)
    ensures StrategiesAdvance(b, after)
  {
    var s := b.strategies[i];
    var k := LegIndex(s.legs, legId);
    assert TrailOk(b, user, STRATEGY_POSITION(i));
    OpenLegMeansLive(s, Amounts(b.accounts[user].rows, STRATEGY_POSITION(i)));
    FinishedAdvances(b, i, OneClosed(s, k, exit), CloseMirror(b.orders, b.orders, i, s.legs[k], exit), after);
  }

  lemma CloseAllAdvances(b: Book, user: nat, i: nat, open: bool, exits: seq<int>, after: Book)
    requires SquareOff(b, user, i, open, exits) == Ok(after)
    ensures StrategiesAdvance(b, after)
  {
    var s := b.strategies[i];
    FinishedAdvances(b, i, AllClosed(s, exits), MirrorsClosed(b.orders, i, s.legs, exits, |s.legs|), after);
  }

  lemma ExecuteAdvances(b: Book, user: nat, i: nat, m: ExecutionMarket, after: Book)
    requires ExecuteStrategy(b, user, i, m) == Ok(after)
    ensures StrategiesAdvance(b, after)
  {
    var s := b.strategies[i];
    var fills := PlanUpTo(s.legs, m.quotes, |s.legs|).fills;
    ExecutedShape(b, user, i, m, after, fills);
    assert after.strategies[i] == ExecutedStrategy(s, PlanUpTo(s.legs, m.quotes, |s.legs|), m.margin);
  }

  lemma StepLeavesStrategies(b: Book, c: Call)
    requires !c.Save? && !c.Edit? && !c.Execute? && !c.CloseOne? && !c.CloseAll?
    ensures Step(b, c).strategies == b.strategies
  {
    match c
    case FillLimit(tick) => AttemptLeaves(b, tick);
    case ExpireLimits(before) =>
      if ExpireFrom(b, 0, before).Ok? {
        ExpireLeaves(b, 0, before, ExpireFrom(b, 0, before).value);
      }
    case _ =>
  }

  lemma StepAdvances(b: Book, c: Call)
    requires Inv(b)
    ensures StrategiesAdvance(b, Step(b, c))
  {
    var after := Step(b, c);
    if after != b {
      match c
      case Save(strategy) =>
      case Edit(user, id, legs) =>
      case Execute(user, id, conditions) => ExecuteAdvances(b, user, id, conditions, after);
      case CloseOne(user, id, legId, open, exit) => CloseOneAdvances(b, user, id, legId, open, exit, after);
      case CloseAll(user, id, open, exits) => CloseAllAdvances(b, user, id, open, exits, after);
      case _ => StepLeavesStrategies(b, c);
    }
  }

  lemma AdvancesOnwards(s: Strategy, t: Strategy, u: Strategy)
    requires StrategyAdvances(s, t) && StrategyAdvances(t, u)
    ensures StrategyAdvances(s, u)
  {
    if !s.status.Draft? {
      forall k | 0 <= k < |s.legs|
        ensures LegAdvances(s.legs[k], u.legs[k])
      {
        assert LegAdvances(s.legs[k], t.legs[k]) && LegAdvances(t.legs[k], u.legs[k]);
      }
    }
  }

  /** No run takes a strategy back, reopens a leg or rewrites a closed one, and
      none changes a strategy once it is squared off. */
  lemma {:induction false} StrategiesNeverGoBack(b: Book, calls: seq<Call>)
    requires Inv(b)
    ensures StrategiesAdvance(b, Run(b, calls))
  {
    if calls != [] {
      var mid, after := Run(b, calls[..|calls| - 1]), Run(b, calls);
      RunKeeps(b, calls[..|calls| - 1]);
      StrategiesNeverGoBack(b, calls[..|calls| - 1]);
      StepAdvances(mid, calls[|calls| - 1]);
      forall i | 0 <= i < |b.strategies|
        ensures StrategyAdvances(b.strategies[i], after.strategies[i])
      {
        AdvancesOnwards(b.strategies[i], mid.strategies[i], after.strategies[i]);
      }
    }
  }

  /** Where a strategy stands says all there is to know of its legs, its
      position and its ledger rows, in every state a run can reach. */
  lemma StrategyLifecycle(calls: seq<Call>, b: Book, i: nat, s: Strategy, posted: seq<int>)
    requires b == Run(EMPTY_BOOK, calls) && i < |b.strategies| && s == b.strategies[i]
    requires s.user < |b.accounts| ==> posted == Amounts(b.accounts[s.user].rows, STRATEGY_POSITION(i))
    ensures StrategyOk(s, posted)
  {
    RunKeeps(EMPTY_BOOK, calls);
    assert TrailOk(b, s.user, STRATEGY_POSITION(i));
  }
}
