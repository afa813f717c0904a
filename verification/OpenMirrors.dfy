/** Exactly when a square-off closes every mirror of a strategy, keys distinct
    or not: it depends on the mirrors that are open, and on nothing else. */
module OpenMirrors {
  import opened Wrappers
  import opened Domain
  import opened Books
  import opened StrategyExecution
  import opened StrategyMirrors
  import opened MirrorRuns
  import opened Runs
  import DisciplineMode
  import Ledger

  predicate IsOpenMirror(o: Order, sid: nat) {
    o.strategy == Some(sid) && o.status.Open?
  }

  predicate IsOpenOption(row: LegRow) {
    row.status == OPEN && row.kind != FUT
  }

  ghost predicate NoneOpen(orders: seq<Order>, sid: nat) {
    forall o :: 0 <= o < |orders| ==> !IsOpenMirror(orders[o], sid)
  }

  ghost predicate OpenKeysDistinct(orders: seq<Order>, sid: nat) {
    forall o, p :: 0 <= o < p < |orders| && IsOpenMirror(orders[o], sid) && IsOpenMirror(orders[p], sid)
      ==> OrderKey(orders[o]) != OrderKey(orders[p])
  }

  ghost predicate Backs(row: LegRow, o: Order) {
    IsOpenOption(row) && LegKey(row) == OrderKey(o)
  }

  /** Every open mirror has an open option leg of its key. */
  ghost predicate Covered(orders: seq<Order>, sid: nat, legs: seq<LegRow>) {
    forall o :: 0 <= o < |orders| && IsOpenMirror(orders[o], sid) ==> exists k :: 0 <= k < |legs| && Backs(legs[k], orders[o])
  }

  // --- One square-off ------------------------------------------------------------

  /** A mirror still open afterwards was open before and no open leg found it. */
  lemma {:induction false} StillOpenWasNeverFound(orders: seq<Order>, sid: nat, legs: seq<LegRow>, exits: seq<int>, n: nat, o: nat)
    requires n <= |legs| && o < |orders| && MirrorsClosed(orders, sid, legs, exits, n)[o].status.Open?
    ensures orders[o].status.Open? && MirrorsClosed(orders, sid, legs, exits, n)[o] == orders[o]
    ensures forall k :: 0 <= k < n && IsOpenOption(legs[k]) ==> FindMirror(orders, sid, legs[k]) != o
  {
    if n > 0 {
      StillOpenWasNeverFound(orders, sid, legs, exits, n - 1, o);
    }
  }

  lemma {:induction false} StrategiesStay(orders: seq<Order>, sid: nat, legs: seq<LegRow>, exits: seq<int>, n: nat, o: nat)
    requires n <= |legs| && o < |orders|
    ensures MirrorsClosed(orders, sid, legs, exits, n)[o].strategy == orders[o].strategy
  {
    if n > 0 {
      StrategiesStay(orders, sid, legs, exits, n - 1, o);
    }
  }

  /** Among distinct keys the lookup of an open leg finds the mirror it backs. */
  lemma DistinctIsFound(orders: seq<Order>, sid: nat, row: LegRow, o: nat)
    requires OpenKeysDistinct(orders, sid) && o < |orders| && IsOpenMirror(orders[o], sid) && Backs(row, orders[o])
    ensures FindMirror(orders, sid, row) == o
  {
    var f := FindMirror(orders, sid, row);
    assert Mirrors(orders[o], sid, row);
    assert f <= o;
  }

  /** With every open mirror covered, a square-off leaves none open if and only
      if no two open mirrors share a key. */
  lemma NoneOpenIff(orders: seq<Order>, sid: nat, legs: seq<LegRow>, exits: seq<int>)
    requires Covered(orders, sid, legs)
    ensures NoneOpen(MirrorsClosed(orders, sid, legs, exits, |legs|), sid) <==> OpenKeysDistinct(orders, sid)
  {
    var closed := MirrorsClosed(orders, sid, legs, exits, |legs|);
    if OpenKeysDistinct(orders, sid) {
      forall o | 0 <= o < |orders|
        ensures !IsOpenMirror(closed[o], sid)
      {
        StrategiesStay(orders, sid, legs, exits, |legs|, o);
        if IsOpenMirror(orders[o], sid) {
          var k :| 0 <= k < |legs| && Backs(legs[k], orders[o]);
          DistinctIsFound(orders, sid, legs[k], o);
        }
        if closed[o].status.Open? {
          StillOpenWasNeverFound(orders, sid, legs, exits, |legs|, o);
        }
      }
    } else {
      var o, p :| 0 <= o < p < |orders| && IsOpenMirror(orders[o], sid) && IsOpenMirror(orders[p], sid)
                  && OrderKey(orders[o]) == OrderKey(orders[p]);
      SecondMirrorStaysOpen(orders, sid, legs, exits, |legs|, o, p);
      assert IsOpenMirror(closed[p], sid);
    }
  }

  // --- Counting by key -------------------------------------------------------------

  function MirrorIs(sid: nat, key: Key): Order -> int {
    (o: Order) => if IsOpenMirror(o, sid) && OrderKey(o) == key then 1 else 0
  }

  function LegIs(key: Key): LegRow -> int {
    (row: LegRow) => if IsOpenOption(row) && LegKey(row) == key then 1 else 0
  }

  function OpenMirrorsOf(orders: seq<Order>, sid: nat, key: Key): int {
    SumBy(orders, MirrorIs(sid, key))
  }

  function OpenLegsOf(legs: seq<LegRow>, key: Key): int {
    SumBy(legs, LegIs(key))
  }

  /** No key has more open mirrors than open option legs. */
  ghost predicate NoSurplus(orders: seq<Order>, sid: nat, legs: seq<LegRow>) {
    forall key :: OpenMirrorsOf(orders, sid, key) <= OpenLegsOf(legs, key)
  }

  lemma {:induction false} MirrorCounts(orders: seq<Order>, sid: nat, o: nat)
    requires o < |orders| && IsOpenMirror(orders[o], sid)
    ensures 1 <= OpenMirrorsOf(orders, sid, OrderKey(orders[o]))
  {
    var n, key := |orders| - 1, OrderKey(orders[o]);
    MirrorsNotNegative(orders[..n], sid, key);
    if o < n {
      MirrorCounts(orders[..n], sid, o);
    }
  }

  lemma {:induction false} MirrorsNotNegative(orders: seq<Order>, sid: nat, key: Key)
    ensures 0 <= OpenMirrorsOf(orders, sid, key)
  {
    if orders != [] {
      MirrorsNotNegative(orders[..|orders| - 1], sid, key);
    }
  }

  lemma {:induction false} LegsNotNegative(legs: seq<LegRow>, key: Key)
    ensures 0 <= OpenLegsOf(legs, key)
  {
    if legs != [] {
      LegsNotNegative(legs[..|legs| - 1], key);
    }
  }

  lemma {:induction false} CountedLeg(legs: seq<LegRow>, key: Key) returns (k: nat)
    requires 1 <= OpenLegsOf(legs, key)
    ensures k < |legs| && IsOpenOption(legs[k]) && LegKey(legs[k]) == key
  {
    var n := |legs| - 1;
    if LegIs(key)(legs[n]) == 1 {
      k := n;
    } else {
      k := CountedLeg(legs[..n], key);
    }
  }

  lemma NoSurplusCovers(orders: seq<Order>, sid: nat, legs: seq<LegRow>)
    requires NoSurplus(orders, sid, legs)
    ensures Covered(orders, sid, legs)
  {
    forall o | 0 <= o < |orders| && IsOpenMirror(orders[o], sid)
      ensures exists k :: 0 <= k < |legs| && Backs(legs[k], orders[o])
    {
      MirrorCounts(orders, sid, o);
      var k := CountedLeg(legs, OrderKey(orders[o]));
      assert Backs(legs[k], orders[o]);
    }
  }

  // --- Over every run ----------------------------------------------------------------

  ghost predicate OpenInv(b: Book) {
    && DraftsUnmirrored(b)
    && (forall i: nat :: i < |b.strategies| && b.strategies[i].status.Executed? ==> NoSurplus(b.orders, i, b.strategies[i].legs))
  }

  /** Open mirrors of `sid` at most close; new orders are another's. */
  ghost predicate OnlyShrinks(orders: seq<Order>, after: seq<Order>, sid: nat) {
    && |orders| <= |after|
    && (forall o :: 0 <= o < |orders| ==>
          && after[o].strategy == orders[o].strategy
          && (orders[o].strategy == Some(sid) ==>
                after[o].terms == orders[o].terms && (after[o].status.Open? ==> orders[o].status.Open?)))
    && (forall o :: |orders| <= o < |after| ==> after[o].strategy != Some(sid))
  }

  lemma {:induction false} ShrinkingCounts(orders: seq<Order>, after: seq<Order>, sid: nat, key: Key)
    requires OnlyShrinks(orders, after, sid)
    ensures OpenMirrorsOf(after, sid, key) <= OpenMirrorsOf(orders, sid, key)
    decreases |after|
  {
    if |after| > |orders| {
      ShrinkingCounts(orders, after[..|after| - 1], sid, key);
    } else if orders != [] {
      ShrinkingCounts(orders[..|orders| - 1], after[..|after| - 1], sid, key);
    }
  }

  lemma ShrinkingKeeps(orders: seq<Order>, after: seq<Order>, sid: nat, legs: seq<LegRow>)
    requires NoSurplus(orders, sid, legs) && OnlyShrinks(orders, after, sid)
    ensures NoSurplus(after, sid, legs)
  {
    forall key
      ensures OpenMirrorsOf(after, sid, key) <= OpenLegsOf(legs, key)
    {
      ShrinkingCounts(orders, after, sid, key);
    }
  }

  /** `own` aside, no strategy's open mirrors grow and no executed one changes. */
  ghost predicate OthersOnlyShrink(b: Book, after: Book, own: Option<nat>) {
    && |b.strategies| <= |after.strategies|
    && (forall j: nat :: j < |after.strategies| && Some(j) != own && after.strategies[j].status.Executed?
          ==> j < |b.strategies| && after.strategies[j] == b.strategies[j] && OnlyShrinks(b.orders, after.orders, j))
  }

  lemma OthersKeepOpen(b: Book, after: Book, own: Option<nat>)
    requires OpenInv(b) && OthersOnlyShrink(b, after, own) && DraftsUnmirrored(after)
    requires own.Some? && own.value < |after.strategies| && after.strategies[own.value].status.Executed?
             ==> NoSurplus(after.orders, own.value, after.strategies[own.value].legs)
    ensures OpenInv(after)
  {
    forall j: nat | j < |after.strategies| && after.strategies[j].status.Executed?
      ensures NoSurplus(after.orders, j, after.strategies[j].legs)
    {
      if Some(j) != own {
        ShrinkingKeeps(b.orders, after.orders, j, b.strategies[j].legs);
      }
    }
  }

  // --- Each strategy call ----------------------------------------------------------------

  /** Execution opens one mirror for every option leg it opens. */
  lemma {:induction false} ExecutionBalances(s: Strategy, sid: nat, legs: seq<LegRow>, fills: seq<LegFill>, key: Key)
    requires StrikesGiven(legs) && forall k :: 0 <= k < |legs| ==> FillFor(fills, legs[k].id).Some?
    ensures OpenMirrorsOf(MirrorsOf(s, sid, legs, fills), sid, key) == OpenLegsOf(OpenedLegs(legs, fills), key)
  {
    if legs != [] {
      var n := |legs| - 1;
      var front := legs[..n];
      ExecutionBalances(s, sid, front, fills, key);
      assert OpenedLegs(legs, fills)[..n] == OpenedLegs(front, fills);
      var f := FillFor(fills, legs[n].id).value;
      if legs[n].kind != FUT {
        SumByAppend(MirrorsOf(s, sid, front, fills), MirrorOf(s, sid, legs[n], f), MirrorIs(sid, key));
      }
    }
  }

  lemma ExecutedHasNoSurplus(s: Strategy, sid: nat, orders: seq<Order>, fills: seq<LegFill>)
    requires StrikesGiven(s.legs) && forall k :: 0 <= k < |s.legs| ==> FillFor(fills, s.legs[k].id).Some?
    requires forall o :: 0 <= o < |orders| ==> orders[o].strategy != Some(sid)
    ensures NoSurplus(orders + MirrorsOf(s, sid, s.legs, fills), sid, OpenedLegs(s.legs, fills))
  {
    var more := MirrorsOf(s, sid, s.legs, fills);
    forall key
      ensures OpenMirrorsOf(orders + more, sid, key) <= OpenLegsOf(OpenedLegs(s.legs, fills), key)
    {
      SumByConcat(orders, more, MirrorIs(sid, key));
      DisciplineMode.NothingHeld(orders, MirrorIs(sid, key));
      ExecutionBalances(s, sid, s.legs, fills, key);
    }
  }

  lemma PlanFillsAll(legs: seq<LegRow>, quotes: seq<Quote>, fills: seq<LegFill>)
    requires PlanUpTo(legs, quotes, |legs|).problems == 0 && fills == PlanUpTo(legs, quotes, |legs|).fills
    ensures forall k :: 0 <= k < |legs| ==> FillFor(fills, legs[k].id).Some?
  {
    AcceptedPlanFillsEveryLeg(legs, quotes, |legs|, PlanUpTo(legs, quotes, |legs|));
    forall k | 0 <= k < |legs|
      ensures FillFor(fills, legs[k].id).Some?
    {
      FillForFinds(fills, k);
    }
  }

  lemma ExecuteKeepsOpen(b: Book, user: nat, i: nat, m: ExecutionMarket, after: Book)
    requires OpenInv(b) && ExecuteStrategy(b, user, i, m) == Ok(after)
    ensures OpenInv(after)
  {
    var s := b.strategies[i];
    var fills := PlanUpTo(s.legs, m.quotes, |s.legs|).fills;
    ExecutedShape(b, user, i, m, after, fills);
    MirrorsAreOwn(s, i, s.legs, fills);
    ValidMeansStrikes(s);
    PlanFillsAll(s.legs, m.quotes, fills);
    ExecutedHasNoSurplus(s, i, b.orders, fills);
    OthersKeepOpen(b, after, Some(i));
  }

  /** Closing an open option leg takes one from its key's legs, and one from its
      key's open mirrors if there is any. */
  lemma CloseOneBalances(orders: seq<Order>, sid: nat, legs: seq<LegRow>, k: nat, exit: int, key: Key)
    requires NoSurplus(orders, sid, legs) && k < |legs| && legs[k].status == OPEN
    ensures OpenMirrorsOf(CloseMirror(orders, orders, sid, legs[k], exit), sid, key)
            <= OpenLegsOf(legs[k := ClosedLeg(legs[k], exit)], key)
  {
    var row, f := legs[k], FindMirror(orders, sid, legs[k]);
    assert OpenMirrorsOf(orders, sid, key) <= OpenLegsOf(legs, key);
    SumByUpdate(legs, k, ClosedLeg(row, exit), LegIs(key));
    if row.kind != FUT {
      if f < |orders| {
        SumByUpdate(orders, f, MirrorClosed(orders[f], row, exit), MirrorIs(sid, key));
      } else {
        NoOpenMatch(orders, sid, row);
        LegsNotNegative(legs[k := ClosedLeg(row, exit)], key);
        if LegKey(row) == key {
          DisciplineMode.NothingHeld(orders, MirrorIs(sid, key));
        }
      }
    }
  }

  lemma NoOpenMatch(orders: seq<Order>, sid: nat, row: LegRow)
    requires FindMirror(orders, sid, row) == |orders|
    ensures forall o :: 0 <= o < |orders| ==> MirrorIs(sid, LegKey(row))(orders[o]) == 0
  {
  }

  lemma CloseOneKeepsOpen(b: Book, user: nat, i: nat, legId: nat, open: bool, exit: int, after: Book)
    requires OpenInv(b) && Inv(b) && CloseLeg(b, user, i, legId, open, exit) == Ok(after)
    ensures OpenInv(after)
  {
    var s := b.strategies[i];
    var k := LegIndex(s.legs, legId);
    var orders := CloseMirror(b.orders, b.orders, i, s.legs[k], exit);
    assert TrailOk(b, user, Ledger.STRATEGY_POSITION(i));
    OpenLegMeansLive(s, Ledger.Amounts(b.accounts[user].rows, Ledger.STRATEGY_POSITION(i)));
    FinishedShape(b, i, OneClosed(s, k, exit), orders, after);
    CloseMirrorLeaves(b.orders, b.orders, i, s.legs[k], exit);
    forall key
      ensures OpenMirrorsOf(orders, i, key) <= OpenLegsOf(after.strategies[i].legs, key)
    {
      CloseOneBalances(b.orders, i, s.legs, k, exit, key);
    }
    OthersKeepOpen(b, after, Some(i));
  }

  lemma SquareOffSquaresOff(b: Book, i: nat, s: Strategy, orders: seq<Order>, after: Book)
    requires i < |b.strategies| && !AnyOpen(s.legs) && Finish(Advanced(b, i, s, orders), i) == Ok(after)
    ensures i < |after.strategies| && after.strategies[i].status.SquaredOff?
  {
  }

  lemma CloseAllKeepsOpen(b: Book, user: nat, i: nat, open: bool, exits: seq<int>, after: Book)
    requires OpenInv(b) && SquareOff(b, user, i, open, exits) == Ok(after)
    ensures OpenInv(after)
  {
    var s := b.strategies[i];
    var orders := MirrorsClosed(b.orders, i, s.legs, exits, |s.legs|);
    FinishedShape(b, i, AllClosed(s, exits), orders, after);
    SquareOffSquaresOff(b, i, AllClosed(s, exits), orders, after);
    MirrorsClosedLeaves(b.orders, i, s.legs, exits, |s.legs|);
    OthersKeepOpen(b, after, Some(i));
  }

  // --- Every call --------------------------------------------------------------------------

  /** Closing an order by itself, a mirror or not, only shrinks. */
  lemma SingleCallShrinks(b: Book, c: Call, sid: nat)
    requires !c.Save? && !c.Edit? && !c.Execute? && !c.CloseOne? && !c.CloseAll?
    ensures OnlyShrinks(b.orders, Step(b, c).orders, sid) && Step(b, c).strategies == b.strategies
    ensures forall o :: |b.orders| <= o < |Step(b, c).orders| ==> Step(b, c).orders[o].strategy.None?
  {
    if c.CloseMarket? {
    } else if c.PlaceLimit? || c.CancelLimit? || c.FillLimit? || c.ExpireLimits? {
      RestingCallLeaves(b, c);
    } else {
      SingleCallLeaves(b, c);
    }
  }

  lemma SingleCallKeepsOpen(b: Book, c: Call)
    requires OpenInv(b) && !c.Save? && !c.Edit? && !c.Execute? && !c.CloseOne? && !c.CloseAll?
    ensures OpenInv(Step(b, c))
  {
    SingleCallShrinks(b, c, 0);
    forall j: nat
      ensures OnlyShrinks(b.orders, Step(b, c).orders, j)
    {
      SingleCallShrinks(b, c, j);
    }
    OthersKeepOpen(b, Step(b, c), None);
  }

  lemma StepKeepsOpen(b: Book, c: Call)
    requires Inv(b) && OpenInv(b)
    ensures OpenInv(Step(b, c))
  {
    var after := Step(b, c);
    if after != b {
      match c
      case Save(strategy) => OthersKeepOpen(b, after, None);
      case Edit(user, id, legs) => OthersKeepOpen(b, after, None);
      case Execute(user, id, conditions) => ExecuteKeepsOpen(b, user, id, conditions, after);
      case CloseOne(user, id, legId, open, exit) => CloseOneKeepsOpen(b, user, id, legId, open, exit, after);
      case CloseAll(user, id, open, exits) => CloseAllKeepsOpen(b, user, id, open, exits, after);
      case _ => SingleCallKeepsOpen(b, c);
    }
  }

  lemma {:induction false} RunKeepsOpen(b: Book, calls: seq<Call>)
    requires Inv(b) && OpenInv(b)
    ensures OpenInv(Run(b, calls))
  {
    if calls != [] {
      RunKeeps(b, calls[..|calls| - 1]);
      RunKeepsOpen(b, calls[..|calls| - 1]);
      StepKeepsOpen(Run(b, calls[..|calls| - 1]), calls[|calls| - 1]);
    }
  }

  /** In every state a run can reach, whatever was closed by itself before and
      whether or not legs share keys, every open mirror of an executed strategy
      has an open option leg of its key. */
  lemma OpenMirrorsAreCovered(calls: seq<Call>, b: Book, i: nat)
    requires b == Run(EMPTY_BOOK, calls) && i < |b.strategies| && b.strategies[i].status.Executed?
    ensures Covered(b.orders, i, b.strategies[i].legs)
  {
    RunKeepsOpen(EMPTY_BOOK, calls);
    NoSurplusCovers(b.orders, i, b.strategies[i].legs);
  }

  /** A square-off in any reachable state leaves no mirror of the strategy open
      if and only if no two of its open mirrors share strike, type and action. */
  lemma SquareOffClosesEveryMirrorIff(calls: seq<Call>, b: Book, user: nat, i: nat, exits: seq<int>, after: Book)
    requires b == Run(EMPTY_BOOK, calls) && SquareOff(b, user, i, true, exits) == Ok(after)
    ensures NoneOpen(after.orders, i) <==> OpenKeysDistinct(b.orders, i)
  {
    var s := b.strategies[i];
    var orders := MirrorsClosed(b.orders, i, s.legs, exits, |s.legs|);
    OpenMirrorsAreCovered(calls, b, i);
    FinishedShape(b, i, AllClosed(s, exits), orders, after);
    NoneOpenIff(b.orders, i, s.legs, exits);
  }
}
