/** The order book's view of a strategy: one VirtualOrder mirrors each option
    leg. The lookup that closes a mirror knows strike, type and action only,
    so everything here rests on those being distinct among the option legs. */
module StrategyMirrors {
  import opened Wrappers
  import opened Domain
  import opened Ledger
  import opened Books
  import opened StrategyExecution
  import Builder
  import SingleOrders

  // --- Keys ------------------------------------------------------------------

  function LegKeys(legs: seq<LegRow>): seq<Option<Key>> {
    seq(|legs|, k requires 0 <= k < |legs| => if legs[k].kind == FUT then None else Some(LegKey(legs[k])))
  }

  function MirrorKeys(orders: seq<Order>, sid: nat): seq<Option<Key>> {
    seq(|orders|, o requires 0 <= o < |orders| => if orders[o].strategy == Some(sid) then Some(OrderKey(orders[o])) else None)
  }

  ghost predicate Distinct(keys: seq<Option<Key>>) {
    forall i, j :: 0 <= i < j < |keys| && keys[i].Some? ==> keys[i] != keys[j]
  }

  ghost predicate Within(keys: seq<Option<Key>>, others: seq<Option<Key>>) {
    forall i :: 0 <= i < |keys| && keys[i].Some? ==> keys[i] in others
  }

  /** Option legs with distinct strike, type and action. */
  ghost predicate Keyed(legs: seq<LegRow>) {
    Distinct(LegKeys(legs))
  }

  /** Each option leg has one mirror, and each mirror one option leg. */
  ghost predicate OneToOne(legKeys: seq<Option<Key>>, mirrorKeys: seq<Option<Key>>) {
    Distinct(legKeys) && Distinct(mirrorKeys) && Within(legKeys, mirrorKeys) && Within(mirrorKeys, legKeys)
  }

  ghost predicate Paired(orders: seq<Order>, sid: nat, legs: seq<LegRow>, o: int, k: int) {
    0 <= o < |orders| && 0 <= k < |legs| && legs[k].kind != FUT && Mirrors(orders[o], sid, legs[k])
  }

  /** The mirror is open with its leg, and closed at the leg's fill and P&L. */
  predicate Tells(o: Order, row: LegRow) {
    && (o.status.Open? <==> row.status == OPEN)
    && (row.status == CLOSED ==> o.pnl == Some(row.realizedPnl) && o.exitPrice == row.exitPrice)
  }

  ghost predicate AllTell(orders: seq<Order>, sid: nat, legs: seq<LegRow>) {
    forall o, k :: Paired(orders, sid, legs, o, k) ==> Tells(orders[o], legs[k])
  }

  ghost predicate MirrorOk(orders: seq<Order>, sid: nat, legs: seq<LegRow>) {
    OneToOne(LegKeys(legs), MirrorKeys(orders, sid)) && AllTell(orders, sid, legs)
  }

  /** No order mirrors a strategy that is still a draft. */
  ghost predicate DraftsUnmirrored(b: Book) {
    forall o :: 0 <= o < |b.orders| && b.orders[o].strategy.Some?
      ==> b.orders[o].strategy.value < |b.strategies| && !b.strategies[b.orders[o].strategy.value].status.Draft?
  }

  ghost predicate MirrorInv(b: Book) {
    && DraftsUnmirrored(b)
    && (forall i :: 0 <= i < |b.strategies| && !b.strategies[i].status.Draft? && Keyed(b.strategies[i].legs)
          ==> MirrorOk(b.orders, i, b.strategies[i].legs))
  }

  // --- Execution creates the correspondence ----------------------------------

  lemma {:induction false} MirrorsCover(s: Strategy, sid: nat, legs: seq<LegRow>, fills: seq<LegFill>, k: nat) returns (j: nat)
    requires k < |legs| && legs[k].kind != FUT && FillFor(fills, legs[k].id).Some?
    ensures j < |MirrorsOf(s, sid, legs, fills)|
    ensures MirrorsOf(s, sid, legs, fills)[j] == MirrorOf(s, sid, legs[k], FillFor(fills, legs[k].id).value)
  {
    var n := |legs| - 1;
    if k == n {
      j := |MirrorsOf(s, sid, legs[..n], fills)|;
    } else {
      j := MirrorsCover(s, sid, legs[..n], fills, k);
    }
  }

  lemma {:induction false} MirrorsComeFrom(s: Strategy, sid: nat, legs: seq<LegRow>, fills: seq<LegFill>, j: nat) returns (k: nat)
    requires j < |MirrorsOf(s, sid, legs, fills)|
    ensures k < |legs| && legs[k].kind != FUT && FillFor(fills, legs[k].id).Some?
    ensures MirrorsOf(s, sid, legs, fills)[j] == MirrorOf(s, sid, legs[k], FillFor(fills, legs[k].id).value)
  {
    var n := |legs| - 1;
    var earlier := MirrorsOf(s, sid, legs[..n], fills);
    if j < |earlier| {
      k := MirrorsComeFrom(s, sid, legs[..n], fills, j);
    } else {
      k := n;
    }
  }

  /** Two formulas, one result: a leg's P&L by sign is the P&L its mirror would
      have as an order by action. */
  lemma LegAndMirrorPnlAgree(s: Strategy, sid: nat, row: LegRow, f: LegFill, exit: int)
    requires !row.action.OtherAction? && row.entryPrice == Some(f.fill)
    ensures LegPnl(row, exit) == SingleOrders.OrderNetPnl(MirrorOf(s, sid, row, f), exit)
  {
    var units := row.lots * row.lotSize;
    assert row.action == SELL ==> Sign(row.action) * (exit - f.fill) == f.fill - exit;
  }

  ghost predicate StrikesGiven(legs: seq<LegRow>) {
    forall k :: 0 <= k < |legs| && legs[k].kind != FUT ==> legs[k].strike.Some?
  }

  lemma {:induction false} MirrorsDiffer(s: Strategy, sid: nat, legs: seq<LegRow>, fills: seq<LegFill>, i: nat, j: nat)
    requires Keyed(legs) && StrikesGiven(legs)
    requires i < j < |MirrorsOf(s, sid, legs, fills)|
    ensures OrderKey(MirrorsOf(s, sid, legs, fills)[i]) != OrderKey(MirrorsOf(s, sid, legs, fills)[j])
  {
    var n := |legs| - 1;
    var earlier := MirrorsOf(s, sid, legs[..n], fills);
    if j < |earlier| {
      assert forall k :: 0 <= k < n ==> LegKeys(legs[..n])[k] == LegKeys(legs)[k];
      MirrorsDiffer(s, sid, legs[..n], fills, i, j);
    } else {
      var k := MirrorsComeFrom(s, sid, legs[..n], fills, i);
      assert LegKeys(legs)[k] != LegKeys(legs)[n];
    }
  }

  /** What a validated draft and an accepted plan guarantee. */
  ghost predicate Executable(s: Strategy, sid: nat, orders: seq<Order>, fills: seq<LegFill>) {
    && Keyed(s.legs)
    && StrikesGiven(s.legs)
    && (forall k :: 0 <= k < |s.legs| ==> FillFor(fills, s.legs[k].id).Some?)
    && (forall o :: 0 <= o < |orders| ==> orders[o].strategy != Some(sid))
  }

  lemma NewMirrorsDiffer(s: Strategy, sid: nat, orders: seq<Order>, fills: seq<LegFill>, all: seq<Order>)
    requires Executable(s, sid, orders, fills) && all == orders + MirrorsOf(s, sid, s.legs, fills)
    ensures Distinct(MirrorKeys(all, sid))
  {
    forall o, p | 0 <= o < p < |all| && MirrorKeys(all, sid)[o].Some?
      ensures MirrorKeys(all, sid)[o] != MirrorKeys(all, sid)[p]
    {
      MirrorsDiffer(s, sid, s.legs, fills, o - |orders|, p - |orders|);
    }
  }

  lemma NewMirrorsCover(s: Strategy, sid: nat, orders: seq<Order>, fills: seq<LegFill>, all: seq<Order>)
    requires Executable(s, sid, orders, fills) && all == orders + MirrorsOf(s, sid, s.legs, fills)
    ensures Within(LegKeys(s.legs), MirrorKeys(all, sid))
  {
    forall k | 0 <= k < |s.legs| && LegKeys(s.legs)[k].Some?
      ensures LegKeys(s.legs)[k] in MirrorKeys(all, sid)
    {
      var j := MirrorsCover(s, sid, s.legs, fills, k);
      assert MirrorKeys(all, sid)[|orders| + j] == LegKeys(s.legs)[k];
    }
  }

  lemma NewMirrorsComeFrom(s: Strategy, sid: nat, orders: seq<Order>, fills: seq<LegFill>, all: seq<Order>)
    requires Executable(s, sid, orders, fills) && all == orders + MirrorsOf(s, sid, s.legs, fills)
    ensures Within(MirrorKeys(all, sid), LegKeys(s.legs))
  {
    forall o | 0 <= o < |all| && MirrorKeys(all, sid)[o].Some?
      ensures MirrorKeys(all, sid)[o] in LegKeys(s.legs)
    {
      var k := MirrorsComeFrom(s, sid, s.legs, fills, o - |orders|);
      assert MirrorKeys(all, sid)[o] == LegKeys(s.legs)[k];
    }
  }

  lemma ExecutionMirrors(s: Strategy, sid: nat, orders: seq<Order>, fills: seq<LegFill>, all: seq<Order>)
    requires Executable(s, sid, orders, fills) && all == orders + MirrorsOf(s, sid, s.legs, fills)
    ensures MirrorOk(all, sid, OpenedLegs(s.legs, fills))
  {
    var legs := OpenedLegs(s.legs, fills);
    assert LegKeys(legs) == LegKeys(s.legs);
    NewMirrorsDiffer(s, sid, orders, fills, all);
    NewMirrorsCover(s, sid, orders, fills, all);
    NewMirrorsComeFrom(s, sid, orders, fills, all);
    MirrorsAreFresh(s, sid, s.legs, fills);
    forall o, k | Paired(all, sid, legs, o, k)
      ensures Tells(all[o], legs[k])
    {
      assert all[o] == MirrorsOf(s, sid, s.legs, fills)[o - |orders|];
    }
  }

  // --- Closing keeps it ------------------------------------------------------

  lemma PairsAreUnique(orders: seq<Order>, sid: nat, legs: seq<LegRow>, o: nat, k: nat, p: nat, j: nat)
    requires OneToOne(LegKeys(legs), MirrorKeys(orders, sid))
    requires Paired(orders, sid, legs, o, k) && Paired(orders, sid, legs, p, j)
    ensures o == p <==> k == j
  {
    assert MirrorKeys(orders, sid)[o] == LegKeys(legs)[k] && MirrorKeys(orders, sid)[p] == LegKeys(legs)[j];
  }

  /** The lookup for an open option leg finds its one mirror. */
  lemma LookupFindsTheMirror(orders: seq<Order>, sid: nat, legs: seq<LegRow>, k: nat)
    requires MirrorOk(orders, sid, legs) && k < |legs| && legs[k].kind != FUT && legs[k].status == OPEN
    ensures Paired(orders, sid, legs, FindMirror(orders, sid, legs[k]), k)
  {
    assert LegKeys(legs)[k] in MirrorKeys(orders, sid);
    var o :| 0 <= o < |orders| && MirrorKeys(orders, sid)[o] == LegKeys(legs)[k];
    assert Paired(orders, sid, legs, o, k) && Tells(orders[o], legs[k]);
  }

  /** The orders once the open ones among the first `n` legs are closed. */
  ghost predicate ClosedThrough(orders: seq<Order>, closed: seq<Order>, sid: nat, legs: seq<LegRow>, exits: seq<int>, n: nat) {
    && |closed| == |orders|
    && (forall o :: 0 <= o < |orders| ==>
          closed[o].strategy == orders[o].strategy && closed[o].terms == orders[o].terms
          && (orders[o].strategy != Some(sid) ==> closed[o] == orders[o]))
    && (forall o, k :: Paired(orders, sid, legs, o, k) ==>
          closed[o] == if k < n && legs[k].status == OPEN then MirrorClosed(orders[o], legs[k], ExitOf(exits, k)) else orders[o])
  }

  lemma {:induction false} SquareOffClosesThrough(orders: seq<Order>, sid: nat, legs: seq<LegRow>, exits: seq<int>, n: nat)
    requires MirrorOk(orders, sid, legs) && n <= |legs|
    ensures ClosedThrough(orders, MirrorsClosed(orders, sid, legs, exits, n), sid, legs, exits, n)
  {
    if n > 0 {
      SquareOffClosesThrough(orders, sid, legs, exits, n - 1);
      ClosesOneMore(orders, MirrorsClosed(orders, sid, legs, exits, n - 1), sid, legs, exits, n);
    }
  }

  lemma ClosesOneMore(orders: seq<Order>, live: seq<Order>, sid: nat, legs: seq<LegRow>, exits: seq<int>, n: nat)
    requires MirrorOk(orders, sid, legs) && 0 < n <= |legs|
    requires ClosedThrough(orders, live, sid, legs, exits, n - 1)
    ensures ClosedThrough(orders, if legs[n - 1].status == OPEN then CloseMirror(live, orders, sid, legs[n - 1], ExitOf(exits, n - 1))
                                  else live, sid, legs, exits, n)
  {
    var row := legs[n - 1];
    if row.status == OPEN && row.kind != FUT {
      LookupFindsTheMirror(orders, sid, legs, n - 1);
      var f := FindMirror(orders, sid, row);
      forall o, k | Paired(orders, sid, legs, o, k)
        ensures o == f <==> k == n - 1
      {
        PairsAreUnique(orders, sid, legs, o, k, f, n - 1);
      }
    }
  }

  /** Keys survive closing, so the correspondence does. */
  lemma SameKeysCarry(orders: seq<Order>, closed: seq<Order>, sid: nat, legs: seq<LegRow>, after: seq<LegRow>)
    requires OneToOne(LegKeys(legs), MirrorKeys(orders, sid))
    requires |closed| == |orders| && |after| == |legs|
    requires forall o :: 0 <= o < |orders| ==> closed[o].strategy == orders[o].strategy && closed[o].terms == orders[o].terms
    requires forall k :: 0 <= k < |legs| ==> LegKey(after[k]) == LegKey(legs[k])
    ensures OneToOne(LegKeys(after), MirrorKeys(closed, sid))
    ensures forall o, k :: Paired(closed, sid, after, o, k) ==> Paired(orders, sid, legs, o, k)
  {
    assert MirrorKeys(closed, sid) == MirrorKeys(orders, sid);
    assert LegKeys(after) == LegKeys(legs);
  }

  lemma SquareOffKeepsMirrors(orders: seq<Order>, sid: nat, legs: seq<LegRow>, exits: seq<int>, closed: seq<Order>)
    requires MirrorOk(orders, sid, legs) && closed == MirrorsClosed(orders, sid, legs, exits, |legs|)
    ensures MirrorOk(closed, sid, ClosedLegs(legs, exits))
  {
    var after := ClosedLegs(legs, exits);
    SquareOffClosesThrough(orders, sid, legs, exits, |legs|);
    SameKeysCarry(orders, closed, sid, legs, after);
    forall o, k | Paired(closed, sid, after, o, k)
      ensures Tells(closed[o], after[k])
    {
      assert Paired(orders, sid, legs, o, k);
      assert Tells(orders[o], legs[k]);
    }
  }

  lemma CloseOneKeepsMirrors(orders: seq<Order>, sid: nat, legs: seq<LegRow>, k: nat, exit: int, closed: seq<Order>, after: seq<LegRow>)
    requires MirrorOk(orders, sid, legs) && k < |legs| && legs[k].status == OPEN
    requires closed == CloseMirror(orders, orders, sid, legs[k], exit) && after == legs[k := ClosedLeg(legs[k], exit)]
    ensures MirrorOk(closed, sid, after)
  {
    SameKeysCarry(orders, closed, sid, legs, after);
    if legs[k].kind != FUT {
      LookupFindsTheMirror(orders, sid, legs, k);
    }
    forall o, j | Paired(closed, sid, after, o, j)
      ensures Tells(closed[o], after[j])
    {
      assert Paired(orders, sid, legs, o, j) && Tells(orders[o], legs[j]);
      if legs[k].kind != FUT {
        PairsAreUnique(orders, sid, legs, o, j, FindMirror(orders, sid, legs[k]), k);
      }
    }
  }

  /** With distinct keys a square-off leaves no mirror of the strategy open. */
  lemma SquareOffClosesEveryMirror(orders: seq<Order>, sid: nat, legs: seq<LegRow>, exits: seq<int>, o: nat)
    requires MirrorOk(orders, sid, legs) && (forall k :: 0 <= k < |legs| ==> legs[k].status != PENDING)
    requires o < |orders| && orders[o].strategy == Some(sid)
    ensures !MirrorsClosed(orders, sid, legs, exits, |legs|)[o].status.Open?
  {
    var closed, after := MirrorsClosed(orders, sid, legs, exits, |legs|), ClosedLegs(legs, exits);
    SquareOffKeepsMirrors(orders, sid, legs, exits, closed);
    SquareOffClosesThrough(orders, sid, legs, exits, |legs|);
    assert MirrorKeys(closed, sid)[o] in LegKeys(after);
    var k :| 0 <= k < |after| && LegKeys(after)[k] == MirrorKeys(closed, sid)[o];
    assert Paired(closed, sid, after, o, k);
  }

  /** Without them one stays: every lookup of the square-off sees the orders as
      they were flushed, so of two open mirrors with one key only the first is
      ever found. */
  lemma {:induction false} SecondMirrorStaysOpen(orders: seq<Order>, sid: nat, legs: seq<LegRow>, exits: seq<int>, n: nat,
                                                 first: nat, second: nat)
    requires n <= |legs| && first < second < |orders|
    requires orders[first].strategy == orders[second].strategy == Some(sid)
    requires OrderKey(orders[first]) == OrderKey(orders[second])
    requires orders[first].status.Open? && orders[second].status.Open?
    ensures MirrorsClosed(orders, sid, legs, exits, n)[second] == orders[second]
  {
    if n > 0 {
      SecondMirrorStaysOpen(orders, sid, legs, exits, n - 1, first, second);
      if Mirrors(orders[second], sid, legs[n - 1]) {
        assert Mirrors(orders[first], sid, legs[n - 1]);
      }
    }
  }
}
