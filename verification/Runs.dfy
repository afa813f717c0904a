/** Every run of the paper-money machine: any calls, by any users, in any
    order, each committed when it returns and rolled back when it raises. */
module Runs {
  import opened Wrappers
  import opened Domain
  import opened Ledger
  import opened Books
  import opened SingleOrders
  import opened PendingOrders
  import opened StrategyExecution
  import opened StrategyDrafts
  import opened StrategyMirrors
  import opened DisciplineMode
  import Builder

  datatype Call =
    | OpenAnAccount
    | PlaceLimit(user: nat, intent: Intent, market: Market, day: int)
    | CancelLimit(user: nat, id: nat)
    | FillLimit(tick: Tick)
    | ExpireLimits(before: Option<int>)
    | PlaceMarket(user: nat, clientId: Option<nat>, terms: Terms, market: Market)
    | CloseMarket(user: nat, id: nat, marketOpen: bool, exit: int, reason: ExitReason)
    | Save(strategy: Strategy)
    | Edit(user: nat, id: nat, legs: seq<LegRow>)
    | Execute(user: nat, id: nat, conditions: ExecutionMarket)
    | CloseOne(user: nat, id: nat, legId: nat, marketOpen: bool, exit: int)
    | CloseAll(user: nat, id: nat, marketOpen: bool, exits: seq<int>)
    | SwitchMode(user: nat, enabled: bool)

  function Committed(b: Book, done: Outcome<Book>): Book {
    if done.Ok? then done.value else b
  }

  function First<T>(done: Outcome<(Book, T)>): Outcome<Book> {
    match done
    case Ok(pair) => Ok(pair.0)
    case Raise(error) => Raise(error)
  }

  function Step(b: Book, c: Call): Book {
    match c
    case OpenAnAccount => Committed(b, OpenAccount(b))
    case PlaceLimit(user, intent, market, day) => Committed(b, First(PlacePending(b, user, intent, market, day)))
    case CancelLimit(user, id) => Committed(b, CancelPending(b, user, id))
    case FillLimit(tick) => SweepStep(b, tick).0
    case ExpireLimits(before) => Committed(b, ExpireFrom(b, 0, before))
    case PlaceMarket(user, clientId, terms, market) => Committed(b, First(PlaceOrder(b, user, clientId, terms, market)))
    case CloseMarket(user, id, open, exit, reason) => Committed(b, CloseOrder(b, user, id, open, exit, reason))
    case Save(strategy) => Committed(b, SaveDraft(b, strategy))
    case Edit(user, id, legs) => Committed(b, EditDraft(b, user, id, legs))
    case Execute(user, id, conditions) => Committed(b, ExecuteStrategy(b, user, id, conditions))
    case CloseOne(user, id, legId, open, exit) => Committed(b, CloseLeg(b, user, id, legId, open, exit))
    case CloseAll(user, id, open, exits) => Committed(b, SquareOff(b, user, id, open, exits))
    case SwitchMode(user, enabled) => Committed(b, SetMode(b, user, enabled))
  }

  function Run(b: Book, calls: seq<Call>): Book {
    if calls == [] then b else Step(Run(b, calls[..|calls| - 1]), calls[|calls| - 1])
  }

  const EMPTY_BOOK := Book([], [], [], [])

  lemma StepKeeps(b: Book, c: Call)
    requires Inv(b)
    ensures Inv(Step(b, c))
  {
    var after := Step(b, c);
    if after != b {
      match c
      case OpenAnAccount => OpenAccountKeeps(b, after);
      case PlaceLimit(user, intent, market, day) =>
        PlacePendingKeeps(b, user, intent, market, day, after, PlacePending(b, user, intent, market, day).value.1);
      case CancelLimit(user, id) => CancelKeeps(b, user, id, after);
      case FillLimit(tick) => AttemptKeeps(b, tick);
      case ExpireLimits(before) => ExpireKeeps(b, 0, before);
      case PlaceMarket(user, clientId, terms, market) =>
        PlaceOrderKeeps(b, user, clientId, terms, market, after, PlaceOrder(b, user, clientId, terms, market).value.1);
      case CloseMarket(user, id, open, exit, reason) => CloseOrderKeeps(b, user, id, open, exit, reason, after);
      case Save(strategy) => SaveDraftKeeps(b, strategy, after);
      case Edit(user, id, legs) => EditDraftKeeps(b, user, id, legs, after);
      case Execute(user, id, conditions) => ExecuteKeeps(b, user, id, conditions, after);
      case CloseOne(user, id, legId, open, exit) => CloseLegKeeps(b, user, id, legId, open, exit, after);
      case CloseAll(user, id, open, exits) => SquareOffKeeps(b, user, id, open, exits, after);
      case SwitchMode(user, enabled) => SetModeKeeps(b, user, enabled, after);
    }
  }

  lemma {:induction false} RunKeeps(b: Book, calls: seq<Call>)
    requires Inv(b)
    ensures Inv(Run(b, calls))
  {
    if calls != [] {
      RunKeeps(b, calls[..|calls| - 1]);
      StepKeeps(Run(b, calls[..|calls| - 1]), calls[|calls| - 1]);
    }
  }

  // --- Money -----------------------------------------------------------------

  /** Over every run from the empty book, for every user: balance, resting
      reservations and open margin add up to the credits and P&L less the
      charges; the balance is the sum of its chained rows; it is never
      negative. */
  lemma MoneyIsConserved(calls: seq<Call>, user: nat, b: Book)
    requires b == Run(EMPTY_BOOK, calls) && user < |b.accounts|
    ensures var a := b.accounts[user];
            && a.balance + Reserved(b, user) + PositionMargin(b, user)
               == Flow(a.rows, Opening) + Flow(a.rows, CapitalUnlock) + Flow(a.rows, RealisedPnl) + Flow(a.rows, Brokerage)
            && a.balance == Total(a.rows)
            && Chained(a.rows)
            && 0 <= a.balance
  {
    RunKeeps(EMPTY_BOOK, calls);
    Conservation(b, user);
    assert AccountOk(b.accounts[user]);
  }

  // --- Ledger rows are for ever ----------------------------------------------

  lemma {:induction false} ExpireGrows(b: Book, i: nat, before: Option<int>, after: Book)
    requires i <= |b.pendings| && ExpireFrom(b, i, before) == Ok(after)
    ensures LedgerGrows(b.accounts, after.accounts)
    decreases |b.pendings| - i
  {
    if i < |b.pendings| {
      if ExpiresNow(b.pendings[i], before) {
        var b1 := ClosePending(b, i, Expired).value;
        ExpireGrows(b1, i + 1, before, after);
        GrowsOnwards(b.accounts, b1.accounts, after.accounts);
      } else {
        ExpireGrows(b, i + 1, before, after);
      }
    }
  }

  lemma OpenAccountGrows(b: Book, after: Book)
    requires OpenAccount(b) == Ok(after)
    ensures LedgerGrows(b.accounts, after.accounts)
  {
    var b1 := b.(accounts := b.accounts + [Account(0, [], true, TIER_1, false, TIER_1_CAPITAL)]);
    GrowsOnwards(b.accounts, b1.accounts, after.accounts);
  }

  lemma StrategyStepGrows(b: Book, c: Call)
    requires c.Save? || c.Edit? || c.Execute? || c.CloseOne? || c.CloseAll?
    ensures LedgerGrows(b.accounts, Step(b, c).accounts)
  {
  }

  lemma StepGrows(b: Book, c: Call)
    ensures LedgerGrows(b.accounts, Step(b, c).accounts)
  {
    var after := Step(b, c);
    if after != b {
      match c
      case OpenAnAccount => OpenAccountGrows(b, after);
      case FillLimit(tick) => AttemptGrows(b, tick);
      case ExpireLimits(before) => ExpireGrows(b, 0, before, after);
      case PlaceLimit(_, _, _, _) =>
      case CancelLimit(_, _) =>
      case PlaceMarket(_, _, _, _) =>
      case CloseMarket(_, _, _, _, _) =>
      case SwitchMode(_, _) =>
      case _ => StrategyStepGrows(b, c);
    }
  }

  // --- The life of a resting order -------------------------------------------

  /** What may ever become of a resting order: it leaves the book once, keeping
      its terms, and then never changes again. */
  ghost predicate Lives(p: PendingOrder, q: PendingOrder) {
    || q == p
    || (p.status.Pending? && !q.status.Pending? && SameClientId(q, p) && q.terms == p.terms && q.limitPrice == p.limitPrice)
  }

  ghost predicate BookLives(b: Book, after: Book) {
    |b.pendings| <= |after.pendings| && forall i :: 0 <= i < |b.pendings| ==> Lives(b.pendings[i], after.pendings[i])
  }

  lemma {:induction false} ExpireLives(b: Book, i: nat, before: Option<int>, after: Book)
    requires i <= |b.pendings| && ExpireFrom(b, i, before) == Ok(after)
    ensures BookLives(b, after)
    decreases |b.pendings| - i
  {
    if i < |b.pendings| {
      if ExpiresNow(b.pendings[i], before) {
        var b1 := ClosePending(b, i, Expired).value;
        ExpireLives(b1, i + 1, before, after);
        assert forall k :: 0 <= k < |b.pendings| ==> Lives(b.pendings[k], b1.pendings[k]) && Lives(b1.pendings[k], after.pendings[k]);
      } else {
        ExpireLives(b, i + 1, before, after);
      }
    }
  }

  /** Only four calls touch the resting orders. */
  lemma OthersLeaveTheBook(b: Book, c: Call)
    requires !c.PlaceLimit? && !c.CancelLimit? && !c.FillLimit? && !c.ExpireLimits?
    ensures Step(b, c).pendings == b.pendings
  {
  }

  lemma StepLives(b: Book, c: Call)
    ensures BookLives(b, Step(b, c))
  {
    var after := Step(b, c);
    if after != b {
      match c
      case FillLimit(tick) =>
        AttemptSweeps(b, tick);
        assert forall k :: 0 <= k < |b.pendings| ==> SweptInto(b.pendings[k], after.pendings[k]);
      case ExpireLimits(before) => ExpireLives(b, 0, before, after);
      case PlaceLimit(_, _, _, _) =>
      case CancelLimit(_, _) =>
      case _ => OthersLeaveTheBook(b, c);
    }
  }

  lemma {:induction false} RunLives(b: Book, calls: seq<Call>)
    ensures BookLives(b, Run(b, calls)) && LedgerGrows(b.accounts, Run(b, calls).accounts)
  {
    if calls != [] {
      var mid, after := Run(b, calls[..|calls| - 1]), Run(b, calls);
      RunLives(b, calls[..|calls| - 1]);
      StepLives(mid, calls[|calls| - 1]);
      StepGrows(mid, calls[|calls| - 1]);
      GrowsOnwards(b.accounts, mid.accounts, after.accounts);
      assert forall k :: 0 <= k < |b.pendings| ==> Lives(b.pendings[k], mid.pendings[k]) && Lives(mid.pendings[k], after.pendings[k]);
    }
  }

  /** The ledger is append-only: no run removes or rewrites a row, so what was
      ever posted against a reference stays, in order. */
  lemma LedgerIsAppendOnly(b: Book, calls: seq<Call>, user: nat, r: Reference, after: Book)
    requires user < |b.accounts| && after == Run(b, calls)
    ensures user < |after.accounts| && b.accounts[user].rows <= after.accounts[user].rows
    ensures Amounts(b.accounts[user].rows, r) <= Amounts(after.accounts[user].rows, r)
  {
    RunLives(b, calls);
    AmountsPrefix(b.accounts[user].rows, after.accounts[user].rows, r);
  }

  /** Terminal states absorb: no run changes an order that left the book. */
  lemma TerminalStatesAbsorb(b: Book, calls: seq<Call>, i: nat)
    requires i < |b.pendings| && !b.pendings[i].status.Pending?
    ensures i < |Run(b, calls).pendings| && Run(b, calls).pendings[i] == b.pendings[i]
  {
    RunLives(b, calls);
    assert Lives(b.pendings[i], Run(b, calls).pendings[i]);
  }

  lemma StillRestsUntouched(b: Book, after: Book, i: nat, user: nat, r: Reference, posted: seq<int>)
    requires StillResting(b, i) && user == b.pendings[i].user && r == PENDING_ORDER(i) && user < |b.accounts|
    requires i < |after.pendings| && after.pendings[i] == b.pendings[i] && user < |after.accounts|
    requires TrailOk(after, user, r) && posted == Amounts(after.accounts[user].rows, r)
    ensures 0 < b.pendings[i].marginBlocked && posted == [-b.pendings[i].marginBlocked]
  {
  }

  lemma LeftMeansNothingReserved(after: Book, i: nat, user: nat, r: Reference)
    requires i < |after.pendings| && user == after.pendings[i].user && r == PENDING_ORDER(i) && user < |after.accounts|
    requires TrailOk(after, user, r) && !after.pendings[i].status.Pending?
    ensures after.pendings[i].marginBlocked == 0
  {
  }

  /** A reservation is positive exactly while the order rests. However it then
      leaves the book, the ledger ends with its one debit and one equal credit. */
  lemma ReservationReleasedExactlyOnce(b: Book, calls: seq<Call>, i: nat, user: nat, after: Book, posted: seq<int>)
    requires Inv(b) && StillResting(b, i) && user == b.pendings[i].user && after == Run(b, calls)
    requires user < |after.accounts| ==> posted == Amounts(after.accounts[user].rows, PENDING_ORDER(i))
    ensures i < |after.pendings| && user < |after.accounts| && 0 < b.pendings[i].marginBlocked
    ensures after.pendings[i].status.Pending? ==>
              after.pendings[i] == b.pendings[i] && posted == [-b.pendings[i].marginBlocked]
    ensures !after.pendings[i].status.Pending? ==>
              after.pendings[i].marginBlocked == 0 && posted == [-b.pendings[i].marginBlocked, b.pendings[i].marginBlocked]
  {
    var r := PENDING_ORDER(i);
    RunKeeps(b, calls);
    RunLives(b, calls);
    assert Lives(b.pendings[i], after.pendings[i]);
    assert TrailOk(b, user, r) && TrailOk(after, user, r);
    StillRestsUntouched(b, b, i, user, r, Amounts(b.accounts[user].rows, r));
    if after.pendings[i].status.Pending? {
      StillRestsUntouched(b, after, i, user, r, posted);
    } else {
      LeftMeansNothingReserved(after, i, user, r);
      LeftBookRefundedIn(b, after, i, user, r, Amounts(b.accounts[user].rows, r), posted);
    }
  }

  // --- Retries ---------------------------------------------------------------

  lemma FindsTheOne(b: Book, user: nat, clientId: Option<nat>, i: nat)
    requires ClientIdsUnique(b) && clientId.Some? && i < |b.pendings|
    requires b.pendings[i].user == user && b.pendings[i].clientId == clientId
    ensures FindPending(b.pendings, user, clientId) == Some(i)
  {
    var found := FindPending(b.pendings, user, clientId);
    assert found.Some?;
    if found.value < i {
      assert SameClientId(b.pendings[found.value], b.pendings[i]);
    } else if i < found.value {
      assert SameClientId(b.pendings[i], b.pendings[found.value]);
    }
  }

  lemma PlacedIsFound(b: Book, user: nat, intent: Intent, m: Market, day: int, after: Book, i: nat)
    requires PlacePending(b, user, intent, m, day) == Ok((after, i))
    ensures i < |after.pendings| && user < |after.accounts|
    ensures intent.clientId.Some? ==> after.pendings[i].user == user && after.pendings[i].clientId == intent.clientId
                                      && MatchesPayload(after.pendings[i], intent)
  {
  }

  /** However many identical retries arrive, whenever in the run, and whatever
      happened to the order meanwhile: each returns the original order and
      moves nothing. */
  lemma RetriesReserveOnce(b: Book, user: nat, intent: Intent, m: Market, day: int, placed: Book, i: nat,
                           calls: seq<Call>, retry: Market, retryDay: int, after: Book)
    requires Inv(b) && intent.clientId.Some? && PlacePending(b, user, intent, m, day) == Ok((placed, i))
    requires after == Run(placed, calls) && retry.open
    ensures PlacePending(after, user, intent, retry, retryDay) == Ok((after, i))
  {
    PlacePendingKeeps(b, user, intent, m, day, placed, i);
    PlacedIsFound(b, user, intent, m, day, placed, i);
    RunKeeps(placed, calls);
    RunLives(placed, calls);
    assert Lives(placed.pendings[i], after.pendings[i]);
    FindsTheOne(after, user, intent.clientId, i);
  }

  lemma ReservedThereAndBack(rows: seq<PendingOrder>, resting: PendingOrder, cancelled: PendingOrder, user: nat)
    requires cancelled.user == resting.user && cancelled.marginBlocked == 0
    ensures SumBy((rows + [resting])[|rows| := cancelled], PendingHold(user)) == SumBy(rows, PendingHold(user))
  {
    SumByAppend(rows, resting, PendingHold(user));
    SumByUpdate(rows + [resting], |rows|, cancelled, PendingHold(user));
  }

  /** Withdrawing an order just placed restores the balance to the paisa. */
  lemma CancelUndoesPlace(b: Book, user: nat, intent: Intent, m: Market, day: int, placed: Book, i: nat, after: Book)
    requires Inv(b) && PlacePending(b, user, intent, m, day) == Ok((placed, i)) && i == |b.pendings|
    requires CancelPending(placed, user, i) == Ok(after)
    ensures after.accounts[user].balance == b.accounts[user].balance
    ensures Reserved(after, user) == Reserved(b, user)
    ensures after.orders == b.orders && after.strategies == b.strategies
  {
    ReservedThereAndBack(b.pendings, placed.pendings[i], after.pendings[i], user);
  }

  // --- Amounts that would be nothing -----------------------------------------

  /** At two decimals a limit is nothing exactly up to half a paisa. */
  lemma LimitVanishesIff(limit: real)
    requires 0.0 < limit
    ensures Money(limit) <= 0 <==> limit <= 0.005
  {
  }

  /** The margin of a real limit is nothing only for one or two paise of
      leveraged contract value. */
  lemma MarginVanishesIff(limit: int, lotSize: int, quantity: int, leveraged: bool)
    requires 0 < limit && 0 < lotSize && 0 < quantity
    ensures MarginFor(limit, lotSize, quantity, leveraged) == 0 <==> leveraged && limit * lotSize * quantity <= 2
  {
    assert 0 < limit * lotSize;
    assert 0 < limit * lotSize * quantity;
  }

  /** With a limit of at least one paisa and a lot of at least 20, which is
      every instrument's, a placement never posts a zero amount. */
  lemma PlacementNeverPostsNothing(b: Book, user: nat, intent: Intent, m: Market, day: int)
    requires intent.limitPrice >= 0.01 && 20 <= intent.lotSize
    ensures PlacePending(b, user, intent, m, day) != Raise(ZeroAmount)
  {
    var limit := Money(intent.limitPrice);
    LimitVanishesIff(intent.limitPrice);
    if 0 < intent.quantity {
      MarginVanishesIff(limit, intent.lotSize, intent.quantity, m.leveraged);
      assert 20 <= limit * intent.lotSize;
      assert limit * intent.lotSize * intent.quantity >= 20;
    }
  }
}
