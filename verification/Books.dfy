/** The tables the paper-money services share, and what every committed
    transaction leaves true of them. Rows are numbered by table position and
    users by account, one account a user. */
module Books {
  import opened Wrappers
  import opened Domain
  import opened Ledger

  datatype Product = INTRADAY | NRML

  /** The terms of a single order that a retry must repeat exactly. */
  datatype Terms = Terms(
    instrument: string,
    expiry: int,
    strike: real,
    kind: Kind,
    action: Action,
    quantity: int,
    lotSize: int,
    product: Product,
    slPrice: Option<int>,
    targetPrice: Option<int>,
    setupTag: string)

  datatype PendingStatus = Pending | Filled | Cancelled | Expired | Rejected

  datatype PendingOrder = PendingOrder(
    user: nat,
    clientId: Option<nat>,
    terms: Terms,
    limitPrice: int,
    status: PendingStatus,
    marginBlocked: int,
    tradingDay: int,
    filledOrder: Option<nat>,
    fillPrice: Option<int>)

  datatype OrderStatus = Open | Closed | SlHit | TargetHit

  /** The position row of a standalone order; a mirrored leg has none. */
  datatype Position = NoPosition | Position(marginBlocked: int, isOpen: bool)

  datatype Order = Order(
    user: nat,
    clientId: Option<nat>,
    terms: Terms,
    entryPrice: int,
    exitPrice: Option<int>,
    status: OrderStatus,
    pnl: Option<int>,
    entryBrokerage: int,
    brokerage: int,
    strategy: Option<nat>,
    position: Position)

  datatype StrategyStatus = Draft | Executed | SquaredOff

  datatype LegRow = LegRow(
    id: nat,
    instrument: string,
    expiry: int,
    strike: Option<real>,
    kind: Kind,
    action: Action,
    lots: int,
    lotSize: int,
    entryPrice: Option<int>,
    exitPrice: Option<int>,
    status: LegStatus,
    realizedPnl: int)

  datatype StrategyPosition = StrategyPosition(marginBlocked: int, realizedPnl: int, brokerage: int, isOpen: bool)

  datatype Strategy = Strategy(
    user: nat,
    underlying: string,
    allowCalendar: bool,
    product: Product,
    setupTag: string,
    status: StrategyStatus,
    legs: seq<LegRow>,
    position: Option<StrategyPosition>)

  datatype Book = Book(
    accounts: seq<Account>,
    pendings: seq<PendingOrder>,
    orders: seq<Order>,
    strategies: seq<Strategy>)

  /** Rows are only ever added, and accounts only ever opened. */
  ghost predicate LedgerGrows(before: seq<Account>, after: seq<Account>) {
    |before| <= |after| && forall v :: 0 <= v < |before| ==> before[v].rows <= after[v].rows
  }

  lemma GrowsOnwards(a: seq<Account>, b: seq<Account>, c: seq<Account>)
    requires LedgerGrows(a, b) && LedgerGrows(b, c)
    ensures LedgerGrows(a, c)
  {
  }

  // --- Posting through the book ---------------------------------------------

  function PostTo(b: Book, user: nat, txnType: TxnType, amount: int, reference: Reference, purpose: Purpose)
    : (r: Outcome<Book>)
    ensures r.Ok? ==> user < |b.accounts| && SignFits(txnType, amount)
    ensures r.Ok? ==> r.value == b.(accounts := r.value.accounts) && |r.value.accounts| == |b.accounts|
    ensures r.Ok? ==> LedgerGrows(b.accounts, r.value.accounts)
    ensures r.Ok? ==> r.value.accounts[user].balance == b.accounts[user].balance + amount
  {
    if user >= |b.accounts| then Raise(NoAccount)
    else
      var account :- Post(b.accounts[user], txnType, amount, reference, purpose);
      Ok(b.(accounts := b.accounts[user := account]))
  }

  function SettleTo(b: Book, user: nat, net: int, reference: Reference): (r: Outcome<Book>)
    ensures r.Ok? ==> user < |b.accounts|
    ensures r.Ok? ==> r.value == b.(accounts := r.value.accounts) && |r.value.accounts| == |b.accounts|
    ensures r.Ok? ==> LedgerGrows(b.accounts, r.value.accounts)
    ensures r.Ok? ==> r.value.accounts[user].balance == b.accounts[user].balance + net
  {
    if user >= |b.accounts| then Raise(NoAccount)
    else
      var account :- SettlePnl(b.accounts[user], net, reference);
      Ok(b.(accounts := b.accounts[user := account]))
  }

  /** A posting adds one row, its own, to one ledger, and touches nothing else. */
  lemma PostTouchesOneAccount(b: Book, user: nat, txnType: TxnType, amount: int, reference: Reference, purpose: Purpose, after: Book)
    requires PostTo(b, user, txnType, amount, reference, purpose) == Ok(after)
    ensures user < |b.accounts| == |after.accounts| && amount != 0 && 0 <= after.accounts[user].balance
    ensures var before, now := b.accounts[user], after.accounts[user];
            && now == before.(balance := before.balance + amount, rows := now.rows)
            && now.rows == before.rows + [Row(txnType, amount, before.balance, now.balance, reference, purpose)]
    ensures forall v :: 0 <= v < |b.accounts| && v != user ==> after.accounts[v] == b.accounts[v]
    ensures after.pendings == b.pendings && after.orders == b.orders && after.strategies == b.strategies
  {
  }

  /** What opening a position costs: its margin, then the entry brokerage. */
  function PostEntry(b: Book, user: nat, r: Reference, margin: int, charge: int): (done: Outcome<Book>)
    ensures done.Ok? ==> user < |b.accounts| && 0 < margin
    ensures done.Ok? ==> done.value == b.(accounts := done.value.accounts) && |done.value.accounts| == |b.accounts|
    ensures done.Ok? ==> LedgerGrows(b.accounts, done.value.accounts)
    ensures done.Ok? ==> done.value.accounts[user].balance == b.accounts[user].balance - margin - charge
  {
    var b1 :- PostTo(b, user, TRADE_DEBIT, -margin, r, Margin);
    PostTo(b1, user, CHARGE, -charge, r, Brokerage)
  }

  /** What closing a position returns: its margin, then the realised P&L. */
  function PostExit(b: Book, user: nat, r: Reference, margin: int, net: int): (done: Outcome<Book>)
    ensures done.Ok? ==> user < |b.accounts|
    ensures done.Ok? ==> done.value == b.(accounts := done.value.accounts) && |done.value.accounts| == |b.accounts|
    ensures done.Ok? ==> LedgerGrows(b.accounts, done.value.accounts)
    ensures done.Ok? ==> done.value.accounts[user].balance == b.accounts[user].balance + margin + net
  {
    var b1 :- if margin != 0 then PostTo(b, user, TRADE_CREDIT, margin, r, Margin) else Ok(b);
    SettleTo(b1, user, net, r)
  }

  // --- Sums over a table ------------------------------------------------------

  function SumBy<T>(rows: seq<T>, worth: T -> int): int {
    if rows == [] then 0 else SumBy(rows[..|rows| - 1], worth) + worth(rows[|rows| - 1])
  }

  lemma SumByAppend<T>(rows: seq<T>, row: T, worth: T -> int)
    ensures SumBy(rows + [row], worth) == SumBy(rows, worth) + worth(row)
  {
    assert (rows + [row])[..|rows|] == rows;
  }

  lemma {:induction false} SumByUpdate<T>(rows: seq<T>, i: nat, row: T, worth: T -> int)
    requires i < |rows|
    ensures SumBy(rows[i := row], worth) == SumBy(rows, worth) - worth(rows[i]) + worth(row)
  {
    var n := |rows| - 1;
    if i == n {
      assert rows[i := row][..n] == rows[..n];
    } else {
      assert rows[i := row][..n] == rows[..n][i := row];
      SumByUpdate(rows[..n], i, row, worth);
    }
  }

  lemma {:induction false} SumBySame<T>(rows: seq<T>, others: seq<T>, worth: T -> int)
    requires |rows| == |others| && forall k :: 0 <= k < |rows| ==> worth(rows[k]) == worth(others[k])
    ensures SumBy(rows, worth) == SumBy(others, worth)
  {
    if rows != [] {
      SumBySame(rows[..|rows| - 1], others[..|rows| - 1], worth);
    }
  }

  lemma {:induction false} SumByConcat<T>(rows: seq<T>, more: seq<T>, worth: T -> int)
    ensures SumBy(rows + more, worth) == SumBy(rows, worth) + SumBy(more, worth)
  {
    if more == [] {
      assert rows + more == rows;
    } else {
      var n := |more| - 1;
      SumByConcat(rows, more[..n], worth);
      assert (rows + more)[..|rows + more| - 1] == rows + more[..n];
    }
  }

  function PendingHold(user: nat): PendingOrder -> int {
    (p: PendingOrder) => if p.user == user then p.marginBlocked else 0
  }

  function OrderHold(user: nat): Order -> int {
    (o: Order) => if o.user == user && o.position.Position? && o.position.isOpen then o.position.marginBlocked else 0
  }

  function StrategyHold(user: nat): Strategy -> int {
    (s: Strategy) => if s.user == user && s.position.Some? && s.position.value.isOpen then s.position.value.marginBlocked else 0
  }

  /** Resting reservations, and the margin of open positions of both sorts. */
  function Reserved(b: Book, user: nat): int {
    SumBy(b.pendings, PendingHold(user))
  }

  function PositionMargin(b: Book, user: nat): int {
    SumBy(b.orders, OrderHold(user)) + SumBy(b.strategies, StrategyHold(user))
  }

  function RealizedOf(legs: seq<LegRow>): int {
    if legs == [] then 0
    else
      var last := legs[|legs| - 1];
      RealizedOf(legs[..|legs| - 1]) + if last.status == CLOSED then last.realizedPnl else 0
  }

  // --- What holds after every transaction -----------------------------------

  ghost predicate MoneyOk(b: Book, user: nat)
    requires user < |b.accounts|
  {
    Flow(b.accounts[user].rows, Margin) + Reserved(b, user) + PositionMargin(b, user) == 0
  }

  /** Reserved while resting and only then; `posted` is what the ledger shows
      for the order: one debit, and one equal refund once it left the book. */
  ghost predicate PendingOk(p: PendingOrder, posted: seq<int>) {
    && 0 <= p.marginBlocked
    && (p.status.Pending? <==> 0 < p.marginBlocked)
    && (if p.status.Pending? then posted == [-p.marginBlocked]
        else |posted| == 2 && posted[0] < 0 && posted[1] == -posted[0])
  }

  function NonZero(net: int): seq<int> {
    if net == 0 then [] else [net]
  }

  ghost predicate OrderOk(o: Order, posted: seq<int>) {
    && (o.status.Open? <==> o.pnl.None?)
    && (o.strategy.None? <==> o.position.Position?)
    && (o.position.Position? ==>
          && 0 < o.position.marginBlocked
          && (o.position.isOpen <==> o.status.Open?)
          && posted == if o.status.Open? then [-o.position.marginBlocked, -o.entryBrokerage]
                       else [-o.position.marginBlocked, -o.entryBrokerage] + ([o.position.marginBlocked] + NonZero(o.pnl.value)))
    && (o.position.NoPosition? ==> posted == [] || (o.pnl.Some? && posted == NonZero(o.pnl.value)))
  }

  /** The life of a strategy: margin blocked once when executed, and returned
      once, with the realised P&L net of entry brokerage, with the last leg. */
  ghost predicate StrategyOk(s: Strategy, posted: seq<int>) {
    match s.status
    case Draft =>
      s.position.None? && posted == [] && (forall l :: l in s.legs ==> l.status == PENDING)
    case Executed =>
      && s.position.Some?
      && s.position.value.isOpen
      && 0 < s.position.value.marginBlocked
      && s.position.value.realizedPnl == RealizedOf(s.legs)
      && posted == [-s.position.value.marginBlocked]
      && (forall l :: l in s.legs ==> l.status != PENDING)
      && (exists l :: l in s.legs && l.status == OPEN)
    case SquaredOff =>
      && s.position.Some?
      && !s.position.value.isOpen
      && 0 < s.position.value.marginBlocked
      && s.position.value.realizedPnl == RealizedOf(s.legs)
      && posted == [-s.position.value.marginBlocked, s.position.value.marginBlocked]
                   + NonZero(s.position.value.realizedPnl - s.position.value.brokerage)
      && (forall l :: l in s.legs ==> l.status == CLOSED)
  }

  /** The rows of `user` that point at `r` tell the life of the row `r` names,
      and there are none unless it is the user's own. */
  ghost predicate TrailOk(b: Book, user: nat, r: Reference)
    requires user < |b.accounts|
  {
    var posted := Amounts(b.accounts[user].rows, r);
    match r
    case PENDING_ORDER(i) =>
      if i < |b.pendings| && b.pendings[i].user == user then PendingOk(b.pendings[i], posted) else posted == []
    case VIRTUAL_ORDER(i) =>
      if i < |b.orders| && b.orders[i].user == user then OrderOk(b.orders[i], posted) else posted == []
    case STRATEGY_POSITION(i) =>
      if i < |b.strategies| && b.strategies[i].user == user then StrategyOk(b.strategies[i], posted) else posted == []
    case ACCOUNT(_) => true
  }

  ghost predicate OwnersExist(b: Book) {
    && (forall i :: 0 <= i < |b.pendings| ==> b.pendings[i].user < |b.accounts|)
    && (forall i :: 0 <= i < |b.orders| ==> b.orders[i].user < |b.accounts|)
    && (forall i :: 0 <= i < |b.strategies| ==> b.strategies[i].user < |b.accounts|)
  }

  predicate SameClientId(p: PendingOrder, q: PendingOrder) {
    p.user == q.user && p.clientId == q.clientId
  }

  /** One resting order a user and client id. */
  ghost predicate ClientIdsUnique(b: Book) {
    forall i, j :: 0 <= i < j < |b.pendings| && SameClientId(b.pendings[i], b.pendings[j])
      ==> b.pendings[i].clientId.None?
  }

  ghost predicate Inv(b: Book) {
    && OwnersExist(b)
    && ClientIdsUnique(b)
    && (forall u :: 0 <= u < |b.accounts| ==> AccountOk(b.accounts[u]))
    && (forall u :: 0 <= u < |b.accounts| ==> MoneyOk(b, u))
    && (forall u: nat, r: Reference :: u < |b.accounts| ==> TrailOk(b, u, r))
  }

  // --- What one posting changes ----------------------------------------------

  /** From `a` to `c` an account gained rows against `r` with these amounts,
      `held` of them margin. */
  ghost predicate Gained(a: Account, c: Account, r: Reference, amounts: seq<int>, held: int) {
    && (AccountOk(a) ==> AccountOk(c))
    && Flow(c.rows, Margin) == Flow(a.rows, Margin) + held
    && Amounts(c.rows, r) == Amounts(a.rows, r) + amounts
    && (forall q :: q != r ==> Amounts(c.rows, q) == Amounts(a.rows, q))
  }

  /** `user` alone gained those rows. */
  ghost predicate Posted(before: seq<Account>, after: seq<Account>, user: nat, r: Reference, amounts: seq<int>, held: int) {
    && |after| == |before|
    && user < |before|
    && Gained(before[user], after[user], r, amounts, held)
    && (forall v :: 0 <= v < |before| && v != user ==> after[v] == before[v])
  }

  lemma PostGains(a: Account, txnType: TxnType, amount: int, r: Reference, purpose: Purpose, held: int)
    requires Post(a, txnType, amount, r, purpose).Ok?
    requires held == if purpose == Margin then amount else 0
    ensures Gained(a, Post(a, txnType, amount, r, purpose).value, r, [amount], held)
  {
    var row := Row(txnType, amount, a.balance, a.balance + amount, r, purpose);
    if AccountOk(a) {
      PostKeepsAccount(a, txnType, amount, r, purpose);
    }
    FlowAppend(a.rows, row, Margin);
    forall q {
      AmountsAppend(a.rows, row, q);
    }
  }

  lemma AboutPost(b: Book, after: Book, user: nat, txnType: TxnType, amount: int, r: Reference, purpose: Purpose,
                  amounts: seq<int>, held: int)
    requires PostTo(b, user, txnType, amount, r, purpose) == Ok(after)
    requires amounts == [amount] && held == if purpose == Margin then amount else 0
    ensures Posted(b.accounts, after.accounts, user, r, amounts, held)
  {
    PostGains(b.accounts[user], txnType, amount, r, purpose, held);
  }

  lemma AboutSettle(b: Book, after: Book, user: nat, net: int, r: Reference, amounts: seq<int>)
    requires SettleTo(b, user, net, r) == Ok(after)
    requires amounts == NonZero(net)
    ensures Posted(b.accounts, after.accounts, user, r, amounts, 0)
  {
    if net != 0 {
      PostGains(b.accounts[user], if net > 0 then TRADE_CREDIT else TRADE_DEBIT, net, r, RealisedPnl, 0);
    } else {
      var posted := Amounts(b.accounts[user].rows, r);
      assert posted + amounts == posted;
    }
  }

  lemma GainedTwice(a: Account, b: Account, c: Account, r: Reference, first: seq<int>, held1: int,
                    second: seq<int>, held2: int)
    requires Gained(a, b, r, first, held1) && Gained(b, c, r, second, held2)
    ensures Gained(a, c, r, first + second, held1 + held2)
  {
    var posted := Amounts(a.rows, r);
    assert posted + first + second == posted + (first + second);
  }

  lemma PostedTwice(a: seq<Account>, b: seq<Account>, c: seq<Account>, user: nat, r: Reference,
                    first: seq<int>, held1: int, second: seq<int>, held2: int, amounts: seq<int>, held: int)
    requires Posted(a, b, user, r, first, held1) && Posted(b, c, user, r, second, held2)
    requires amounts == first + second && held == held1 + held2
    ensures Posted(a, c, user, r, amounts, held)
  {
    GainedTwice(a[user], b[user], c[user], r, first, held1, second, held2);
  }

  lemma AboutEntry(b: Book, b1: Book, after: Book, user: nat, r: Reference, debit: int, charge: int, amounts: seq<int>)
    requires PostTo(b, user, TRADE_DEBIT, debit, r, Margin) == Ok(b1)
    requires PostTo(b1, user, CHARGE, charge, r, Brokerage) == Ok(after)
    requires amounts == [debit, charge]
    ensures Posted(b.accounts, after.accounts, user, r, amounts, debit)
  {
    var first, second := [debit], [charge];
    AboutPost(b, b1, user, TRADE_DEBIT, debit, r, Margin, first, debit);
    AboutPost(b1, after, user, CHARGE, charge, r, Brokerage, second, 0);
    PostedTwice(b.accounts, b1.accounts, after.accounts, user, r, first, debit, second, 0, amounts, debit);
  }

  lemma AboutExit(b: Book, b1: Book, after: Book, user: nat, r: Reference, margin: int, net: int, amounts: seq<int>)
    requires PostTo(b, user, TRADE_CREDIT, margin, r, Margin) == Ok(b1)
    requires SettleTo(b1, user, net, r) == Ok(after)
    requires amounts == [margin] + NonZero(net)
    ensures Posted(b.accounts, after.accounts, user, r, amounts, margin)
  {
    var first, second := [margin], NonZero(net);
    AboutPost(b, b1, user, TRADE_CREDIT, margin, r, Margin, first, margin);
    AboutSettle(b1, after, user, net, r, second);
    PostedTwice(b.accounts, b1.accounts, after.accounts, user, r, first, margin, second, 0, amounts, margin);
  }

  lemma PostedNothing(accounts: seq<Account>, user: nat, r: Reference)
    requires user < |accounts|
    ensures Posted(accounts, accounts, user, r, [], 0)
  {
    var posted := Amounts(accounts[user].rows, r);
    assert posted + [] == posted;
  }

  // --- How one transaction keeps the invariant ---------------------------------

  /** Whose row `r` names, if there is such a row. */
  function OwnerOf(b: Book, r: Reference): Option<nat> {
    match r
    case PENDING_ORDER(i) => if i < |b.pendings| then Some(b.pendings[i].user) else None
    case VIRTUAL_ORDER(i) => if i < |b.orders| then Some(b.orders[i].user) else None
    case STRATEGY_POSITION(i) => if i < |b.strategies| then Some(b.strategies[i].user) else None
    case ACCOUNT(_) => None
  }

  ghost predicate SameRow(b: Book, after: Book, r: Reference) {
    && (OwnerOf(after, r) == OwnerOf(b, r) || NewMirror(b, after, r))
    && (OwnerOf(b, r).Some? ==>
          match r
          case PENDING_ORDER(i) => after.pendings[i] == b.pendings[i]
          case VIRTUAL_ORDER(i) => SameOrderLife(b.orders[i], after.orders[i])
          case STRATEGY_POSITION(i) => after.strategies[i] == b.strategies[i]
          case ACCOUNT(_) => true)
  }

  /** A leg's mirror: no position of its own and no money behind it. */
  ghost predicate FreshMirror(o: Order) {
    o.status.Open? && o.pnl.None? && o.strategy.Some? && o.position.NoPosition?
  }

  ghost predicate NewMirror(b: Book, after: Book, r: Reference) {
    r.VIRTUAL_ORDER? && |b.orders| <= r.id < |after.orders| && FreshMirror(after.orders[r.id])
  }

  /** A mirrored order may be closed along with its leg without any posting. */
  ghost predicate SameOrderLife(o: Order, p: Order) {
    p == o || (
      && p.user == o.user && p.strategy == o.strategy && o.position.NoPosition? && p.position.NoPosition?
      && o.status.Open? && !p.status.Open? && p.pnl.Some?)
  }

  /** The holds of every user move against the margin posted. */
  ghost predicate HoldsShift(b: Book, after: Book, user: nat, held: int) {
    forall v: nat :: v < |b.accounts| ==>
      Reserved(after, v) + PositionMargin(after, v) == Reserved(b, v) + PositionMargin(b, v) - if v == user then held else 0
  }

  lemma MoneyKept(b: Book, after: Book, user: nat, reference: Reference, amounts: seq<int>, held: int)
    requires forall v :: 0 <= v < |b.accounts| ==> MoneyOk(b, v)
    requires Posted(b.accounts, after.accounts, user, reference, amounts, held)
    requires HoldsShift(b, after, user, held)
    ensures forall v :: 0 <= v < |after.accounts| ==> MoneyOk(after, v)
  {
    forall v | 0 <= v < |after.accounts|
      ensures MoneyOk(after, v)
    {
      assert MoneyOk(b, v);
    }
  }

  lemma TrailStays(b: Book, after: Book, user: nat, r: Reference)
    requires user < |b.accounts| && user < |after.accounts| && TrailOk(b, user, r) && SameRow(b, after, r)
    requires Amounts(after.accounts[user].rows, r) == Amounts(b.accounts[user].rows, r)
    ensures TrailOk(after, user, r)
  {
  }

  /** Of all rows only the one `r` names changes, and it is `user`'s. */
  ghost predicate Touches(b: Book, after: Book, user: nat, r: Reference) {
    && OwnerOf(b, r) in {None, Some(user)}
    && OwnerOf(after, r) == Some(user)
    && (forall q: Reference :: q != r ==> SameRow(b, after, q))
    && OwnersExist(after)
    && ClientIdsUnique(after)
  }

  lemma TrailKept(b: Book, after: Book, user: nat, r: Reference, amounts: seq<int>, held: int)
    requires forall v: nat, q: Reference :: v < |b.accounts| ==> TrailOk(b, v, q)
    requires Posted(b.accounts, after.accounts, user, r, amounts, held)
    requires Touches(b, after, user, r) && TrailOk(after, user, r)
    ensures forall v: nat, q: Reference :: v < |after.accounts| ==> TrailOk(after, v, q)
  {
    forall v: nat, q: Reference | v < |after.accounts|
      ensures TrailOk(after, v, q)
    {
      assert TrailOk(b, v, q);
      if q != r {
        TrailStays(b, after, v, q);
      }
    }
  }

  /** Nothing was posted yet against a row that did not exist. */
  lemma FreshTrail(b: Book, after: seq<Account>, user: nat, r: Reference, amounts: seq<int>, held: int)
    requires user < |b.accounts| && TrailOk(b, user, r) && OwnerOf(b, r).None? && !r.ACCOUNT?
    requires Posted(b.accounts, after, user, r, amounts, held)
    ensures Amounts(after[user].rows, r) == amounts
  {
    assert Amounts(b.accounts[user].rows, r) == [];
    assert [] + amounts == amounts;
  }

  /** Enough for a transaction that posts against one row and changes it. */
  lemma Kept(b: Book, after: Book, user: nat, r: Reference, amounts: seq<int>, held: int)
    requires Inv(b)
    requires Posted(b.accounts, after.accounts, user, r, amounts, held)
    requires HoldsShift(b, after, user, held)
    requires Touches(b, after, user, r) && TrailOk(after, user, r)
    ensures Inv(after)
  {
    MoneyKept(b, after, user, r, amounts, held);
    TrailKept(b, after, user, r, amounts, held);
  }

  // --- What the invariant means for a reader ---------------------------------

  /** Conservation: what a user can spend, plus what is reserved or blocked, is
      what was credited plus the P&L settled, less the brokerage charged. */
  lemma Conservation(b: Book, user: nat)
    requires Inv(b) && user < |b.accounts|
    ensures var rows := b.accounts[user].rows;
            b.accounts[user].balance + Reserved(b, user) + PositionMargin(b, user)
            == Flow(rows, Opening) + Flow(rows, CapitalUnlock) + Flow(rows, RealisedPnl) + Flow(rows, Brokerage)
    ensures b.accounts[user].balance == Total(b.accounts[user].rows)
    ensures 0 <= b.accounts[user].balance
  {
    assert AccountOk(b.accounts[user]) && MoneyOk(b, user);
    BalanceIsSumOfRows(b.accounts[user]);
    TotalByPurpose(b.accounts[user].rows);
  }
}
