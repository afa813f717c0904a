/** ledger_service.py: the only writer of an account balance. Amounts are
    signed paise. */
module Ledger {
  import opened Wrappers

  datatype TxnType = INITIAL_CREDIT | TRADE_DEBIT | TRADE_CREDIT | CHARGE | REFUND | MANUAL_ADJUSTMENT | RESET

  /** What a row points at. A strategy position shares its strategy's number. */
  datatype Reference =
    | VIRTUAL_ORDER(id: nat)
    | PENDING_ORDER(id: nat)
    | STRATEGY_POSITION(id: nat)
    | ACCOUNT(id: nat)

  /** What the row's description says the money was for. */
  datatype Purpose = Opening | Margin | Brokerage | RealisedPnl | CapitalUnlock

  datatype Row = Row(
    txnType: TxnType,
    amount: int,
    balanceBefore: int,
    balanceAfter: int,
    reference: Reference,
    purpose: Purpose)

  datatype Tier = TIER_1 | TIER_2 | TIER_3

  datatype Account = Account(
    balance: int,
    rows: seq<Row>,
    disciplineOn: bool,
    tier: Tier,
    capitalUnlocked: bool,
    initialBalance: int)

  /** CHECK ck_vfl_type_sign: credits credit and debits debit. */
  predicate SignFits(txnType: TxnType, amount: int) {
    match txnType
    case INITIAL_CREDIT | TRADE_CREDIT | REFUND => 0 < amount
    case TRADE_DEBIT | CHARGE => amount < 0
    case MANUAL_ADJUSTMENT | RESET => true
  }

  function Post(a: Account, txnType: TxnType, amount: int, reference: Reference, purpose: Purpose): Outcome<Account> {
    if amount == 0 then Raise(ZeroAmount)
    else if a.balance + amount < 0 then Raise(InsufficientBalance)
    else if !SignFits(txnType, amount) then Raise(ConstraintViolated)
    else
      var row := Row(txnType, amount, a.balance, a.balance + amount, reference, purpose);
      Ok(a.(rows := a.rows + [row], balance := a.balance + amount))
  }

  /** Realised P&L is the one movement that may be nothing at all. */
  function SettlePnl(a: Account, net: int, reference: Reference): Outcome<Account> {
    if net == 0 then Ok(a)
    else Post(a, if net > 0 then TRADE_CREDIT else TRADE_DEBIT, net, reference, RealisedPnl)
  }

  // --- The audit trail -------------------------------------------------------

  function BalanceAt(rows: seq<Row>, n: nat): int
    requires n <= |rows|
  {
    if n == 0 then 0 else rows[n - 1].balanceAfter
  }

  ghost predicate RowFits(r: Row, before: int) {
    && r.balanceBefore == before
    && r.balanceAfter == before + r.amount
    && 0 <= r.balanceAfter
    && r.amount != 0
    && SignFits(r.txnType, r.amount)
  }

  /** Every row starts where the previous one ended, from nothing. */
  ghost predicate Chained(rows: seq<Row>) {
    forall n :: 0 <= n < |rows| ==> RowFits(rows[n], BalanceAt(rows, n))
  }

  ghost predicate AccountOk(a: Account) {
    Chained(a.rows) && a.balance == BalanceAt(a.rows, |a.rows|)
  }

  function Total(rows: seq<Row>): int {
    if rows == [] then 0 else Total(rows[..|rows| - 1]) + rows[|rows| - 1].amount
  }

  function Flow(rows: seq<Row>, purpose: Purpose): int {
    if rows == [] then 0
    else
      var last := rows[|rows| - 1];
      Flow(rows[..|rows| - 1], purpose) + if last.purpose == purpose then last.amount else 0
  }

  /** The amounts posted against one reference, oldest first. */
  function Amounts(rows: seq<Row>, reference: Reference): seq<int> {
    if rows == [] then []
    else
      var last := rows[|rows| - 1];
      var earlier := Amounts(rows[..|rows| - 1], reference);
      if last.reference == reference then earlier + [last.amount] else earlier
  }

  lemma FlowAppend(rows: seq<Row>, r: Row, purpose: Purpose)
    ensures Flow(rows + [r], purpose) == Flow(rows, purpose) + if r.purpose == purpose then r.amount else 0
  {
    assert (rows + [r])[..|rows|] == rows;
  }

  lemma AmountsAppend(rows: seq<Row>, r: Row, reference: Reference)
    ensures Amounts(rows + [r], reference)
            == if r.reference == reference then Amounts(rows, reference) + [r.amount] else Amounts(rows, reference)
  {
    assert (rows + [r])[..|rows|] == rows;
  }

  /** An append-only ledger only ever adds to a reference's amounts. */
  lemma {:induction false} AmountsPrefix(rows: seq<Row>, longer: seq<Row>, reference: Reference)
    requires rows <= longer
    ensures Amounts(rows, reference) <= Amounts(longer, reference)
    decreases |longer|
  {
    if |longer| > |rows| {
      AmountsPrefix(rows, longer[..|longer| - 1], reference);
    } else {
      assert rows == longer;
    }
  }

  lemma ChainedAppend(rows: seq<Row>, r: Row)
    requires Chained(rows) && RowFits(r, BalanceAt(rows, |rows|))
    ensures Chained(rows + [r])
  {
    var longer := rows + [r];
    forall n | 0 <= n < |longer|
      ensures RowFits(longer[n], BalanceAt(longer, n))
    {
      assert BalanceAt(longer, n) == BalanceAt(rows, n);
    }
  }

  lemma PostKeepsAccount(a: Account, txnType: TxnType, amount: int, reference: Reference, purpose: Purpose)
    requires AccountOk(a) && Post(a, txnType, amount, reference, purpose).Ok?
    ensures AccountOk(Post(a, txnType, amount, reference, purpose).value)
  {
    ChainedAppend(a.rows, Row(txnType, amount, a.balance, a.balance + amount, reference, purpose));
  }

  lemma {:induction false} ChainedTotal(rows: seq<Row>, n: nat)
    requires Chained(rows) && n <= |rows|
    ensures BalanceAt(rows, n) == Total(rows[..n])
    decreases n
  {
    if n > 0 {
      ChainedTotal(rows, n - 1);
      assert rows[..n][..n - 1] == rows[..n - 1];
      assert RowFits(rows[n - 1], BalanceAt(rows, n - 1));
    }
  }

  /** A balance is the sum of its ledger rows and is never negative. */
  lemma BalanceIsSumOfRows(a: Account)
    requires AccountOk(a)
    ensures a.balance == Total(a.rows) && 0 <= a.balance
  {
    ChainedTotal(a.rows, |a.rows|);
    assert a.rows[..|a.rows|] == a.rows;
    if a.rows != [] {
      assert RowFits(a.rows[|a.rows| - 1], BalanceAt(a.rows, |a.rows| - 1));
    }
  }

  lemma {:induction false} TotalByPurpose(rows: seq<Row>)
    ensures Total(rows) == Flow(rows, Opening) + Flow(rows, Margin) + Flow(rows, Brokerage)
                           + Flow(rows, RealisedPnl) + Flow(rows, CapitalUnlock)
  {
    if rows != [] {
      TotalByPurpose(rows[..|rows| - 1]);
    }
  }
}
