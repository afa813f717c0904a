/** discipline_mode_service.py and account opening: the two movements that
    create capital. */
module DisciplineMode {
  import opened Wrappers
  import opened Ledger
  import opened Books

  const TIER_1_CAPITAL := 10000000
  const FULL_SANDBOX_CAPITAL := 100000000

  /** Opened at nothing and credited through the ledger. */
  function OpenAccount(b: Book): Outcome<Book> {
    PostTo(b.(accounts := b.accounts + [Account(0, [], true, TIER_1, false, TIER_1_CAPITAL)]), |b.accounts|,
           INITIAL_CREDIT, TIER_1_CAPITAL, ACCOUNT(|b.accounts|), Opening)
  }

  function Unlocked(a: Account): Account {
    a.(tier := TIER_3, capitalUnlocked := true,
       initialBalance := if FULL_SANDBOX_CAPITAL > a.initialBalance then FULL_SANDBOX_CAPITAL else a.initialBalance)
  }

  function ChangeAccount(b: Book, user: nat, a: Account): Book
    requires user < |b.accounts|
  {
    b.(accounts := b.accounts[user := a])
  }

  /** ON only re-enables the rules. OFF tops the balance up to the full capital
      less what open positions block, and never lowers it. */
  function SetMode(b: Book, user: nat, enabled: bool): Outcome<Book> {
    if user >= |b.accounts| then Raise(NotFound)
    else
      var b1 := ChangeAccount(b, user, b.accounts[user].(disciplineOn := enabled));
      if enabled then Ok(b1)
      else
        var target := FULL_SANDBOX_CAPITAL - PositionMargin(b, user);
        var balance := b.accounts[user].balance;
        var b2 :- if target > balance
                  then PostTo(b1, user, MANUAL_ADJUSTMENT, target - balance, ACCOUNT(user), CapitalUnlock)
                  else Ok(b1);
        Ok(ChangeAccount(b2, user, Unlocked(b2.accounts[user])))
  }

  /** A new account holds a lakh, credited by its one row, under the rules. */
  lemma OpenAccountCreditsALakh(b: Book)
    ensures var user := |b.accounts|;
            var row := Row(INITIAL_CREDIT, 10000000, 0, 10000000, ACCOUNT(user), Opening);
            OpenAccount(b) == Ok(b.(accounts := b.accounts + [Account(10000000, [row], true, TIER_1, false, 10000000)]))
  {
    var nothing := Account(0, [], true, TIER_1, false, 10000000);
    assert [] + [Row(INITIAL_CREDIT, 10000000, 0, 10000000, ACCOUNT(|b.accounts|), Opening)]
           == [Row(INITIAL_CREDIT, 10000000, 0, 10000000, ACCOUNT(|b.accounts|), Opening)];
    assert forall a: Account :: (b.accounts + [nothing])[|b.accounts| := a] == b.accounts + [a];
  }

  /** Switching always succeeds for an account that exists. */
  lemma SetModePossibleIff(b: Book, user: nat, enabled: bool)
    requires Inv(b)
    ensures SetMode(b, user, enabled).Ok? <==> user < |b.accounts|
  {
    if user < |b.accounts| {
      assert AccountOk(b.accounts[user]);
      BalanceIsSumOfRows(b.accounts[user]);
    }
  }

  /** The rules are then as asked, on or off, and nobody else is affected.
      Switching on moves no money and keeps what was unlocked; switching off
      leaves at least Rs 10 lakh between balance and open positions, takes
      nothing away, adds no more than is missing, and unlocks the capital. */
  lemma ModeNeverTakesMoney(b: Book, user: nat, enabled: bool, after: Book)
    requires SetMode(b, user, enabled) == Ok(after)
    ensures user < |b.accounts| == |after.accounts| && after.accounts[user].disciplineOn == enabled
    ensures forall v :: 0 <= v < |b.accounts| && v != user ==> after.accounts[v] == b.accounts[v]
    ensures after.accounts[user].balance >= b.accounts[user].balance
    ensures enabled ==> after.accounts[user] == b.accounts[user].(disciplineOn := true)
    ensures !enabled ==> after.accounts[user].balance + PositionMargin(after, user) >= 100000000
    ensures !enabled ==> after.accounts[user].balance == b.accounts[user].balance
                         || after.accounts[user].balance + PositionMargin(after, user) == 100000000
    ensures !enabled ==> var a, was := after.accounts[user], b.accounts[user];
                         && a.tier == TIER_3 && a.capitalUnlocked
                         && a.initialBalance >= was.initialBalance && a.initialBalance >= 100000000
                         && (a.initialBalance == was.initialBalance || a.initialBalance == 100000000)
    ensures after.pendings == b.pendings && after.orders == b.orders && after.strategies == b.strategies
  {
  }

  /** Switching off a second time, with the same positions, changes nothing. */
  lemma ModeOffIsIdempotent(b: Book, user: nat, after: Book)
    requires SetMode(b, user, false) == Ok(after)
    ensures SetMode(after, user, false) == Ok(after)
  {
    var a := after.accounts[user];
    ModeNeverTakesMoney(b, user, false, after);
    assert a.(disciplineOn := false) == a && Unlocked(a) == a;
    assert after.accounts[user := a] == after.accounts;
  }

  // --- Preservation ----------------------------------------------------------

  lemma AccountMoveKeeps(b: Book, after: Book, user: nat, r: Reference, amounts: seq<int>)
    requires Inv(b) && after == b.(accounts := after.accounts) && r == ACCOUNT(user)
    requires Posted(b.accounts, after.accounts, user, r, amounts, 0)
    ensures Inv(after)
  {
    MoneyKept(b, after, user, r, amounts, 0);
    forall v: nat, q: Reference | v < |after.accounts|
      ensures TrailOk(after, v, q)
    {
      assert TrailOk(b, v, q);
      if q != r {
        TrailStays(b, after, v, q);
      }
    }
  }

  lemma SameLedgerKeeps(b: Book, user: nat, a: Account)
    requires Inv(b) && user < |b.accounts|
    requires a.rows == b.accounts[user].rows && a.balance == b.accounts[user].balance
    ensures Inv(ChangeAccount(b, user, a))
  {
    var posted := Amounts(a.rows, ACCOUNT(user));
    assert posted + [] == posted;
    AccountMoveKeeps(b, ChangeAccount(b, user, a), user, ACCOUNT(user), []);
  }

  lemma SetModeKeeps(b: Book, user: nat, enabled: bool, after: Book)
    requires Inv(b) && SetMode(b, user, enabled) == Ok(after)
    ensures Inv(after)
  {
    var b1 := ChangeAccount(b, user, b.accounts[user].(disciplineOn := enabled));
    SameLedgerKeeps(b, user, b.accounts[user].(disciplineOn := enabled));
    if !enabled {
      var delta := FULL_SANDBOX_CAPITAL - PositionMargin(b, user) - b.accounts[user].balance;
      var b2 := b1;
      if delta > 0 {
        b2 := PostTo(b1, user, MANUAL_ADJUSTMENT, delta, ACCOUNT(user), CapitalUnlock).value;
        var amounts := [delta];
        AboutPost(b1, b2, user, MANUAL_ADJUSTMENT, delta, ACCOUNT(user), CapitalUnlock, amounts, 0);
        AccountMoveKeeps(b1, b2, user, ACCOUNT(user), amounts);
      }
      SameLedgerKeeps(b2, user, Unlocked(b2.accounts[user]));
    }
  }

  lemma {:induction false} NothingHeld<T>(rows: seq<T>, worth: T -> int)
    requires forall k :: 0 <= k < |rows| ==> worth(rows[k]) == 0
    ensures SumBy(rows, worth) == 0
  {
    if rows != [] {
      NothingHeld(rows[..|rows| - 1], worth);
    }
  }

  lemma NewAccountKeeps(b: Book, a: Account, after: Book)
    requires Inv(b) && a.rows == [] && a.balance == 0 && after == b.(accounts := b.accounts + [a])
    ensures Inv(after)
  {
    var n := |b.accounts|;
    forall v | 0 <= v < |after.accounts|
      ensures MoneyOk(after, v)
    {
      if v < n {
        assert MoneyOk(b, v);
      } else {
        NothingHeld(b.pendings, PendingHold(v));
        NothingHeld(b.orders, OrderHold(v));
        NothingHeld(b.strategies, StrategyHold(v));
      }
    }
    forall v: nat, r: Reference | v < |after.accounts|
      ensures TrailOk(after, v, r)
    {
      if v < n {
        assert TrailOk(b, v, r);
        TrailStays(b, after, v, r);
      }
    }
  }

  lemma OpenAccountKeeps(b: Book, after: Book)
    requires Inv(b) && OpenAccount(b) == Ok(after)
    ensures Inv(after)
  {
    var n := |b.accounts|;
    var a := Account(0, [], true, TIER_1, false, TIER_1_CAPITAL);
    var b1, amounts, r := b.(accounts := b.accounts + [a]), [TIER_1_CAPITAL], ACCOUNT(n);
    NewAccountKeeps(b, a, b1);
    AboutPost(b1, after, n, INITIAL_CREDIT, TIER_1_CAPITAL, r, Opening, amounts, 0);
    AccountMoveKeeps(b1, after, n, r, amounts);
  }
}
