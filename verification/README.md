# A verified model of the paper-trading backend

The backend under `backend/app` lets a learner trade NIFTY, BANKNIFTY and SENSEX
options with virtual money. This project restates its stateful machines and its
arithmetic in Dafny and proves what they are for: money is never created or
lost, a reservation comes back once, a refresh token works once, a lease has one
holder, a limit is a limit.

**The paper-money machine.** `Ledger`, `Books`, `SingleOrders`, `PendingOrders`,
`StrategyExecution`, `StrategyDrafts` and `DisciplineMode` give every service
call as a function from one book (accounts with their ledger rows, resting limit
orders, orders, strategies) to the next, or to the exception it raises.
`LimitOrders`, `LimitSweeps`, `StrategyCalls` and `AuditRows` say what each call
comes to without those functions: when it succeeds, what it writes, field by
field, and which ledger rows. `Desk`
holds the services in the form the backend has them: a session whose rows are
changed field by field, flushed, committed or rolled back, each method proved
against its function, and `Desk.Session.Serve` taking one step of `Runs` for one
request; the methods that only repeat a service's guards have no row below.
`Runs`, `StrategyRuns`, `MirrorRuns`, `OpenMirrors` and `StrategySettlement` prove
what holds over every run from the empty book, and `MirrorWitnesses` reaches what
goes wrong from it. Money is integer paise; an amount not
yet quantised is a real, and `Rounding` has the two roundings the code uses.

**The other machines.** `Tokens` and `TokenFamilies` (refresh-token rotation,
section 4.14.2 of RFC 9700), `Lease` and `Heartbeats` (the scheduler's Redis lease
over many processes and a clock), `RateLimit` (the sliding-window limiter), `Builder` (the
draft editor and the check made before execution), `Sockets` (three redundant
indices and the replay cache) and `SocketTasks` (its coroutines, interleaved at
every send).

**Arithmetic.** `Costs` (brokerage and slippage), `MaxPain`, `ImpliedVol`,
`Expiry` (the merged expiry calendar) and `Analytics` (drawdown, daily and group
results). `Wrappers`, `Domain` and `Ordered` are shared vocabulary.

Inputs from outside — quotes, fills, the random slippage draw, the margin
estimate, the discipline verdict, whether the market is open, the clock, which
sends fail — are parameters, and every theorem holds for all of them.

## What the proofs found

Each of these is a lemma; where a property fails, the exact condition for it is
proved beside it.

- A leg's mirror can be closed by itself: the route
  `backend/app/routers/trading.py:395-425` calls `close_position`, which does not
  look at `strategy_id`. The leg's P&L is then settled twice
  (`StrategySettlement.DoublePaymentIsTheMirrorsPnl`, reached by
  `MirrorWitnesses.DoublePaymentIsReachable`), and that one call is the only one
  that can break the order book's picture of a strategy
  (`MirrorRuns.OnlyLoneClosesBreakMirrors`).
- `square_off` looks mirrors up by strike, type and action with nothing flushed
  in between, so it closes every mirror exactly when the open ones have distinct
  keys (`OpenMirrors.SquareOffClosesEveryMirrorIff`). One strike sold in two
  expiries leaves one open for good (`MirrorWitnesses.CalendarLeavesAMirrorOpen`).
- A loss larger than balance plus margin cannot be settled: neither a strategy
  (`StrategySettlement.SquareOffClosesIff`) nor a single order
  (`SingleOrders.CloseOrderPossibleIff`) can then be closed, though the source
  means a user always to be able to.
- A strategy whose estimated margin is nought (long options only) can never be
  executed: blocking nothing is a zero posting
  (`StrategyExecution.ExecutesAtMarginIff`).
- An order that left the book during a sweep is skipped, and its user is told it
  was filled (`Desk.SkippedOrderIsReportedFilled`, `Desk.FillNoticeIsTrueIff`).
- A BUY limit filled at a quote exactly at its price pays more than its price,
  and more margin than was reserved for it "at worst", as soon as the slippage
  is half a paisa (`Costs.BuyAtTheLimitStaysIff`,
  `LimitOrders.BuyFillsWithinItsLimitIff`).
- The slippage engine quantises with `Decimal("0.05")`, of which `quantize` takes
  only the exponent: fills are whole paise, on the exchange's five-paise grid
  only when the slippage happens to be (`Costs.WholeQuotesFillExactly`).
  `round_to_tick` in `backend/app/core/utils.py:128-133` would have divided.
- A limit of half a paisa or less rounds to nothing (`Runs.LimitVanishesIff`).
- On a quote of under 4.5 paise a round trip at an unchanged price makes a profit
  before brokerage: the sell is lifted to a tick and the buy is not
  (`Costs.RoundTripNeverProfitsIff`).
- Two processes can both report scheduler leadership: one overdue, one inside
  `stop()` between deleting its key and clearing its flag
  (`Lease.OverdueLeaderOverlaps`, `Lease.StoppingLeaderOverlaps`). Heartbeats
  rule the first out while a refresh takes less than a third of the TTL, and at
  exactly a third no longer (`Heartbeats.HeartbeatsKeepOneLeader`,
  `Heartbeats.AThirdIsTooLong`). A grant still pending when `stop()` gives up
  waiting leaves the flag set for good (`Lease.LeadsAfterStopIff`).
- `Retry-After` is rounded down (`RateLimit.RetryAfterSufficesIff`).
- `implied_vol` is documented never to fabricate a volatility the price cannot
  support, and answers 500 % for any premium above the price at 500 % and 0.01 %
  for any below the price at 0.01 % (`ImpliedVol.SupportedIff` and the two lemmas
  before it).
- A client that joins during broadcasts misses none, but a replayed frame can
  reach it after a newer one of the same instrument and stay its last
  (`SocketTasks.NobodyMissesTheNewest`, `SocketTasks.ReplayCanLeaveAnOldFrame`,
  with the exact condition in `SocketTasks.ClientIsUpToDateIff`).
- Legs sharing an id defeat the calendar rule of the draft editor
  (`Builder.ChangeKeepsCalendarIff`).

## Model

| member | source | states |
|---|---|---|
| Ledger.BalanceIsSumOfRows | backend/app/services/ledger_service.py:75-118 | a balance whose rows chain is the sum of their amounts and never negative |
| Ledger.TotalByPurpose | backend/app/services/ledger_service.py:121-232 | every row is an opening, margin, brokerage, P&L or unlock movement, and those five add up to the balance |
| Books.PostTouchesOneAccount | backend/app/services/ledger_service.py:81-118 | a posting appends its own row to one ledger, moves that balance by exactly its amount and touches nothing else |
| Books.PostEntry | backend/app/services/virtual_order_service.py:226-241 | opening costs margin and entry brokerage, and cannot succeed on a margin of nought |
| Books.PostExit | backend/app/services/virtual_order_service.py:513-530 | closing pays margin and net P&L, whether or not either row is needed |
| Books.Conservation | backend/app/services/ledger_service.py:75-118 | balance plus resting reservations plus open margin is opening and unlocked capital plus settled P&L less charges |
| SingleOrders.OrderRoundTrip | backend/app/services/virtual_order_service.py:479-530 | from placing to closing the user gains the gross P&L less both brokerages, and none of the margin |
| SingleOrders.CloseOrderPossibleIff | backend/app/services/virtual_order_service.py:455-457 | in an open market an owner can close an open order exactly when balance, margin and net P&L together are not negative |
| SingleOrders.MarginFollowsPrice | backend/app/services/virtual_order_service.py:152-153 | from 20 units on the rounded margin orders prices as the prices themselves |
| SingleOrders.MarginIsNearest | backend/app/services/virtual_order_service.py:152-153 | the margin is the value of all units, or a fifth of it, to the nearest paisa |
| SingleOrders.PlacingIs | backend/app/services/virtual_order_service.py:120-171 | a first order is placed exactly if quoted, allowed, fit for the columns and paid for, margin with brokerage, and is refused for exactly the reason that applies first |
| SingleOrders.RepeatedIdMakesNoSecondOrder | backend/app/services/virtual_order_service.py:75-88 | a client id used before makes no second order: the first comes back and nothing moves, or with other terms the call conflicts |
| SingleOrders.PlacedOrderIs | backend/app/services/virtual_order_service.py:173-241 | a new order is as asked, at the fill, open, and costs its margin and its brokerage; nobody else is touched |
| SingleOrders.ClosedOrderIs | backend/app/services/virtual_order_service.py:479-530 | closing writes exit, status by reason and P&L as price move times units less brokerage, and pays margin and P&L to the owner alone |
| SingleOrders.PnlFollowsThePrice | backend/app/core/utils.py:82-112 | a position gains exactly when the price moves its way, and the two sides of a trade cancel |
| SingleOrders.PlaceOrderKeeps | backend/app/services/virtual_order_service.py:58-251 | placing keeps every account, hold and audit trail right, replays included |
| SingleOrders.CloseOrderKeeps | backend/app/services/virtual_order_service.py:411-554 | so does closing: margin back once, P&L once, nothing blocked afterwards |
| SingleOrders.ClosingKeepsOrderOk | backend/app/services/virtual_order_service.py:493-530 | an order's ledger rows are debit, charge, and on closing exactly its margin and its P&L if not nil |
| LimitOrders.PlacementReserves | backend/app/services/pending_order_service.py:147-189 | a new limit rests field by field on what the client asked, limit, stop and target to the paisa, and takes exactly its margin from the owner alone |
| LimitOrders.ParkingPossibleIff | backend/app/services/pending_order_service.py:100-152 | a limit under a fresh client id is parked exactly if open, quoted, allowed, positive, fit for the columns, and its margin is positive and covered |
| LimitOrders.RetryConflictsIff | backend/app/services/pending_order_service.py:86-100 | asked again under its client id a limit comes back unchanged if every field agrees, and otherwise the call conflicts |
| LimitOrders.CancelPossibleIff | backend/app/services/pending_order_service.py:209-220 | in reachable states cancelling succeeds exactly for the owner of a resting order |
| LimitOrders.CancelRefunds | backend/app/services/pending_order_service.py:222-231 | it closes that row, refunds that reservation and touches nothing else |
| LimitOrders.ExpiresExactlyTheDue | backend/app/services/pending_order_service.py:450-480 | expiry closes every resting order of the days asked for and no other |
| LimitOrders.FillSwapsTheReservation | backend/app/services/pending_order_service.py:365-399 | a fill links the order the client id already made, or makes one on the resting terms, stop and target included, at the live price, for reservation back less its margin and brokerage |
| LimitOrders.FilledAsAsked | backend/app/services/pending_order_service.py:379-399 | parked and then filled, the live order is what the client asked for, at the market's fill |
| LimitOrders.TriggersOnlyAtTheLimit | backend/app/services/pending_order_service.py:487-495 | a sweep attempts a BUY only on a quote no higher than its limit, a SELL only on one no lower |
| LimitOrders.BuyFillsWithinItsLimitIff | backend/app/services/pending_order_service.py:147-150 | a BUY fills at its limit or better, and for no more margin than reserved, exactly when the fresh quote and its slippage in whole paise do not exceed it |
| LimitOrders.ReservationCoversTheFillIff | backend/app/services/pending_order_service.py:365-392 | a fill costs the balance nothing beyond the reservation exactly when the gap from the limit down to the fill, over all units, pays the brokerage, five times over for an order margined at a fifth |
| LimitOrders.SellFillsWithinItsLimitIff | backend/app/services/pending_order_service.py:487-495 | a SELL fills at its limit or better exactly when the quote less its slippage, or the one tick it stops at, is not below it |
| LimitSweeps.ReachedLimitOutcome | backend/app/services/pending_order_service.py:302-335 | a resting limit its quote has reached is filled exactly if its client id made this order before or a new one can be placed, rejected exactly for the three refusals, and left resting otherwise |
| LimitSweeps.UnreachedChangesNothing | backend/app/services/pending_order_service.py:289-303 | a tick without a quote, short of the limit, or for an order no longer resting changes nothing |
| LimitSweeps.SweepIsItsTicks | backend/app/services/pending_order_service.py:282-341 | a sweep is its ticks one after the other and ends early exactly at a reached limit with the market closed |
| LimitSweeps.OwnerIsToldIff | backend/app/services/pending_order_service.py:311-330 | the owner and nobody else is told of a fill or a rejection exactly when it happens |
| PendingOrders.PlacePendingKeeps | backend/app/services/pending_order_service.py:70-198 | parking a limit reserves exactly what it records as reserved |
| PendingOrders.CancelKeeps | backend/app/services/pending_order_service.py:203-240 | cancelling gives the reservation back once |
| PendingOrders.FillKeeps | backend/app/services/pending_order_service.py:344-405 | a fill swaps the reservation for the order's own margin without losing or doubling either |
| PendingOrders.RejectKeeps | backend/app/services/pending_order_service.py:408-434 | a rejection gives the reservation back once |
| PendingOrders.ExpireKeeps | backend/app/services/pending_order_service.py:439-482 | expiring the book, or the days before one, always succeeds and keeps every trail right |
| PendingOrders.ReleaseSucceeds | backend/app/services/pending_order_service.py:222-231 | in any reachable state a refund can be posted |
| PendingOrders.FailureUndoesOnlyItself | backend/app/services/pending_order_service.py:336-339 | an unexpected failure leaves the sweep where it would have been without that order |
| PendingOrders.MarketCloseKeepsEarlierFills | backend/app/services/pending_order_service.py:315-320 | a close in mid-sweep undoes its own order, stops, and keeps every earlier fill |
| PendingOrders.SweepOutcome | backend/app/services/pending_order_service.py:282-341 | after any sweep each order is untouched, filled, or rejected, and nothing else of it moved |
| PendingOrders.SweepRefundsExactly | backend/app/services/pending_order_service.py:365-377 | whatever left the book in a sweep shows one debit and one equal credit |
| PendingOrders.RefusedRefundsTheReservation | backend/app/services/pending_order_service.py:321-335 | a refusal raises the user's balance by the reservation and touches no order or strategy |
| PendingOrders.SweepKeeps | backend/app/services/pending_order_service.py:245-341 | every sweep keeps the invariants, committed order by order |
| StrategyExecution.AcceptedPlanFillsEveryLeg | backend/app/services/strategy_execution_service.py:102-150 | a plan without problems fills each leg once, in order, at its own quote |
| StrategyExecution.PlanBrokerage | backend/app/services/strategy_execution_service.py:139-146 | the plan's brokerage is the sum over its fills |
| StrategyExecution.AcceptedPlanOpensEveryLeg | backend/app/services/strategy_execution_service.py:213-224 | execution leaves no leg pending and none without an entry price |
| StrategyExecution.EveryLegOpensAtItsOwnFill | backend/app/services/strategy_execution_service.py:214-222 | with distinct leg ids each leg opens at the fill of its own quote, through the fills-by-leg lookup |
| StrategyExecution.ExecutesAtMarginIff | backend/app/services/strategy_execution_service.py:201-247 | a draft that executes at some positive margin executes at another exactly if it is positive and covered; at nought it raises |
| StrategyExecution.ExecuteKeeps | backend/app/services/strategy_execution_service.py:169-251 | executing blocks the margin it records, once, and opens a live strategy |
| StrategyExecution.CloseLegKeeps | backend/app/services/strategy_execution_service.py:285-306 | closing a leg books its P&L on the position, and settles only with the last |
| StrategyExecution.SquareOffKeeps | backend/app/services/strategy_execution_service.py:309-331 | so does closing all of them at once |
| StrategyExecution.AllRealized | backend/app/services/strategy_execution_service.py:321-327 | the loop's running total is exactly what the position's realised P&L gains |
| StrategyCalls.ExecutePossibleIff | backend/app/services/strategy_execution_service.py:177-212 | a draft executes exactly if the market is open, it is the user's, fits, has a quote for every leg, is not forbidden, and its margin is positive and covered |
| StrategyCalls.ExecutionShowsTheOptions | backend/app/services/strategy_execution_service.py:254-281 | executing adds one order for each option leg, in leg order, with that leg's terms, its own fill and its brokerage, and no other |
| StrategyCalls.CloseLegPossibleIff | backend/app/services/strategy_execution_service.py:289-306 | an open leg closes in an open market, the last one only if balance and margin cover the settlement |
| StrategyCalls.ClosedLegIs | backend/app/services/strategy_execution_service.py:334-429 | closing writes the leg's exit and what it made, and with the last leg settles margin, P&L and entry brokerage once |
| StrategySettlement.SettlementIsScheduleIndependent | backend/app/services/strategy_execution_service.py:301-331 | any schedule of single closes and square-offs that ends the strategy ends with the same legs, position and money |
| StrategySettlement.AnyTwoSchedulesAgree | backend/app/services/strategy_execution_service.py:285-331 | two schedules with the same exit fills give the same accounts, ledger rows included |
| StrategySettlement.NoMoneyMovesBeforeTheLastLeg | backend/app/services/strategy_execution_service.py:400-429 | until the last leg no account changes, and realised P&L is the sum over closed legs at every point |
| StrategySettlement.SquareOffClosesIff | backend/app/services/strategy_execution_service.py:400-424 | after any schedule a square-off ends the strategy exactly when balance, margin and net P&L together are not negative |
| StrategySettlement.LifeOfAStrategy | backend/app/services/strategy_execution_service.py:229-248 | from draft to close the account gains the legs' P&L less the brokerage of opening each leg at its quoted fill, and no margin |
| StrategySettlement.ExecutionIs | backend/app/services/strategy_execution_service.py:213-248 | executing records the blocked margin and the sum of the legs' entry brokerages, takes that margin and touches nobody else |
| StrategySettlement.LifeInQuotes | backend/app/services/strategy_execution_service.py:213-429 | with distinct leg ids every leg opens at its own quote's fill and closes at its exit, and the account gains the signed moves times units less both brokerages, whatever the schedule |
| StrategySettlement.MirrorClosedByItselfIsPaidTwice | backend/app/routers/trading.py:395-425 | a mirror closed as an order of its own has its P&L paid on top of the strategy's full settlement |
| StrategySettlement.DoublePaymentIsTheMirrorsPnl | backend/app/routers/trading.py:395-425 | against the same closes without it the user is off by exactly that P&L, so by nothing if and only if it is nil |
| MirrorWitnesses.DoublePaymentIsReachable | backend/app/routers/trading.py:395-425 | two runs from the empty book that differ in that one call end with balances that differ by a loss paid twice |
| StrategyMirrors.ExecutionMirrors | backend/app/services/strategy_execution_service.py:254-281 | with distinct keys the new orders and the option legs correspond one to one |
| StrategyMirrors.LegAndMirrorPnlAgree | backend/app/services/strategy_execution_service.py:365-369 | a leg's P&L by sign equals the P&L of its mirror by the single-order formula |
| StrategyMirrors.LookupFindsTheMirror | backend/app/services/strategy_execution_service.py:384-390 | the lookup for an open option leg finds that leg's own mirror |
| StrategyMirrors.SquareOffKeepsMirrors | backend/app/services/strategy_execution_service.py:321-324 | after a square-off every mirror is closed at its leg's fill and P&L |
| StrategyMirrors.CloseOneKeepsMirrors | backend/app/services/strategy_execution_service.py:380-397 | after one close only that leg's mirror is closed, with its fill and P&L |
| StrategyMirrors.SquareOffClosesEveryMirror | backend/app/services/strategy_execution_service.py:309-331 | with distinct keys no mirror stays open |
| StrategyMirrors.SecondMirrorStaysOpen | backend/app/database.py:35-39 | without autoflush the second open mirror of a shared key survives any square-off |
| OpenMirrors.NoneOpenIff | backend/app/services/strategy_execution_service.py:380-397 | with every open mirror covered by an open leg of its key a square-off leaves none open if and only if no two open mirrors share a key |
| OpenMirrors.OpenMirrorsAreCovered | backend/app/services/strategy_execution_service.py:213-224 | over every run, lone closes and shared keys included, every open mirror of an executed strategy has an open option leg of its key |
| OpenMirrors.SquareOffClosesEveryMirrorIff | backend/app/services/strategy_execution_service.py:309-331 | so in every reachable state the square-off closes all mirrors exactly when the open ones have distinct strike, type and action |
| MirrorWitnesses.CalendarLeavesAMirrorOpen | backend/app/services/strategy_execution_service.py:384-390 | a run from the empty book, one strike sold in two expiries, that ends squared off with a mirror still open |
| MirrorRuns.MirrorsReflectLegs | backend/app/services/strategy_execution_service.py:380-397 | over every run that closes no mirror alone each option leg has exactly one order, open with it or closed with equal P&L |
| MirrorRuns.LoneCloseHappensIff | backend/app/services/virtual_order_service.py:419-437 | closing a mirror takes effect exactly in an open market, by its owner, while it is open and its P&L is affordable |
| MirrorRuns.OnlyLoneClosesBreakMirrors | backend/app/routers/trading.py:406-411 | a call keeps that correspondence if and only if it does not meet that guard for a mirror |
| StrategyDrafts.SaveDraftKeeps | backend/app/services/strategy_service.py:109-153 | a draft commits no capital |
| StrategyRuns.StrategiesNeverGoBack | backend/app/services/strategy_execution_service.py:177-179 | over every run status only advances, closed legs are final and a closed strategy never changes |
| StrategyRuns.StrategyLifecycle | backend/app/services/strategy_execution_service.py:217-248 | in every reachable state the status fixes legs, position and exact ledger rows |
| DisciplineMode.ModeNeverTakesMoney | backend/app/services/discipline_mode_service.py:71-116 | the rules are then as asked; switching off leaves at least Rs 10 lakh between balance and open positions, takes nothing, adds no more than is missing and unlocks the capital, switching on moves nothing |
| DisciplineMode.SetModePossibleIff | backend/app/services/discipline_mode_service.py:71-116 | in reachable states switching always succeeds for an account that exists |
| DisciplineMode.OpenAccountCreditsALakh | backend/app/services/auth_service.py:94-110 | a new account holds Rs 1 lakh, credited by its one row, with the rules on |
| DisciplineMode.ModeOffIsIdempotent | backend/app/services/discipline_mode_service.py:92-108 | switching off twice is switching off once |
| DisciplineMode.SetModeKeeps | backend/app/services/discipline_mode_service.py:46-116 | the top-up is a ledger movement like any other |
| DisciplineMode.OpenAccountKeeps | backend/app/services/auth_service.py:94-107 | an account opened at nought and credited satisfies the invariants from its first row |
| AuditRows.PlacingWrites | backend/app/services/virtual_order_service.py:226-241 | a new order writes a margin debit and a brokerage charge under its own reference, a replay nothing |
| AuditRows.ClosingWrites | backend/app/services/virtual_order_service.py:513-530 | a close writes the margin credit, if there was a position, and the P&L credit or debit, if there is any |
| AuditRows.ParkingWrites | backend/app/services/pending_order_service.py:182-189 | parking writes one margin debit, a replay nothing |
| AuditRows.LeavingWrites | backend/app/services/pending_order_service.py:222-231 | a limit that leaves the book unfilled writes one refund |
| AuditRows.FillingWrites | backend/app/services/pending_order_service.py:365-392 | a fill writes the refund first and then what the order costs, if it is new |
| AuditRows.ExecutingWrites | backend/app/services/strategy_execution_service.py:242-247 | executing a strategy writes one margin debit under the strategy's position |
| AuditRows.SettlingWrites | backend/app/services/strategy_execution_service.py:408-424 | ending one writes the margin credit and then the net P&L, if there is any |
| AuditRows.SwitchingWrites | backend/app/services/discipline_mode_service.py:92-108 | switching the rules off writes the top-up if one is needed, switching on nothing |
| Runs.MoneyIsConserved | backend/app/services/ledger_service.py:75-118 | over every run and for every user: conservation, sum of chained rows, never negative |
| Runs.RunKeeps | backend/app/database.py:64-74 | every run of calls, each committed or rolled back, keeps all invariants |
| Runs.LedgerIsAppendOnly | backend/app/models/virtual_fund_ledger.py:60-97 | no run removes or rewrites a ledger row, so the postings against a reference are only ever added to |
| Runs.TerminalStatesAbsorb | backend/app/services/pending_order_service.py:217-220 | no run changes an order that has left the book |
| Runs.ReservationReleasedExactlyOnce | backend/app/services/pending_order_service.py:498-509 | over every run a reservation is positive exactly while the order rests, and then released in exactly one equal credit |
| Runs.RetriesReserveOnce | backend/app/services/pending_order_service.py:86-100 | any identical retry, after any run, returns the original and moves nothing |
| Runs.CancelUndoesPlace | backend/app/services/pending_order_service.py:203-240 | cancelling what was just placed restores balance and reservations |
| Runs.LimitVanishesIff | backend/app/services/pending_order_service.py:525-534 | a positive limit is stored as nothing exactly up to 0.005 |
| Runs.MarginVanishesIff | backend/app/services/pending_order_service.py:512-522 | a margin rounds to nothing exactly for one or two paise of leveraged value |
| Runs.PlacementNeverPostsNothing | backend/app/services/pending_order_service.py:147-189 | with a limit of a paisa and a lot of 20 a placement never posts a zero amount |
| Desk.Session.Post | backend/app/services/ledger_service.py:52-118 | writes one row and the balance, or raises, as the posting function says |
| Desk.Session.FillOne | backend/app/services/pending_order_service.py:344-405 | release, place, then mark filled; a fill that raises is left for the caller to roll back |
| Desk.Session.ExpirePending | backend/app/services/pending_order_service.py:439-482 | the loop expires every due order in one transaction and counts them |
| Desk.Session.ScanAndFill | backend/app/services/pending_order_service.py:245-341 | commit and rollback per order make exactly the specified sweep, this exact order of commits, rollbacks and notices, and a count of the fill notices |
| Desk.EveryNoticeFollowsACommit | backend/app/services/pending_order_service.py:310-339 | in every sweep each notification directly follows the commit it reports |
| Desk.SkippedOrderIsReportedFilled | backend/app/services/pending_order_service.py:353-355 | an order no longer resting is skipped and still announced as filled |
| Desk.FillNoticeIsTrueIff | backend/app/services/pending_order_service.py:311-314 | a fill notice is true if and only if the order still rested at its tick |
| Desk.PlanExecution | backend/app/services/strategy_execution_service.py:102-150 | the loop builds the specified plan |
| Desk.Session.OpenLegs | backend/app/services/strategy_execution_service.py:217-224 | the loop opens the filled legs and mirrors the option ones in leg order |
| Desk.Session.CloseSingleLeg | backend/app/services/strategy_execution_service.py:334-397 | one leg and the mirror found among the flushed orders |
| Desk.Session.CloseIfAllLegsDone | backend/app/services/strategy_execution_service.py:400-429 | with nothing left open, margin back, P&L settled, position closed |
| Desk.Session.CloseOpenLegs | backend/app/services/strategy_execution_service.py:321-324 | the loop closes every open leg against one unflushed picture of the orders |
| Desk.Session.Serve | backend/app/database.py:50-74 | one request is one step of the run model and keeps its invariants |
| Builder.Strategy.AddLeg | backend/app/strategy/builder.py:142-160 | appends a valid leg, or raises and leaves the draft identical |
| Builder.Strategy.RemoveLeg | backend/app/strategy/builder.py:163-172 | removes the first leg with the id, or raises and leaves the draft identical |
| Builder.Strategy.EditLeg | backend/app/strategy/builder.py:175-224 | commits the validated candidate, or raises and leaves the draft identical |
| Builder.ValidateStrategyIff | backend/app/strategy/builder.py:227-250 | the check passes exactly one to ten legs on a known underlying, each sound and on its strike grid, of one expiry unless calendars are allowed |
| Builder.AddPossibleIff | backend/app/strategy/builder.py:142-160 | a draft takes a leg exactly while it holds fewer than ten, the leg is sound and on the strike grid, and its expiry fits; the leg then stands last |
| Builder.RemoveTakesTheFirst | backend/app/strategy/builder.py:163-172 | removing takes out the first leg with the id, from any draft that is one |
| Builder.EditPossibleIff | backend/app/strategy/builder.py:175-224 | an edit is accepted exactly if what it asks for is sound and fits; the leg becomes that, keeping quote and volatility exactly while they still describe the contract |
| Builder.ReachableDraftsPass | backend/app/strategy/builder.py:142-250 | every non-empty draft reachable by edits with fresh ids passes the full check |
| Builder.PassingDraftsAreReachable | backend/app/strategy/builder.py:90-160 | every strategy that passes can be built leg by leg |
| Builder.SharedIdBreaksTheCalendarRule | backend/app/strategy/builder.py:99-106 | with a shared id an accepted edit leads to a draft the full check refuses |
| Builder.ChangeKeepsCalendarIff | backend/app/strategy/builder.py:212-224 | an accepted edit keeps the calendar rule exactly when calendars are allowed or every other leg with that id has the new expiry |
| Builder.StaleQuotesAreDropped | backend/app/strategy/builder.py:216-219 | a quote survives an edit only with the contract's identity, a volatility only with its type and strike |
| Costs.ChargesOnTheOrder | backend/app/services/brokerage_calculator.py:77-109 | Rs 20, 0.05 % STT on sales only, 0.053 % exchange, Rs 10 a crore SEBI and 18 % GST, each to the nearest paisa on price times all units; together Rs 23.60 and a fixed share of the turnover within 2.09 paise |
| Costs.SplittingCostsMore | backend/app/services/brokerage_calculator.py:77-109 | splitting an order costs at least Rs 23.57 more, or 23.56 selling, despite five roundings |
| Costs.SplitPenaltyIsTight | backend/app/services/brokerage_calculator.py:77-109 | neither bound can be raised |
| Costs.BrokerageFloor | backend/app/services/brokerage_calculator.py:77-109 | no order costs less than Rs 23.60 |
| Costs.SlippageIsTheDraw | backend/app/services/slippage_engine.py:77-86 | slippage is the drawn share of the quote to the nearest paisa, and the fill the quote moved by it against the trader, a sale not below a tick |
| Costs.DrawnFromIff | backend/app/services/slippage_engine.py:68-75 | the draw is from 0.5 % to 1.5 % within five strike intervals of the money and from 2 % to 4 % further out |
| Costs.SlippageFollowsTheBand | backend/app/services/slippage_engine.py:68-77 | so slippage is that share of the quote within half a paisa |
| Costs.RoundTripNeverProfitsIff | backend/app/services/slippage_engine.py:63-86 | for every draw, a round trip at one quote never profits before brokerage if and only if the quote is at least 4.5 paise |
| Costs.BuyAtTheLimitStaysIff | backend/app/services/slippage_engine.py:77-86 | filled at a quote exactly at its limit a buy stays within it if and only if the slippage is under half a paisa |
| Costs.RoundTripLosesBothBrokerages | backend/app/services/slippage_engine.py:77-86 | from 4.5 paise on it loses at least both brokerages, at least Rs 47.20 |
| Costs.WholeQuotesFillExactly | backend/app/services/slippage_engine.py:77-86 | on whole-paise quotes a fill is the quote moved by the points, a sell no lower than a tick, and off the five-paise grid exactly when the points are |
| Tokens.TokenStore.Create | backend/app/services/token_service.py:21-49 | a token expires after 30 days, or 12 hours when not remembered |
| Tokens.TokenStore.RotateToken | backend/app/services/token_service.py:66-133 | claim, idle check, user check and successor, or a refusal with what it committed |
| Tokens.TokenStore.Revoke | backend/app/services/token_service.py:136-139 | logging out revokes the whole family of the token |
| Tokens.RunKeeps | backend/app/services/token_service.py:21-154 | over every run families are uniform, linked, single-headed and keep the expiry of their login |
| TokenFamilies.LoginStartsAFamily | backend/app/services/token_service.py:21-49 | a login starts its own family, good for 30 days if remembered and 12 hours if not |
| TokenFamilies.AcceptedIff | backend/app/services/token_service.py:66-121 | a token rotates exactly if stored, unrevoked, unused, unexpired, its user active, and remembered or at most 30 minutes old |
| TokenFamilies.RotationMakesOneSuccessor | backend/app/services/token_service.py:69-133 | it is then marked used and one successor of the same family and expiry appears; nothing else changes |
| TokenFamilies.IdlenessEndsTheFamilyIff | backend/app/services/token_service.py:108-117 | an unused token ends its living family exactly if ephemeral, unexpired and over 30 minutes old |
| TokenFamilies.RotatesAtMostOnce | backend/app/services/token_service.py:69-79 | after one rotation a raw token is refused for ever |
| TokenFamilies.RevokedFamilyNeverRotates | backend/app/services/token_service.py:58-79 | no token of a family with one revoked member ever rotates again |
| TokenFamilies.ReuseEndsTheFamilyIff | backend/app/services/token_service.py:83-106 | presenting a replaced token ends its family exactly when it was replaced over ten seconds ago, and otherwise changes nothing |
| TokenFamilies.LogoutEndsExactlyTheFamily | backend/app/services/token_service.py:58-63 | revoking with any token of a family ends that family for ever, leaves every other as it was and keeps an earlier revocation |
| TokenFamilies.LogoutEverywhereEndsExactlyTheUser | backend/app/services/token_service.py:142-146 | no token of the user ever rotates again, and nobody else's changes |
| TokenFamilies.NothingExtendsAToken | backend/app/services/token_service.py:122-132 | over every run a stored token keeps owner, family, parent, policy and expiry |
| TokenFamilies.RotationsRespectTheLogin | backend/app/services/token_service.py:108-131 | a rotation inherits the expiry, precedes the cap counted from login, and when ephemeral follows the last one within 30 minutes |
| TokenFamilies.CleanupIsSafe | backend/app/services/token_service.py:149-154 | cleanup deletes a family whole and none with a token rotation would ever accept |
| TokenFamilies.CleanupDeletesExactlyTheOld | backend/app/services/token_service.py:149-154 | a family goes, whole, if and only if it expired or was revoked before the cutoff, and what stays is unchanged |
| TokenFamilies.NoDanglingParents | backend/app/models/refresh_token.py:16-16 | over every run a stored token's parent is stored, in the same family |
| TokenFamilies.FamilyIsOneChain | backend/app/services/token_service.py:125-131 | a family is one unforked chain by parent, all replaced but its end |
| TokenFamilies.AtMostOneUnreplaced | backend/app/services/token_service.py:69-79 | a family has at most one unreplaced token |
| TokenFamilies.LivingFamilyHasOneHead | backend/app/services/token_service.py:66-133 | an unrevoked family has exactly one, its newest |
| Lease.GrantIsExclusive | backend/app/services/scheduler_leadership.py:14-26 | for a whole TTL after a SET or renewal no other process's SET, renewal or release does anything, the owner can extend and end it, and then anyone can take the key |
| Lease.SchedulerLeadership.Refresh | backend/app/services/scheduler_leadership.py:76-130 | undisturbed, leads exactly when the key is free or its own and Redis answers, and then for a full TTL |
| Lease.SchedulerLeadership.Stop | backend/app/services/scheduler_leadership.py:159-179 | releases only its own lease and ends not leading |
| Lease.RefreshLeadsIff | backend/app/services/scheduler_leadership.py:76-130 | the steps of an undisturbed refresh lead for a full TTL exactly if the key was free, run out or the process's own, and otherwise leave it alone |
| Lease.OneCallAtATime | backend/app/services/scheduler_leadership.py:112-130 | a process makes one call at a time, and an error ends it and leadership with it whatever Redis holds |
| Lease.StopReleasesIff | backend/app/services/scheduler_leadership.py:159-179 | the steps of stop() delete the key exactly if Redis is reached while the process believes in its lease and owns it, and clear the flags after |
| Lease.AtMostOneFreshGrant | backend/app/services/scheduler_leadership.py:76-130 | over every interleaving at most one process holds an unreleased grant younger than the TTL |
| Lease.OnlyTheOwnerEndsALease | backend/app/services/scheduler_leadership.py:159-179 | a live lease ends only by running out or by its owner's release |
| Lease.TwoLeadersMeansOverdueOrStopping | backend/app/services/scheduler_leadership.py:132-179 | in orderly runs two leaders at once mean one is overdue or inside stop() |
| Lease.OverdueLeaderOverlaps | backend/app/services/scheduler_leadership.py:132-134 | an overdue leader does overlap with its successor |
| Lease.StoppingLeaderOverlaps | backend/app/services/scheduler_leadership.py:165-179 | so does one that released its key and has not cleared its flag, with nobody overdue |
| Lease.LateRefreshOutlivesStop | backend/app/services/scheduler_leadership.py:159-163 | a refresh recorded after stop() leaves leadership reported with no lease |
| Lease.LeadsAfterStopIff | backend/app/services/scheduler_leadership.py:159-179 | after stop() a process can report leadership again without a new refresh exactly when a grant was still pending |
| Lease.OrderlyStopIsFinal | backend/app/services/scheduler_leadership.py:159-163 | in orderly runs none is, so stop() is final |
| Heartbeats.ScheduledIsTimely | backend/app/services/scheduler_leadership.py:154-157 | in every state of every run on schedule each leader's grant is younger than the TTL, if two refreshes and an interval fit into it |
| Heartbeats.HeartbeatsKeepOneLeader | backend/app/services/scheduler_leadership.py:76-157 | so on orderly, scheduled runs two processes never lead at once unless one is inside stop() |
| Heartbeats.AThirdIsTooLong | backend/app/services/scheduler_leadership.py:154-157 | at equality, refreshes of exactly a third of the TTL, two processes that keep the schedule do both lead |
| RateLimit.LimitsByPath | backend/app/core/rate_limit.py:9-46 | 5 logins, 3 registrations and 20 refreshes a minute, 10 OAuth starts or callbacks and 5 link confirmations, and no other path |
| RateLimit.AuthRateLimit.FindLimit | backend/app/core/rate_limit.py:39-46 | exact paths first, then the first matching prefix and suffix |
| RateLimit.AuthRateLimit.Dispatch | backend/app/core/rate_limit.py:54-70 | expires, then refuses or records, for this caller and path only |
| RateLimit.NeverMoreThanTheLimit | backend/app/core/rate_limit.py:62-69 | for every history no half-open window holds more than the limit of accepted requests |
| RateLimit.RefusedIff | backend/app/core/rate_limit.py:64-69 | a request is refused exactly when the limit was accepted in the preceding window |
| RateLimit.RetryAfterSufficesIff | backend/app/core/rate_limit.py:67-68 | waiting Retry-After suffices exactly when the remaining time was whole or at most a second |
| RateLimit.KeysAreDistinct | backend/app/core/rate_limit.py:59-60 | a key stands for one address and one path |
| RateLimit.EachCallerHasItsOwnWindow | backend/app/core/rate_limit.py:54-70 | over every history a pair's window is that of its own requests |
| Sockets.ConnectionManager.Connect | backend/app/market/websocket_manager.py:60-76 | registers the socket in all three indices and replays the cache kind by kind |
| Sockets.ConnectionManager.Disconnect | backend/app/market/websocket_manager.py:78-90 | removes it from all three, and the user with the last one |
| Sockets.ConnectionManager.Broadcast | backend/app/market/websocket_manager.py:92-114 | caches a replayed kind, reaches every reachable socket and forgets exactly the others |
| Sockets.ConnectionManager.SendToUser | backend/app/market/websocket_manager.py:116-128 | reaches the user's reachable sockets and nobody else's |
| Sockets.ConnectAgreesIff | backend/app/market/websocket_manager.py:63-65 | keeps the indices in agreement exactly when the socket is not another user's |
| Sockets.DisconnectAgreesIff | backend/app/market/websocket_manager.py:80-89 | keeps them in agreement exactly when the named user, if any, owns it or nobody does |
| Sockets.DisconnectIsIdempotent | backend/app/market/websocket_manager.py:79-79 | disconnecting twice is disconnecting once |
| Sockets.NewClientSeesTheLatest | backend/app/market/websocket_manager.py:68-99 | after any broadcasts a new client is sent the latest frame of each replayed kind and instrument, exactly once each, and nothing else |
| SocketTasks.IndicesAlwaysAgree | backend/app/market/websocket_manager.py:60-128 | at every await of every interleaving of replays, broadcasts, user events and disconnects the indices agree and a user's set is exactly the user's open sockets |
| SocketTasks.EachIsTriedOnceAndTheFailedForgotten | backend/app/market/websocket_manager.py:103-114 | however interrupted, a broadcast or user event sends to each socket of its copy once and then removes exactly those whose send failed, leaving all others as they then are |
| SocketTasks.NobodyMissesTheNewest | backend/app/market/websocket_manager.py:68-108 | once no send is outstanding every open socket has been sent the newest frame of each replayed kind and instrument since its broadcast |
| SocketTasks.ClientIsUpToDateIff | backend/app/market/websocket_manager.py:68-76 | then a client's last frame of a kind and instrument is the newest exactly when it was still the newest as it was sent |
| SocketTasks.ReplayIsFreshIff | backend/app/market/websocket_manager.py:69-74 | a replayed frame is the newest exactly while the cache still holds it, as it always does when its kind has just been listed |
| SocketTasks.ReplayCanLeaveAnOldFrame | backend/app/market/websocket_manager.py:69-74 | a run from the empty server, all sends successful, that leaves a client with a frame older than the newest |
| MaxPain.FindMaxPain | backend/app/options/math.py:70-87 | the first of the listed strikes with the least pain, which is the first whose open interest balances |
| MaxPain.PainIsAffine | backend/app/options/math.py:83-84 | between neighbouring strikes pain is a straight line |
| MaxPain.BestOfAllPrices | backend/app/options/math.py:70-87 | with non-negative open interest and all strikes listed, no real price at all hurts writers less |
| MaxPain.FirstBalancedStrikeIff | backend/app/options/math.py:70-87 | with non-negative open interest and all strikes listed, the strike found is the first with no more calls struck below than puts at or above, and no more puts above than calls at or below |
| ImpliedVol.FindImpliedVol | backend/app/options/math.py:178-203 | a hundred bisections of [0.0001, 5], or None for degenerate and sub-intrinsic input |
| ImpliedVol.NothingToImplyIff | backend/app/options/math.py:178-186 | None exactly for input that is not positive or a premium over a paisa below the discounted intrinsic value |
| ImpliedVol.HundredthIsNearest | backend/app/options/math.py:196-203 | the answer is the volatility to the nearest hundredth of a per cent |
| ImpliedVol.BracketShrinks | backend/app/options/math.py:193-203 | the bracket stays inside the first and halves with every pass |
| ImpliedVol.SolutionsStay | backend/app/options/math.py:199-202 | an exact solution is never cut off |
| ImpliedVol.VolatilityRepricesOrIsClose | backend/app/options/math.py:193-203 | the unrounded result reprices within 0.01 or is within half of 2^-100 of the bracket of every solution |
| ImpliedVol.OverpricedIsAnsweredAtTheCap | backend/app/options/math.py:180-203 | a premium above the price at 500 % is always answered 500.00, though no volatility reprices it |
| ImpliedVol.UnderpricedIsAnsweredAtTheFloor | backend/app/options/math.py:188-203 | a premium a paisa below the price at 0.01 % is always answered 0.01, though no volatility reprices it |
| ImpliedVol.SupportedIff | backend/app/options/math.py:180-203 | for a price that attains its values some volatility of the bracket reprices exactly when the premium is above the lowest price less 0.01 and below the highest plus 0.01 |
| ImpliedVol.PricesInRangeAreRepriced | backend/app/options/math.py:193-203 | a premium between those prices is repriced by the answer, unless the price is absurdly steep between 0.0001 and 5 |
| ImpliedVol.AnswerRepricesIff | backend/app/options/math.py:193-203 | for such a price the answer reprices exactly the premiums less than 0.01 past the prices at the outermost volatilities it can settle on, half the final bracket inside either end |
| ImpliedVol.BothEndsAreReached | backend/app/options/math.py:185-203 | quotes that pass every guard are answered at either end without being repriced |
| Expiry.OrdinalsAreGregorian | backend/app/core/expiry_calendar.py:38-47 | months begin on the ordinals of the Gregorian calendar, leap years by four, hundred and four hundred |
| Expiry.WeekdaysFollow | backend/app/core/expiry_calendar.py:33-42 | ordinal 1 is a Monday and the days of the week follow each other |
| Expiry.LastWeekdayIff | backend/app/core/expiry_calendar.py:38-42 | the computed date is the only one of its month on that weekday with the same day a week later in another month |
| Expiry.AddMonthIsNext | backend/app/core/expiry_calendar.py:45-47 | the year and month arithmetic goes to the next month, over December too |
| Expiry.WeeklyIsFirst | backend/app/core/expiry_calendar.py:50-61 | the weekly list is the first `count` dates on the weekday from the start, none missed |
| Expiry.MonthlyExpiries | backend/app/core/expiry_calendar.py:64-79 | the month loop terminates with an unbroken run of months |
| Expiry.RunIsFirst | backend/app/core/expiry_calendar.py:64-79 | that run is the first `count` monthly expiries from the start, none missed |
| Expiry.MergeIsFirst | backend/app/core/expiry_calendar.py:93-95 | taking `count` of each kind is enough for the first `count` of both |
| Expiry.ExpiriesOfTheThree | backend/app/core/instruments.py:123-157 | every Tuesday for NIFTY, a month's last Tuesday for BANKNIFTY, every Thursday for SENSEX, and no fourth underlying |
| Expiry.NextExpiries | backend/app/core/expiry_calendar.py:82-95 | exactly the first `count` of the infinite merged calendar, strictly increasing, none missed or doubled |
| Expiry.SameWeekdayMeansWeekly | backend/app/core/expiry_calendar.py:87-88 | with one weekday for both the merged calendar is the weekly one |
| Expiry.NearestExpiry | backend/app/core/expiry_calendar.py:98-103 | an expiry with none between it and the start |
| Expiry.IsExpiryDay | backend/app/core/expiry_calendar.py:111-114 | true exactly on a weekly or monthly expiry |
| Analytics.Drawdown | backend/app/services/analytics_service.py:134-144 | depth under the running peak at every point, and the deepest |
| Analytics.DrawdownIsQuadratic | backend/app/services/analytics_service.py:134-144 | the running peak gives the greatest fall over all pairs of points, the start at nought included |
| Analytics.Summarise | backend/app/services/analytics_service.py:167-208 | counts partition the trades, net is profit less loss, and drawdown is at most the gross loss |
| Analytics.DayOfIsIndias | backend/app/services/analytics_service.py:47-60 | a day runs from 18:30 UTC of the day before |
| Analytics.DailySeries | backend/app/services/analytics_service.py:211-249 | one row for every day with a trade, a score or a violation, with its P&L, running total and depth |
| Analytics.DailyDrawdownIsNoWorse | backend/app/services/analytics_service.py:227-248 | the worst daily drawdown never exceeds the worst per trade |
| Analytics.DailyEndsAtNet | backend/app/services/analytics_service.py:230-234 | the last running total is the summary's net |
| Analytics.GroupPerformance | backend/app/services/analytics_service.py:147-164 | one row a label, with its own trades, wins, P&L and rounded average, together all trades and the net; better P&L first, then more trades, then the label met first |
| Analytics.GroupsSumToWhole | backend/app/services/analytics_service.py:147-164 | however units are grouped and rows ordered, whatever is added up the groups make the whole |

## Left out

- Row locks, deadlocks and snapshot isolation: the services do not lock uniformly, so each call is one atomic step.
- SQLAlchemy, Redis and HTTP plumbing, routers, schemas, OAuth and JWT cryptography and broker SDKs.
- Discipline rules, session counters, cooldowns and scores: their verdict is a parameter; they move no money.
- `estimate_margin` and the payoff engine: the margin estimate is a parameter of execution; the intrinsic value used without a quote reaches a close as its exit fill.
- End-of-day and auto-exit loops: they swallow exceptions inside a batch, so committing or rolling back per call does not describe them.
- The order in which a sweep visits instruments: the theorems hold for every order of ticks.
- Prices finer than a paisa: a futures fill, a stop or a target reaches the model in whole paise, and the Decimal context's 28 digits are not a limit.
- Mark-to-market of open positions, audit rows, journal entries, logging, e-mail and notification text.
- Deleting a draft, and the strike a pending order is stored at when a caller bypasses the integer-only API schema.
- The identities behind rows: users, accounts, orders and strategies are numbered by table position, a strategy position by its strategy, and a token by its order of creation, which stands for its hash.
- Lease.AtMostOneFreshGrant: one clock for all processes and Redis, and no local fallback, which gives exclusion up by design.
- One instant serves a whole token operation, where the code reads the clock up to three times.
- The mirror lookup takes the first match without an ORDER BY; the model takes the first by table position.
- Sockets.ConnectionManager.Broadcast: the method sends undisturbed; an interrupted broadcast is a task of SocketTasks, on values.
- Sockets.ConnectionManager.Connect: likewise, with one picture of the cache for the whole replay.
- SocketTasks.EachIsTriedOnceAndTheFailedForgotten: a set of failed sockets is gone through in the order they failed; which order makes no difference to what is left.
- ImpliedVol.FindImpliedVol: the Black-76 formula is any price function that never falls, over reals; greeks, ATM volatility and percentiles are single expressions.
- Gamma exposure and the gamma flip, open-interest walls, put-call ratios and labels: one pass over the rows each.
- Expiry.NextExpiries: trading holidays, which the code leaves out too, and years after 9999.
- Analytics.GroupPerformance: the win rate, a binary floating-point quotient of two of the figures stated.
