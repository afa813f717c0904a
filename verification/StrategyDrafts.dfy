/** strategy_service.py: drafts are rows without money behind them. */
module StrategyDrafts {
  import opened Wrappers
  import opened Domain
  import opened Ledger
  import opened Books
  import opened StrategyExecution

  predicate AllPending(legs: seq<LegRow>) {
    forall l :: l in legs ==> l.status == PENDING
  }

  /** A new draft commits no capital. */
  function SaveDraft(b: Book, s: Strategy): Outcome<Book> {
    if s.user >= |b.accounts| then Raise(NoAccount)
    else if !s.status.Draft? || s.position.Some? || !AllPending(s.legs) then Raise(ConstraintViolated)
    else Ok(b.(strategies := b.strategies + [s]))
  }

  /** The legs of a draft after any accepted edit of it. */
  function EditDraft(b: Book, user: nat, i: nat, legs: seq<LegRow>): Outcome<Book> {
    if i >= |b.strategies| || b.strategies[i].user != user then Raise(NotFound)
    else if !b.strategies[i].status.Draft? then Raise(NotADraft)
    else if !AllPending(legs) then Raise(ConstraintViolated)
    else Ok(b.(strategies := b.strategies[i := b.strategies[i].(legs := legs)]))
  }

  lemma SavedTouches(b: Book, s: Strategy, after: Book, r: Reference)
    requires OwnersExist(b) && ClientIdsUnique(b) && s.user < |b.accounts|
    requires after == b.(strategies := b.strategies + [s]) && r == STRATEGY_POSITION(|b.strategies|)
    ensures Touches(b, after, s.user, r)
  {
  }

  lemma SavedHolds(b: Book, s: Strategy, after: Book)
    requires s.position.None? && after == b.(strategies := b.strategies + [s])
    ensures HoldsShift(b, after, s.user, 0)
  {
    forall v: nat | v < |b.accounts| {
      SumByAppend(b.strategies, s, StrategyHold(v));
    }
  }

  lemma SaveDraftKeeps(b: Book, s: Strategy, after: Book)
    requires Inv(b) && SaveDraft(b, s) == Ok(after)
    ensures Inv(after)
  {
    var r := STRATEGY_POSITION(|b.strategies|);
    assert TrailOk(b, s.user, r);
    PostedNothing(b.accounts, s.user, r);
    SavedTouches(b, s, after, r);
    SavedHolds(b, s, after);
    Kept(b, after, s.user, r, [], 0);
  }

  lemma EditDraftKeeps(b: Book, user: nat, i: nat, legs: seq<LegRow>, after: Book)
    requires Inv(b) && EditDraft(b, user, i, legs) == Ok(after)
    ensures Inv(after)
  {
    var r := STRATEGY_POSITION(i);
    assert TrailOk(b, user, r);
    PauseKeeps(b, i, b.strategies[i].(legs := legs), b.orders, r, Amounts(b.accounts[user].rows, r), after);
  }
}
