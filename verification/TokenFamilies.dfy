/** What refresh-token rotation guarantees over whole runs, with the events in
    any order and at any times. */
module TokenFamilies {
  import opened Wrappers
  import opened Tokens

  // --- What logging in and rotating do -----------------------------------------

  /** A login starts a family of its own, good for 30 days from then if it is to
      be remembered and for 12 hours if not. */
  lemma LoginStartsAFamily(st: Store, user: nat, policy: Policy, now: int)
    ensures var after, i := Login(st, user, policy, now), st.next;
            && after.next == i + 1 && after.tokens.Keys == st.tokens.Keys + {i}
            && (forall k :: k in st.tokens && k != i ==> after.tokens[k] == st.tokens[k])
            && var t := after.tokens[i];
               && t.user == user && t.family == i && t.parent.None? && t.policy == policy
               && t.createdAt == now && t.lastUsedAt == now && t.replacedAt.None?
               && !t.isRevoked && t.revokedAt.None? && t.reason.None?
               && t.expiresAt == now + if policy == Ephemeral then 43200000000 else 2592000000000
  {
  }

  /** A token is accepted exactly while it is stored, neither revoked nor used
      before, not expired, its user active, and, unless the session is a
      remembered one, made in the last 30 minutes. */
  lemma AcceptedIff(st: Store, raw: nat, active: bool, now: int)
    ensures Rotate(st, raw, active, now).1.Rotated?
            <==> && raw in st.tokens && active
                 && var t := st.tokens[raw];
                    && !t.isRevoked && t.replacedAt.None? && now < t.expiresAt
                    && (t.policy == Persistent || now - t.createdAt <= 1800000000)
  {
  }

  /** It is then marked used, and one successor of the same session appears. */
  lemma RotationMakesOneSuccessor(st: Store, raw: nat, active: bool, now: int, after: Store, heir: nat)
    requires Inv(st) && Rotate(st, raw, active, now) == (after, Rotated(heir))
    ensures raw in st.tokens && heir !in st.tokens && after.tokens.Keys == st.tokens.Keys + {heir} && after.next == heir + 1
    ensures after.tokens[raw] == st.tokens[raw].(replacedAt := Some(now), lastUsedAt := now)
    ensures forall i :: i in st.tokens && i != raw ==> after.tokens[i] == st.tokens[i]
    ensures var t, u := st.tokens[raw], after.tokens[heir];
            && u.user == t.user && u.family == t.family && u.parent == Some(raw) && u.policy == t.policy
            && u.expiresAt == t.expiresAt && u.createdAt == now && u.lastUsedAt == now
            && u.replacedAt.None? && !u.isRevoked && u.revokedAt.None? && u.reason.None?
  {
  }

  /** Exactly the living tokens of the family are revoked, now, for this reason. */
  ghost predicate FamilyEnded(st: Store, after: Store, family: nat, now: int, reason: Reason) {
    && after.next == st.next && after.tokens.Keys == st.tokens.Keys
    && forall i :: i in st.tokens ==>
         after.tokens[i] == if st.tokens[i].family == family && !st.tokens[i].isRevoked
                            then st.tokens[i].(isRevoked := true, revokedAt := Some(now), reason := Some(reason))
                            else st.tokens[i]
  }

  /** An unused token of a living family ends the family exactly when it is an
      ephemeral one, not expired and idle for over 30 minutes, whether or not its
      user is active; refused otherwise it changes nothing. */
  lemma IdlenessEndsTheFamilyIff(st: Store, raw: nat, active: bool, now: int)
    requires Inv(st) && raw in st.tokens && !st.tokens[raw].isRevoked && st.tokens[raw].replacedAt.None?
    ensures var t, (after, r) := st.tokens[raw], Rotate(st, raw, active, now);
            var idle := t.policy == Ephemeral && now < t.expiresAt && now - t.createdAt > 1800000000;
            && (Dead(after, t.family) <==> idle)
            && (idle ==> r == Refused && raw in after.tokens && after.tokens[raw].replacedAt == Some(now)
                         && FamilyEnded(Claimed(st, raw, now), after, t.family, now, IdleTimeout))
            && (r == Refused && !idle ==> after == st)
  {
    assert TokenOk(st, raw);
    var after := Rotate(st, raw, active, now).0;
    assert raw in after.tokens && after.tokens[raw].family == st.tokens[raw].family;
  }

  // --- A token rotates at most once -------------------------------------------

  /** Rotation will never again accept `raw`. */
  ghost predicate Spent(st: Store, raw: nat) {
    raw < st.next && (raw in st.tokens ==> st.tokens[raw].isRevoked || st.tokens[raw].replacedAt.Some?)
  }

  lemma StepKeepsSpent(st: Store, e: Event, raw: nat)
    requires Spent(st, raw)
    ensures Spent(Step(st, e), raw)
  {
  }

  lemma {:induction false} RunKeepsSpent(st: Store, events: seq<Event>, raw: nat)
    requires Spent(st, raw)
    ensures Spent(Run(st, events), raw)
  {
    if events != [] {
      RunKeepsSpent(st, events[..|events| - 1], raw);
      StepKeepsSpent(Run(st, events[..|events| - 1]), events[|events| - 1], raw);
    }
  }

  /** Once rotated, a raw token is refused for ever: nothing un-replaces it and
      its number is never given out again, even after cleanup deleted it. */
  lemma RotatesAtMostOnce(st: Store, raw: nat, active: bool, now: int, later: seq<Event>, again: bool, againAt: int)
    requires Inv(st) && Rotate(st, raw, active, now).1.Rotated?
    ensures Rotate(Run(Rotate(st, raw, active, now).0, later), raw, again, againAt).1 == Refused
  {
    RunKeepsSpent(Rotate(st, raw, active, now).0, later, raw);
  }

  // --- A revoked family is finished -------------------------------------------

  ghost predicate Dead(st: Store, family: nat) {
    family < st.next && forall i :: i in st.tokens && st.tokens[i].family == family ==> st.tokens[i].isRevoked
  }

  lemma OneRevokedAllRevoked(st: Store, raw: nat)
    requires Inv(st) && raw in st.tokens && st.tokens[raw].isRevoked
    ensures Dead(st, st.tokens[raw].family)
  {
    assert TokenOk(st, raw);
    forall i | i in st.tokens && st.tokens[i].family == st.tokens[raw].family
      ensures st.tokens[i].isRevoked
    {
      assert PairOk(st, raw, i);
    }
  }

  lemma StepKeepsDead(st: Store, e: Event, family: nat)
    requires Dead(st, family)
    ensures Dead(Step(st, e), family)
  {
  }

  lemma {:induction false} RunKeepsDead(st: Store, events: seq<Event>, family: nat)
    requires Dead(st, family)
    ensures Dead(Run(st, events), family)
  {
    if events != [] {
      RunKeepsDead(st, events[..|events| - 1], family);
      StepKeepsDead(Run(st, events[..|events| - 1]), events[|events| - 1], family);
    }
  }

  /** No token of a family with one revoked member ever rotates again, whichever
      token it is and whatever happens in between. */
  lemma RevokedFamilyNeverRotates(st: Store, revoked: nat, later: seq<Event>, raw: nat, active: bool, now: int)
    requires Inv(st) && revoked in st.tokens && st.tokens[revoked].isRevoked
    requires raw in Run(st, later).tokens && Run(st, later).tokens[raw].family == st.tokens[revoked].family
    ensures Rotate(Run(st, later), raw, active, now).1 == Refused
  {
    OneRevokedAllRevoked(st, revoked);
    RunKeepsDead(st, later, st.tokens[revoked].family);
  }

  /** Presenting a replaced token of a living family ends the family exactly
      when it was replaced more than ten seconds ago; until then nothing moves. */
  lemma ReuseEndsTheFamilyIff(st: Store, raw: nat, active: bool, now: int)
    requires Inv(st) && raw in st.tokens && !st.tokens[raw].isRevoked && st.tokens[raw].replacedAt.Some?
    ensures var (after, r) := Rotate(st, raw, active, now);
            && r == Refused
            && (Dead(after, st.tokens[raw].family) <==> now - st.tokens[raw].replacedAt.value > 10000000)
            && (Dead(after, st.tokens[raw].family) ==> FamilyEnded(st, after, st.tokens[raw].family, now, ReuseDetected))
            && (!Dead(after, st.tokens[raw].family) ==> after == st)
  {
    assert TokenOk(st, raw);
  }

  /** Logging out with any token of a family, usable or long replaced, ends that
      family for ever and leaves every other exactly as it was; what had been
      revoked before keeps its time and reason. */
  lemma LogoutEndsExactlyTheFamily(st: Store, raw: nat, now: int, later: seq<Event>, token: nat, active: bool, again: int)
    requires Inv(st) && raw in st.tokens
    ensures var after, family := LogOut(st, raw, now), st.tokens[raw].family;
            && FamilyEnded(st, after, family, now, Logout)
            && (st.tokens[raw].isRevoked ==> after == st)
            && (token in Run(after, later).tokens && Run(after, later).tokens[token].family == family
                ==> Rotate(Run(after, later), token, active, again).1 == Refused)
  {
    var after, family := LogOut(st, raw, now), st.tokens[raw].family;
    assert TokenOk(st, raw);
    assert Dead(after, family);
    RunKeepsDead(after, later, family);
    if st.tokens[raw].isRevoked {
      OneRevokedAllRevoked(st, raw);
      assert after.tokens == st.tokens;
    }
  }

  /** Logging out everywhere ends exactly the user's families: none of theirs
      rotates again, and nobody else's token changes. */
  lemma LogoutEverywhereEndsExactlyTheUser(st: Store, user: nat, now: int, later: seq<Event>, raw: nat, token: nat, active: bool, again: int)
    requires Inv(st) && raw in st.tokens && st.tokens[raw].user == user
    ensures var after := RevokeWhere(st, OfUser(user), now, LogoutAll);
            && after.next == st.next && after.tokens.Keys == st.tokens.Keys
            && (forall i :: i in st.tokens ==>
                  after.tokens[i] == if st.tokens[i].user == user && !st.tokens[i].isRevoked
                                     then st.tokens[i].(isRevoked := true, revokedAt := Some(now), reason := Some(LogoutAll))
                                     else st.tokens[i])
            && (token in Run(after, later).tokens && Run(after, later).tokens[token].family == st.tokens[raw].family
                ==> Rotate(Run(after, later), token, active, again).1 == Refused)
  {
    var after, family := RevokeWhere(st, OfUser(user), now, LogoutAll), st.tokens[raw].family;
    assert TokenOk(st, raw);
    forall i | i in after.tokens && after.tokens[i].family == family
      ensures after.tokens[i].isRevoked
    {
      assert PairOk(st, raw, i);
    }
    assert Dead(after, family);
    RunKeepsDead(after, later, family);
  }

  // --- Sessions end when login said they would ----------------------------------

  /** Fixed at creation for as long as the token is stored. */
  ghost predicate SameBirth(t: Token, u: Token) {
    && t.user == u.user && t.family == u.family && t.parent == u.parent && t.policy == u.policy
    && t.expiresAt == u.expiresAt && t.createdAt == u.createdAt
  }

  lemma StepKeepsBirths(st: Store, e: Event, i: nat)
    requires i in st.tokens && i in Step(st, e).tokens && i < st.next
    ensures SameBirth(st.tokens[i], Step(st, e).tokens[i])
  {
  }

  lemma StepNeverReturns(st: Store, e: Event, i: nat)
    requires i < st.next && i !in st.tokens
    ensures i < Step(st, e).next && i !in Step(st, e).tokens
  {
  }

  lemma StepNumbersUp(st: Store, e: Event)
    ensures st.next <= Step(st, e).next
  {
  }

  /** A token still stored after a run was stored all along and has kept its
      owner, family, parent, policy and expiry. */
  lemma {:induction false} NothingExtendsAToken(st: Store, events: seq<Event>, i: nat)
    requires i in st.tokens && i < st.next
    ensures i in Run(st, events).tokens ==> SameBirth(st.tokens[i], Run(st, events).tokens[i])
    ensures i < Run(st, events).next
  {
    if events != [] {
      var mid, last := Run(st, events[..|events| - 1]), events[|events| - 1];
      NothingExtendsAToken(st, events[..|events| - 1], i);
      StepNumbersUp(mid, last);
      if i in mid.tokens {
        if i in Step(mid, last).tokens {
          StepKeepsBirths(mid, last, i);
        }
      } else {
        StepNeverReturns(mid, last, i);
      }
    }
  }

  /** A rotation hands on the expiry unchanged, and happens before the cap
      counted from login: 12 hours, or 30 days for a remembered session; and an
      ephemeral one within 30 minutes of the previous rotation. */
  lemma RotationsRespectTheLogin(st: Store, raw: nat, active: bool, now: int, heir: nat)
    requires Inv(st) && Rotate(st, raw, active, now).1 == Rotated(heir)
    ensures var after := Rotate(st, raw, active, now).0;
            && raw in st.tokens && raw in after.tokens && heir in after.tokens
            && var t := st.tokens[raw];
               && t.family in st.tokens
               && after.tokens[heir].expiresAt == t.expiresAt
               && now < t.expiresAt
               && t.expiresAt == st.tokens[t.family].createdAt + (if t.policy == Ephemeral then 43200000000 else 2592000000000)
               && (t.policy == Ephemeral && t.parent.Some? ==>
                     && t.parent.value in st.tokens
                     && st.tokens[t.parent.value].replacedAt.Some?
                     && now - st.tokens[t.parent.value].replacedAt.value <= 1800000000)
  {
    assert TokenOk(st, raw);
  }

  // --- Cleanup ------------------------------------------------------------------

  /** Retention cleanup takes a family whole, and only one that rotation will
      never accept a token of again. */
  lemma CleanupIsSafe(st: Store, retentionDays: nat, now: int, gone: nat, kin: nat, later: int)
    requires Inv(st) && gone in st.tokens && gone !in Cleanup(st, retentionDays, now).tokens
    requires SameFamily(st, gone, kin) && now <= later
    ensures kin !in Cleanup(st, retentionDays, now).tokens
    ensures !Usable(st.tokens[kin], later)
  {
    CleanupTakesWholeFamilies(st, retentionDays, now, gone, kin);
    assert TokenOk(st, gone) && TokenOk(st, kin) && PairOk(st, gone, kin);
    assert 0 <= retentionDays * DAY;
  }

  /** It keeps every other family exactly as it was, and deletes one if and only
      if it expired, or was revoked, before the cutoff. */
  lemma CleanupDeletesExactlyTheOld(st: Store, retentionDays: nat, now: int, i: nat)
    requires Inv(st) && i in st.tokens
    ensures var after, t, cutoff := Cleanup(st, retentionDays, now), st.tokens[i], now - retentionDays * 86400000000;
            && (i in after.tokens ==> after.tokens[i] == t)
            && (forall kin :: SameFamily(st, i, kin) ==>
                  (kin !in after.tokens <==> t.expiresAt < cutoff || (t.isRevoked && t.revokedAt.Some? && t.revokedAt.value < cutoff)))
  {
    assert TokenOk(st, i);
    forall kin | SameFamily(st, i, kin)
      ensures kin in Cleanup(st, retentionDays, now).tokens <==> i in Cleanup(st, retentionDays, now).tokens
    {
      CleanupTakesWholeFamilies(st, retentionDays, now, i, kin);
    }
  }

  /** So over every run no stored token points at a deleted parent. */
  lemma NoDanglingParents(events: seq<Event>, i: nat)
    ensures var st := Run(EMPTY_STORE, events);
            i in st.tokens && st.tokens[i].parent.Some? ==> SameFamily(st, st.tokens[i].parent.value, i)
  {
    RunKeeps(EMPTY_STORE, events);
    assert TokenOk(Run(EMPTY_STORE, events), i);
  }

  // --- A family is one chain ------------------------------------------------------

  /** From the family's first token down to `i`, parent by parent. */
  ghost function ChainTo(st: Store, i: nat): (chain: seq<nat>)
    requires Inv(st) && i in st.tokens
    ensures chain != [] && chain[|chain| - 1] == i
    decreases i
  {
    assert TokenOk(st, i);
    match st.tokens[i].parent
    case None => [i]
    case Some(p) =>
      assert Precedes(st, p, i);
      ChainTo(st, p) + [i]
  }

  lemma {:induction false} ChainIsAncestry(st: Store, i: nat)
    requires Inv(st) && i in st.tokens
    ensures ChainTo(st, i)[0] == st.tokens[i].family
    ensures forall n :: 0 <= n < |ChainTo(st, i)| ==> ChainTo(st, i)[n] in st.tokens
    ensures forall n :: 0 < n < |ChainTo(st, i)| ==> st.tokens[ChainTo(st, i)[n]].parent == Some(ChainTo(st, i)[n - 1])
    decreases i
  {
    assert TokenOk(st, i);
    if st.tokens[i].parent.Some? {
      assert Precedes(st, st.tokens[i].parent.value, i);
      ChainIsAncestry(st, st.tokens[i].parent.value);
    }
  }

  lemma {:induction false} ChainHoldsTheFamily(st: Store, i: nat, k: nat)
    requires Inv(st) && i in st.tokens
    ensures k in ChainTo(st, i) <==> SameFamily(st, k, i) && k <= i
    decreases i
  {
    assert TokenOk(st, i) && TokenOk(st, k);
    if st.tokens[i].parent.Some? {
      var p := st.tokens[i].parent.value;
      assert Precedes(st, p, i);
      ChainHoldsTheFamily(st, p, k);
      assert k in ChainTo(st, i) <==> k in ChainTo(st, p) || k == i;
    }
  }

  /** The family of `newest` is one chain from its first token to `newest`: no
      fork, nothing missing, and everything but the end of it replaced. */
  lemma FamilyIsOneChain(st: Store, newest: nat)
    requires Inv(st) && newest in st.tokens && forall k: nat :: SameFamily(st, k, newest) ==> k <= newest
    ensures var chain := ChainTo(st, newest);
            && (forall k: nat :: k in chain <==> SameFamily(st, k, newest))
            && (forall n :: 0 <= n < |chain| ==> chain[n] in st.tokens)
            && (forall n :: 0 < n < |chain| ==> st.tokens[chain[n]].parent == Some(chain[n - 1]))
            && (forall n :: 0 <= n < |chain| - 1 ==> st.tokens[chain[n]].replacedAt.Some?)
  {
    var chain := ChainTo(st, newest);
    ChainIsAncestry(st, newest);
    forall k: nat
      ensures k in chain <==> SameFamily(st, k, newest)
    {
      ChainHoldsTheFamily(st, newest, k);
    }
    forall n | 0 <= n < |chain| - 1
      ensures st.tokens[chain[n]].replacedAt.Some?
    {
      assert st.tokens[chain[n + 1]].parent == Some(chain[n]) && TokenOk(st, chain[n + 1]);
    }
  }

  /** At most one token of a family is unreplaced. */
  lemma AtMostOneUnreplaced(st: Store, i: nat, j: nat)
    requires Inv(st) && SameFamily(st, i, j) && st.tokens[i].replacedAt.None? && st.tokens[j].replacedAt.None?
    ensures i == j
  {
    assert PairOk(st, i, j) && PairOk(st, j, i);
  }

  /** And in a living family exactly one is, its newest. */
  lemma {:induction false} LivingFamilyHasOneHead(st: Store, i: nat) returns (head: nat)
    requires Inv(st) && i in st.tokens && !st.tokens[i].isRevoked
    ensures SameFamily(st, head, i) && i <= head && st.tokens[head].replacedAt.None?
    ensures forall k: nat :: SameFamily(st, k, i) ==> k <= head && (st.tokens[k].replacedAt.None? ==> k == head)
    decreases st.next - i
  {
    assert HeirOk(st, i);
    if st.tokens[i].replacedAt.None? {
      head := i;
    } else {
      var j: nat :| IsHeir(st, j, i);
      assert TokenOk(st, j) && Precedes(st, i, j) && PairOk(st, i, j);
      head := LivingFamilyHasOneHead(st, j);
    }
    forall k: nat | SameFamily(st, k, i)
      ensures k <= head && (st.tokens[k].replacedAt.None? ==> k == head)
    {
      UnreplacedIsNewest(st, head, k);
      assert PairOk(st, k, head);
    }
  }
}
