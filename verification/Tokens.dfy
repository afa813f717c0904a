/** token_service.py: families of single-use refresh tokens, the rotation
    pattern of section 4.14.2 of RFC 9700. A token is numbered in order of
    creation and stands for its raw value and its hash alike; a family is
    numbered by its first token. Instants are whole microseconds. */
module Tokens {
  import opened Wrappers

  const SECOND := 1000000
  const MINUTE := 60 * SECOND
  const HOUR := 60 * MINUTE
  const DAY := 24 * HOUR
  const LIFETIME := 30 * DAY
  const EPHEMERAL_CAP := 12 * HOUR
  const IDLE_TIMEOUT := 30 * MINUTE
  const GRACE := 10 * SECOND

  datatype Policy = Persistent | Ephemeral

  datatype Reason = ReuseDetected | IdleTimeout | Logout | LogoutAll

  datatype Token = Token(
    user: nat,
    family: nat,
    parent: Option<nat>,
    policy: Policy,
    expiresAt: int,
    createdAt: int,
    lastUsedAt: int,
    replacedAt: Option<int>,
    isRevoked: bool,
    revokedAt: Option<int>,
    reason: Option<Reason>)

  datatype Store = Store(tokens: map<nat, Token>, next: nat)

  /** A refusal may still have changed the store: a family revoked for reuse or
      idleness stays revoked. */
  datatype Rotation = Rotated(successor: nat) | Refused

  function ExpiryAt(policy: Policy, login: int): int {
    if policy == Persistent then login + LIFETIME
    else if LIFETIME < EPHEMERAL_CAP then login + LIFETIME else login + EPHEMERAL_CAP
  }

  function NewToken(user: nat, family: nat, parent: Option<nat>, policy: Policy, now: int): Token {
    Token(user, family, parent, policy, ExpiryAt(policy, now), now, now, None, false, None, None)
  }

  function Add(st: Store, t: Token): Store {
    Store(st.tokens[st.next := t], st.next + 1)
  }

  function Login(st: Store, user: nat, policy: Policy, now: int): Store {
    Add(st, NewToken(user, st.next, None, policy, now))
  }

  /** What rotation accepts. */
  predicate Usable(t: Token, now: int) {
    !t.isRevoked && t.replacedAt.None? && now < t.expiresAt
  }

  function RevokeWhere(st: Store, chosen: Token -> bool, now: int, reason: Reason): Store {
    st.(tokens := map i | i in st.tokens ::
      var t := st.tokens[i];
      if chosen(t) && !t.isRevoked then t.(isRevoked := true, revokedAt := Some(now), reason := Some(reason)) else t)
  }

  function OfFamily(family: nat): Token -> bool {
    (t: Token) => t.family == family
  }

  function OfUser(user: nat): Token -> bool {
    (t: Token) => t.user == user
  }

  /** A token replaced this long ago and presented again was stolen or kept. */
  predicate Reused(t: Token, now: int) {
    t.replacedAt.Some? && !t.isRevoked && now - t.replacedAt.value > GRACE
  }

  predicate Idle(t: Token, now: int) {
    t.policy == Ephemeral && now - t.createdAt > IDLE_TIMEOUT
  }

  function Claimed(st: Store, raw: nat, now: int): Store
    requires raw in st.tokens
  {
    st.(tokens := st.tokens[raw := st.tokens[raw].(replacedAt := Some(now), lastUsedAt := now)])
  }

  /** Minted like any token, and then given the expiry it inherits. */
  function HeirOf(t: Token, raw: nat, now: int): Token {
    NewToken(t.user, t.family, Some(raw), t.policy, now).(expiresAt := t.expiresAt)
  }

  function Rotate(st: Store, raw: nat, active: bool, now: int): (Store, Rotation) {
    if raw !in st.tokens then (st, Refused)
    else
      var t := st.tokens[raw];
      if !Usable(t, now) then
        (if Reused(t, now) then RevokeWhere(st, OfFamily(t.family), now, ReuseDetected) else st, Refused)
      else if Idle(t, now) then
        (RevokeWhere(Claimed(st, raw, now), OfFamily(t.family), now, IdleTimeout), Refused)
      else if !active then (st, Refused)
      else
        (Add(Claimed(st, raw, now), HeirOf(t, raw, now)), Rotated(st.next))
  }

  function LogOut(st: Store, raw: nat, now: int): Store {
    if raw in st.tokens then RevokeWhere(st, OfFamily(st.tokens[raw].family), now, Logout) else st
  }

  /** What retention cleanup deletes. */
  predicate Stale(t: Token, cutoff: int) {
    (t.revokedAt.Some? && t.revokedAt.value < cutoff) || t.expiresAt < cutoff
  }

  function Cleanup(st: Store, retentionDays: int, now: int): Store {
    var cutoff := now - retentionDays * DAY;
    st.(tokens := map i | i in st.tokens && !Stale(st.tokens[i], cutoff) :: st.tokens[i])
  }

  // --- The stored records ----------------------------------------------------

  class TokenStore {
    var tokens: map<nat, Token>
    var next: nat

    constructor ()
      ensures View() == Store(map[], 0)
    {
      tokens, next := map[], 0;
    }

    function View(): Store
      reads this
    {
      Store(tokens, next)
    }

    method Create(user: nat, family: Option<nat>, parent: Option<nat>, policy: Policy, now: int) returns (id: nat)
      modifies this
      ensures id == old(next)
      ensures View() == Add(old(View()), NewToken(user, family.GetOr(id), parent, policy, now))
    {
      var expiresAt := now + LIFETIME;
      if policy == Ephemeral && now + EPHEMERAL_CAP < expiresAt {
        expiresAt := now + EPHEMERAL_CAP;
      }
      id := next;
      tokens := tokens[id := Token(user, family.GetOr(id), parent, policy, expiresAt, now, now, None, false, None, None)];
      next := next + 1;
    }

    method RevokeFamily(family: nat, now: int, reason: Reason)
      modifies this
      ensures next == old(next) && tokens.Keys == old(tokens).Keys
      ensures forall i :: i in tokens && old(tokens)[i].family == family ==> tokens[i].isRevoked
      ensures forall i :: i in tokens && (old(tokens)[i].family != family || old(tokens)[i].isRevoked) ==> tokens[i] == old(tokens)[i]
      ensures View() == RevokeWhere(old(View()), OfFamily(family), now, reason)
    {
      tokens := map i | i in tokens ::
        if tokens[i].family == family && !tokens[i].isRevoked
        then tokens[i].(isRevoked := true, revokedAt := Some(now), reason := Some(reason))
        else tokens[i];
    }

    method RotateToken(raw: nat, active: bool, now: int) returns (r: Rotation)
      modifies this
      ensures (View(), r) == Rotate(old(View()), raw, active, now)
      ensures r.Rotated? <==> && raw in old(tokens) && active
                              && var t := old(tokens)[raw];
                                 && !t.isRevoked && t.replacedAt.None? && now < t.expiresAt
                                 && (t.policy == Persistent || now - t.createdAt <= 1800000000)
    {
      r := Refused;
      if raw in tokens && !tokens[raw].isRevoked && tokens[raw].replacedAt.None? && now < tokens[raw].expiresAt {
        var before := tokens;
        tokens := tokens[raw := tokens[raw].(replacedAt := Some(now), lastUsedAt := now)];
        var claimed := tokens[raw];
        if claimed.policy == Ephemeral && now - claimed.createdAt > IDLE_TIMEOUT {
          RevokeFamily(claimed.family, now, IdleTimeout);
          return;
        }
        if !active {
          // raised before any commit, so the claim is rolled back
          tokens := before;
          return;
        }
        var successor := Create(claimed.user, Some(claimed.family), Some(raw), claimed.policy, now);
        tokens := tokens[successor := tokens[successor].(expiresAt := claimed.expiresAt)];
        assert tokens == Claimed(old(View()), raw, now).tokens[successor := HeirOf(old(tokens)[raw], raw, now)];
        r := Rotated(successor);
      } else if raw in tokens {
        var prior := tokens[raw];
        if prior.replacedAt.Some? && !prior.isRevoked && now - prior.replacedAt.value > GRACE {
          RevokeFamily(prior.family, now, ReuseDetected);
        }
      }
    }

    method Revoke(raw: nat, now: int)
      modifies this
      ensures View() == LogOut(old(View()), raw, now)
    {
      if raw in tokens {
        RevokeFamily(tokens[raw].family, now, Logout);
      }
    }

    method RevokeAll(user: nat, now: int)
      modifies this
      ensures next == old(next) && tokens.Keys == old(tokens).Keys
      ensures forall i :: i in tokens && old(tokens)[i].user == user ==> tokens[i].isRevoked
      ensures forall i :: i in tokens && (old(tokens)[i].user != user || old(tokens)[i].isRevoked) ==> tokens[i] == old(tokens)[i]
      ensures View() == RevokeWhere(old(View()), OfUser(user), now, LogoutAll)
    {
      tokens := map i | i in tokens ::
        if tokens[i].user == user && !tokens[i].isRevoked
        then tokens[i].(isRevoked := true, revokedAt := Some(now), reason := Some(LogoutAll))
        else tokens[i];
    }

    method CleanUp(retentionDays: int, now: int)
      modifies this
      ensures next == old(next) && forall i :: i in tokens ==> i in old(tokens) && tokens[i] == old(tokens)[i]
      ensures forall i :: i in old(tokens) ==>
                (i !in tokens <==> Stale(old(tokens)[i], now - retentionDays * DAY))
      ensures View() == Cleanup(old(View()), retentionDays, now)
    {
      var cutoff := now - retentionDays * DAY;
      tokens := map i | i in tokens
                        && !((tokens[i].revokedAt.Some? && tokens[i].revokedAt.value < cutoff) || tokens[i].expiresAt < cutoff)
                  :: tokens[i];
    }
  }

  // --- What every state satisfies --------------------------------------------

  ghost predicate SameFate(t: Token, u: Token) {
    && t.user == u.user && t.policy == u.policy && t.expiresAt == u.expiresAt
    && t.isRevoked == u.isRevoked && t.revokedAt == u.revokedAt && t.reason == u.reason
  }

  ghost predicate SameFamily(st: Store, i: nat, j: nat) {
    i in st.tokens && j in st.tokens && st.tokens[i].family == st.tokens[j].family
  }

  /** `p` is the family's last token before `i`. */
  ghost predicate Precedes(st: Store, p: nat, i: nat) {
    SameFamily(st, p, i) && p < i && forall k: nat :: p < k < i ==> !SameFamily(st, k, i)
  }

  /** The parent is the family's previous token, replaced when this one was
      made, and the first has none; the expiry is what login fixed. */
  ghost predicate TokenOk(st: Store, i: nat) {
    i in st.tokens ==>
      var t := st.tokens[i];
      && t.family <= i < st.next
      && (t.isRevoked <==> t.revokedAt.Some?)
      && (t.isRevoked <==> t.reason.Some?)
      && t.family in st.tokens
      && t.expiresAt == ExpiryAt(t.policy, st.tokens[t.family].createdAt)
      && (t.parent.None? <==> t.family == i)
      && (t.parent.Some? ==> Precedes(st, t.parent.value, i) && st.tokens[t.parent.value].replacedAt == Some(t.createdAt))
  }

  /** Owner, policy, expiry and revocation are one for the whole family, and
      all but its newest token have been replaced. */
  ghost predicate PairOk(st: Store, i: nat, j: nat) {
    SameFamily(st, i, j) ==>
      && SameFate(st.tokens[i], st.tokens[j])
      && (i < j ==> st.tokens[i].replacedAt.Some?)
  }

  ghost predicate IsHeir(st: Store, j: nat, i: nat) {
    j in st.tokens && st.tokens[j].parent == Some(i)
  }

  /** A replaced token of a living family has its successor in the store. */
  ghost predicate HeirOk(st: Store, i: nat) {
    i in st.tokens && !st.tokens[i].isRevoked && st.tokens[i].replacedAt.Some? ==> exists j: nat :: IsHeir(st, j, i)
  }

  ghost predicate Inv(st: Store) {
    && (forall i: nat :: i in st.tokens ==> i < st.next)
    && (forall i: nat :: TokenOk(st, i))
    && (forall i: nat, j: nat :: PairOk(st, i, j))
    && (forall i: nat :: HeirOk(st, i))
  }

  // --- Every operation keeps it ------------------------------------------------

  lemma PrecedesStays(st: Store, after: Store, p: nat, i: nat)
    requires Precedes(st, p, i) && SameFamily(after, p, i)
    requires forall k: nat :: k < i && SameFamily(after, k, i) ==> SameFamily(st, k, i)
    ensures Precedes(after, p, i)
  {
  }

  /** Heirs stay heirs while no token is deleted or given another parent. */
  lemma HeirStays(st: Store, after: Store, i: nat)
    requires HeirOk(st, i)
    requires i in st.tokens && !st.tokens[i].isRevoked && st.tokens[i].replacedAt.Some?
    requires forall j: nat :: IsHeir(st, j, i) ==> IsHeir(after, j, i)
    ensures HeirOk(after, i)
  {
    var j: nat :| IsHeir(st, j, i);
    assert IsHeir(after, j, i);
  }

  lemma LoginKeeps(st: Store, user: nat, policy: Policy, now: int)
    requires Inv(st)
    ensures Inv(Login(st, user, policy, now))
  {
    var after := Login(st, user, policy, now);
    forall i: nat
      ensures TokenOk(after, i) && HeirOk(after, i)
    {
      assert TokenOk(st, i) && HeirOk(st, i);
      if i in st.tokens {
        if st.tokens[i].parent.Some? {
          PrecedesStays(st, after, st.tokens[i].parent.value, i);
        }
        if !st.tokens[i].isRevoked && st.tokens[i].replacedAt.Some? {
          HeirStays(st, after, i);
        }
      }
    }
    forall i: nat, j: nat
      ensures PairOk(after, i, j)
    {
      assert PairOk(st, i, j) && TokenOk(st, i) && TokenOk(st, j);
    }
  }

  /** Revocation that takes whole families keeps everything. */
  ghost predicate TakesFamilies(st: Store, chosen: Token -> bool) {
    forall i: nat, j: nat :: SameFamily(st, i, j) ==> chosen(st.tokens[i]) == chosen(st.tokens[j])
  }

  lemma RevokeKeeps(st: Store, chosen: Token -> bool, now: int, reason: Reason)
    requires Inv(st) && TakesFamilies(st, chosen)
    ensures Inv(RevokeWhere(st, chosen, now, reason))
  {
    var after := RevokeWhere(st, chosen, now, reason);
    forall i: nat
      ensures TokenOk(after, i) && HeirOk(after, i)
    {
      assert TokenOk(st, i) && HeirOk(st, i);
      if i in st.tokens {
        if st.tokens[i].parent.Some? {
          PrecedesStays(st, after, st.tokens[i].parent.value, i);
        }
        if !st.tokens[i].isRevoked && st.tokens[i].replacedAt.Some? {
          HeirStays(st, after, i);
        }
      }
    }
    forall i: nat, j: nat
      ensures PairOk(after, i, j)
    {
      assert PairOk(st, i, j);
      assert SameFamily(after, i, j) ==> SameFamily(st, i, j);
    }
  }

  lemma FamilyIsTaken(st: Store, family: nat)
    ensures TakesFamilies(st, OfFamily(family))
  {
  }

  lemma UserIsTaken(st: Store, user: nat)
    requires Inv(st)
    ensures TakesFamilies(st, OfUser(user))
  {
    forall i: nat, j: nat | SameFamily(st, i, j)
      ensures OfUser(user)(st.tokens[i]) == OfUser(user)(st.tokens[j])
    {
      assert PairOk(st, i, j);
    }
  }

  /** Nothing of the family is newer than an unreplaced token. */
  lemma UnreplacedIsNewest(st: Store, raw: nat, k: nat)
    requires Inv(st) && SameFamily(st, raw, k) && st.tokens[raw].replacedAt.None?
    ensures k <= raw
  {
    assert PairOk(st, raw, k);
  }

  lemma HeirFollows(st: Store, raw: nat, after: Store)
    requires Inv(st) && raw in st.tokens && st.tokens[raw].replacedAt.None? && raw < st.next && st.next in after.tokens
    requires forall k: nat :: k < st.next ==> (SameFamily(after, k, st.next) <==> SameFamily(st, k, raw))
    ensures Precedes(after, raw, st.next)
  {
    forall k: nat | raw < k < st.next
      ensures !SameFamily(after, k, st.next)
    {
      if SameFamily(st, raw, k) {
        UnreplacedIsNewest(st, raw, k);
      }
    }
  }

  lemma RotatedTokenOk(st: Store, raw: nat, now: int, after: Store, i: nat)
    requires Inv(st) && raw in st.tokens && Usable(st.tokens[raw], now)
    requires after == Add(Claimed(st, raw, now), HeirOf(st.tokens[raw], raw, now))
    ensures TokenOk(after, i) && HeirOk(after, i)
  {
    assert TokenOk(st, i) && TokenOk(st, raw) && HeirOk(st, i);
    if i == st.next {
      HeirFollows(st, raw, after);
    } else if i in st.tokens {
      if st.tokens[i].parent.Some? {
        PrecedesStays(st, after, st.tokens[i].parent.value, i);
      }
      if i == raw {
        assert IsHeir(after, st.next, raw);
      } else if !st.tokens[i].isRevoked && st.tokens[i].replacedAt.Some? {
        HeirStays(st, after, i);
      }
    }
  }

  lemma RotationKeeps(st: Store, raw: nat, now: int, after: Store)
    requires Inv(st) && raw in st.tokens && Usable(st.tokens[raw], now)
    requires after == Add(Claimed(st, raw, now), HeirOf(st.tokens[raw], raw, now))
    ensures Inv(after)
  {
    forall i: nat
      ensures TokenOk(after, i) && HeirOk(after, i)
    {
      RotatedTokenOk(st, raw, now, after, i);
    }
    forall i: nat, j: nat
      ensures PairOk(after, i, j)
    {
      assert PairOk(st, i, j) && PairOk(st, i, raw) && PairOk(st, raw, i) && PairOk(st, raw, j);
      assert TokenOk(st, i) && TokenOk(st, j);
    }
  }

  /** In a revoked family it no longer matters what is replaced. */
  lemma ClaimOfRevokedKeeps(st: Store, raw: nat, now: int)
    requires Inv(st) && raw in st.tokens && st.tokens[raw].isRevoked && st.tokens[raw].replacedAt.None?
    ensures Inv(Claimed(st, raw, now))
  {
    var after := Claimed(st, raw, now);
    forall i: nat
      ensures TokenOk(after, i) && HeirOk(after, i)
    {
      assert TokenOk(st, i) && HeirOk(st, i);
      if i in st.tokens {
        if st.tokens[i].parent.Some? {
          PrecedesStays(st, after, st.tokens[i].parent.value, i);
        }
        if !st.tokens[i].isRevoked && st.tokens[i].replacedAt.Some? {
          HeirStays(st, after, i);
        }
      }
    }
    forall i: nat, j: nat
      ensures PairOk(after, i, j)
    {
      assert PairOk(st, i, j);
    }
  }

  /** Claimed and revoked in one transaction; the claim is never seen alone. */
  lemma IdleKeeps(st: Store, raw: nat, now: int)
    requires Inv(st) && raw in st.tokens && st.tokens[raw].replacedAt.None?
    ensures Inv(RevokeWhere(Claimed(st, raw, now), OfFamily(st.tokens[raw].family), now, IdleTimeout))
  {
    var family := st.tokens[raw].family;
    var revoked := RevokeWhere(st, OfFamily(family), now, IdleTimeout);
    FamilyIsTaken(st, family);
    RevokeKeeps(st, OfFamily(family), now, IdleTimeout);
    ClaimOfRevokedKeeps(revoked, raw, now);
    assert RevokeWhere(Claimed(st, raw, now), OfFamily(family), now, IdleTimeout).tokens == Claimed(revoked, raw, now).tokens;
  }

  lemma RotateKeeps(st: Store, raw: nat, active: bool, now: int)
    requires Inv(st)
    ensures Inv(Rotate(st, raw, active, now).0)
  {
    if raw in st.tokens {
      var t := st.tokens[raw];
      if !Usable(t, now) {
        FamilyIsTaken(st, t.family);
        RevokeKeeps(st, OfFamily(t.family), now, ReuseDetected);
      } else if Idle(t, now) {
        IdleKeeps(st, raw, now);
      } else {
        RotationKeeps(st, raw, now, Add(Claimed(st, raw, now), HeirOf(t, raw, now)));
      }
    }
  }

  /** Cleanup deletes a family whole or not at all, because what it looks at is
      one for the family. */
  lemma CleanupTakesWholeFamilies(st: Store, retentionDays: int, now: int, i: nat, j: nat)
    requires Inv(st) && SameFamily(st, i, j)
    ensures i in Cleanup(st, retentionDays, now).tokens <==> j in Cleanup(st, retentionDays, now).tokens
  {
    assert PairOk(st, i, j);
  }

  lemma FounderIsFamily(st: Store, i: nat)
    requires Inv(st) && i in st.tokens
    ensures SameFamily(st, st.tokens[i].family, i)
  {
    var root := st.tokens[i].family;
    assert TokenOk(st, i) && TokenOk(st, root);
    if st.tokens[i].parent.Some? {
      var p := st.tokens[i].parent.value;
      assert Precedes(st, p, i);
      FounderIsFamily(st, p);
    }
  }

  lemma CleanupKeepsToken(st: Store, retentionDays: int, now: int, after: Store, i: nat)
    requires Inv(st) && after == Cleanup(st, retentionDays, now)
    ensures TokenOk(after, i) && HeirOk(after, i)
  {
    assert TokenOk(st, i) && HeirOk(st, i);
    if i in after.tokens {
      FounderIsFamily(st, i);
      CleanupTakesWholeFamilies(st, retentionDays, now, i, st.tokens[i].family);
      if st.tokens[i].parent.Some? {
        CleanupTakesWholeFamilies(st, retentionDays, now, i, st.tokens[i].parent.value);
        PrecedesStays(st, after, st.tokens[i].parent.value, i);
      }
      if !st.tokens[i].isRevoked && st.tokens[i].replacedAt.Some? {
        var j: nat :| IsHeir(st, j, i);
        assert TokenOk(st, j) && Precedes(st, i, j);
        CleanupTakesWholeFamilies(st, retentionDays, now, i, j);
        assert IsHeir(after, j, i);
      }
    }
  }

  lemma CleanupKeeps(st: Store, retentionDays: int, now: int)
    requires Inv(st)
    ensures Inv(Cleanup(st, retentionDays, now))
  {
    var after := Cleanup(st, retentionDays, now);
    forall i: nat
      ensures TokenOk(after, i) && HeirOk(after, i)
    {
      CleanupKeepsToken(st, retentionDays, now, after, i);
    }
    forall i: nat, j: nat
      ensures PairOk(after, i, j)
    {
      assert PairOk(st, i, j);
    }
  }

  // --- Runs --------------------------------------------------------------------

  datatype Op =
    | LoggedIn(user: nat, policy: Policy)
    | Presented(raw: nat, active: bool)
    | LoggedOut(raw: nat)
    | LoggedOutEverywhere(user: nat)
    | Swept(retentionDays: nat)

  datatype Event = Event(now: int, op: Op)

  function Step(st: Store, e: Event): Store {
    match e.op
    case LoggedIn(user, policy) => Login(st, user, policy, e.now)
    case Presented(raw, active) => Rotate(st, raw, active, e.now).0
    case LoggedOut(raw) => LogOut(st, raw, e.now)
    case LoggedOutEverywhere(user) => RevokeWhere(st, OfUser(user), e.now, LogoutAll)
    case Swept(retentionDays) => Cleanup(st, retentionDays, e.now)
  }

  function Run(st: Store, events: seq<Event>): Store {
    if events == [] then st else Step(Run(st, events[..|events| - 1]), events[|events| - 1])
  }

  const EMPTY_STORE := Store(map[], 0)

  lemma StepKeeps(st: Store, e: Event)
    requires Inv(st)
    ensures Inv(Step(st, e))
  {
    match e.op
    case LoggedIn(user, policy) => LoginKeeps(st, user, policy, e.now);
    case Presented(raw, active) => RotateKeeps(st, raw, active, e.now);
    case LoggedOut(raw) =>
      if raw in st.tokens {
        FamilyIsTaken(st, st.tokens[raw].family);
        RevokeKeeps(st, OfFamily(st.tokens[raw].family), e.now, Logout);
      }
    case LoggedOutEverywhere(user) =>
      UserIsTaken(st, user);
      RevokeKeeps(st, OfUser(user), e.now, LogoutAll);
    case Swept(retentionDays) => CleanupKeeps(st, retentionDays, e.now);
  }

  lemma {:induction false} RunKeeps(st: Store, events: seq<Event>)
    requires Inv(st)
    ensures Inv(Run(st, events))
  {
    if events != [] {
      RunKeeps(st, events[..|events| - 1]);
      StepKeeps(Run(st, events[..|events| - 1]), events[|events| - 1]);
    }
  }
}
