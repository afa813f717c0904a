/** market/websocket_manager.py: three redundant indices of the open sockets.
    Between two awaits a coroutine runs alone, so what happens there is one
    step; sends may fail, and others run while one is awaited. */
module Sockets {
  import opened Wrappers

  datatype Registry = Registry(active: set<nat>, users: map<nat, set<nat>>, owner: map<nat, nat>)

  const NO_SOCKETS := Registry({}, map[], map[])

  function SocketsOf(r: Registry, user: nat): set<nat> {
    if user in r.users then r.users[user] else {}
  }

  /** Everyone active has one owner, and a user's set is what the user owns,
      absent when that is nothing. */
  ghost predicate Agree(r: Registry) {
    && r.active == r.owner.Keys
    && (forall user :: user in r.users ==> r.users[user] != {})
    && (forall user, ws :: ws in SocketsOf(r, user) <==> ws in r.owner && r.owner[ws] == user)
  }

  function Connected(r: Registry, ws: nat, user: nat): Registry {
    Registry(r.active + {ws}, r.users[user := SocketsOf(r, user) + {ws}], r.owner[ws := user])
  }

  function WithoutSocket(users: map<nat, set<nat>>, user: nat, ws: nat): map<nat, set<nat>> {
    if user !in users then users
    else if users[user] - {ws} == {} then users - {user}
    else users[user := users[user] - {ws}]
  }

  function Disconnected(r: Registry, ws: nat, user: Option<nat>): Registry {
    var uid := if user.Some? then user else if ws in r.owner then Some(r.owner[ws]) else None;
    Registry(r.active - {ws}, if uid.Some? then WithoutSocket(r.users, uid.value, ws) else r.users, r.owner - {ws})
  }

  /** The tail of a broadcast, after its last await: no user is named. */
  function Pruned(r: Registry, dead: seq<nat>, user: Option<nat>): Registry {
    if dead == [] then r else Disconnected(Pruned(r, dead[..|dead| - 1], user), dead[|dead| - 1], user)
  }

  // --- The replay cache ---------------------------------------------------------

  datatype Kind = MarketStatus | BrokerStatus | OptionChain | OptionMetrics | OptionAnalytics | OtherKind(name: string)

  datatype Frame = Frame(kind: Kind, instrument: string, data: nat)

  /** Also exactly the kinds that are cached. */
  const REPLAY_ORDER := [MarketStatus, BrokerStatus, OptionChain, OptionMetrics, OptionAnalytics]

  predicate SameSlot(f: Frame, g: Frame) {
    f.kind == g.kind && f.instrument == g.instrument
  }

  function SlotOf(cache: seq<Frame>, f: Frame): (i: nat)
    ensures i <= |cache|
    ensures i < |cache| ==> SameSlot(cache[i], f)
    ensures forall k :: 0 <= k < i ==> !SameSlot(cache[k], f)
  {
    if cache == [] || SameSlot(cache[0], f) then 0 else 1 + SlotOf(cache[1..], f)
  }

  /** A dictionary keeps a key where it first stood. */
  function Remember(cache: seq<Frame>, f: Frame): seq<Frame> {
    if f.kind !in REPLAY_ORDER then cache
    else
      var i := SlotOf(cache, f);
      if i < |cache| then cache[i := f] else cache + [f]
  }

  function OfKind(cache: seq<Frame>, kind: Kind): seq<Frame> {
    if cache == [] then []
    else
      var last := cache[|cache| - 1];
      OfKind(cache[..|cache| - 1], kind) + if last.kind == kind then [last] else []
  }

  /** What a new client is sent: kind after kind, each in the cache's order. */
  function Replay(cache: seq<Frame>, order: seq<Kind>): seq<Frame> {
    if order == [] then [] else Replay(cache, order[..|order| - 1]) + OfKind(cache, order[|order| - 1])
  }

  class ConnectionManager {
    var active: set<nat>
    var users: map<nat, set<nat>>
    var owner: map<nat, nat>
    var cache: seq<Frame>

    constructor ()
      ensures View() == NO_SOCKETS && Agree(View()) && cache == []
    {
      active, users, owner, cache := {}, map[], map[], [];
    }

    function View(): Registry
      reads this`active, this`users, this`owner
    {
      Registry(active, users, owner)
    }

    method Register(ws: nat, user: nat)
      modifies this`active, this`users, this`owner
      ensures View() == Connected(old(View()), ws, user)
    {
      active := active + {ws};
      if user !in users {
        users := users[user := {}];
      }
      users := users[user := users[user] + {ws}];
      owner := owner[ws := user];
    }

    /** Registers, then replays the cache as it stands. */
    method Connect(ws: nat, user: nat) returns (replayed: seq<Frame>)
      modifies this`active, this`users, this`owner
      ensures View() == Connected(old(View()), ws, user)
      ensures replayed == Replay(cache, REPLAY_ORDER)
    {
      Register(ws, user);
      replayed := [];
      for n := 0 to |REPLAY_ORDER|
        invariant View() == Connected(old(View()), ws, user)
        invariant replayed == Replay(cache, REPLAY_ORDER[..n])
      {
        assert REPLAY_ORDER[..n + 1][..n] == REPLAY_ORDER[..n];
        ghost var before := replayed;
        for k := 0 to |cache|
          invariant replayed == before + OfKind(cache[..k], REPLAY_ORDER[n])
        {
          assert cache[..k + 1][..k] == cache[..k];
          if cache[k].kind == REPLAY_ORDER[n] {
            replayed := replayed + [cache[k]];
          }
        }
        assert cache[..|cache|] == cache;
      }
      assert REPLAY_ORDER[..|REPLAY_ORDER|] == REPLAY_ORDER;
    }

    method Disconnect(ws: nat, user: Option<nat>)
      modifies this`active, this`users, this`owner
      ensures View() == Disconnected(old(View()), ws, user)
    {
      active := active - {ws};
      var uid := user;
      if uid.None? && ws in owner {
        uid := Some(owner[ws]);
      }
      owner := owner - {ws};
      if uid.Some? && uid.value in users {
        var left := users[uid.value] - {ws};
        users := users[uid.value := left];
        if left == {} {
          users := users - {uid.value};
        }
      }
    }

    method Prune(dead: seq<nat>, user: Option<nat>)
      modifies this`active, this`users, this`owner
      ensures View() == Pruned(old(View()), dead, user)
    {
      for n := 0 to |dead|
        invariant View() == Pruned(old(View()), dead[..n], user)
      {
        assert dead[..n + 1][..n] == dead[..n];
        Disconnect(dead[n], user);
      }
      assert dead[..|dead|] == dead;
    }

    /** One frame to every socket of a copy, in any order. */
    static method SendAll(sockets: set<nat>, reachable: nat -> bool) returns (delivered: set<nat>, dead: seq<nat>)
      ensures delivered == set ws | ws in sockets && reachable(ws)
      ensures forall ws :: ws in dead <==> ws in sockets && !reachable(ws)
    {
      var left := sockets;
      delivered, dead := {}, [];
      while left != {}
        invariant left <= sockets
        invariant delivered == set ws | ws in sockets - left && reachable(ws)
        invariant forall ws :: ws in dead <==> ws in sockets - left && !reachable(ws)
        decreases |left|
      {
        var ws :| ws in left;
        left := left - {ws};
        if reachable(ws) {
          delivered := delivered + {ws};
        } else {
          dead := dead + [ws];
        }
      }
    }

    /** Caches the frame if it is of a replayed kind. Undisturbed while it sends,
        every open socket is tried, and what failed
        is gone from every index. `reachable` says which sends succeed. */
    method Broadcast(frame: Frame, reachable: nat -> bool) returns (delivered: set<nat>)
      requires Agree(View())
      modifies this
      ensures cache == Remember(old(cache), frame)
      ensures delivered == set ws | ws in old(active) && reachable(ws)
      ensures Agree(View()) && active == delivered
      ensures forall ws :: ws in active ==> ws in old(owner) && owner[ws] == old(owner)[ws]
    {
      if frame.kind in REPLAY_ORDER {
        var i := SlotOf(cache, frame);
        cache := if i < |cache| then cache[i := frame] else cache + [frame];
      }
      var dead;
      delivered, dead := SendAll(active, reachable);
      PrunedRemoves(View(), dead, None);
      Prune(dead, None);
    }

    method SendToUser(user: nat, reachable: nat -> bool) returns (delivered: set<nat>)
      requires Agree(View())
      modifies this`active, this`users, this`owner
      ensures delivered == set ws | ws in SocketsOf(old(View()), user) && reachable(ws)
      ensures Agree(View()) && SocketsOf(View(), user) == delivered
      ensures forall other :: other != user ==> SocketsOf(View(), other) == SocketsOf(old(View()), other)
    {
      var sockets := if user in users then users[user] else {};
      var dead;
      delivered, dead := SendAll(sockets, reachable);
      assert sockets == SocketsOf(View(), user);
      PrunedUser(View(), user, dead);
      Prune(dead, Some(user));
    }
  }

  /** Pruning some of a user's sockets leaves the user the others. */
  lemma PrunedUser(r: Registry, user: nat, dead: seq<nat>)
    requires Agree(r) && forall ws :: ws in dead ==> ws in SocketsOf(r, user)
    ensures var after := Pruned(r, dead, Some(user));
            && Agree(after)
            && SocketsOf(after, user) == (set ws | ws in SocketsOf(r, user) && ws !in dead)
            && forall other :: other != user ==> SocketsOf(after, other) == SocketsOf(r, other)
  {
    var after := Pruned(r, dead, Some(user));
    PrunedRemoves(r, dead, Some(user));
    forall u, ws
      ensures ws in SocketsOf(after, u) <==> ws in SocketsOf(r, u) && ws !in dead
    {
      assert ws in SocketsOf(after, u) <==> ws in after.owner && after.owner[ws] == u;
      assert ws in SocketsOf(r, u) <==> ws in r.owner && r.owner[ws] == u;
    }
  }

  // --- Exactly when the indices stay in agreement ----------------------------------

  /** The socket is nobody else's. */
  predicate OnlyOf(r: Registry, ws: nat, user: nat) {
    ws in r.owner ==> r.owner[ws] == user
  }

  /** Registering keeps the indices in agreement exactly when the socket is not
      registered to another user; that user would keep a socket not its own. */
  lemma ConnectAgreesIff(r: Registry, ws: nat, user: nat)
    requires Agree(r)
    ensures Agree(Connected(r, ws, user)) <==> OnlyOf(r, ws, user)
  {
    var after := Connected(r, ws, user);
    if OnlyOf(r, ws, user) {
      forall u, s
        ensures s in SocketsOf(after, u) <==> s in after.owner && after.owner[s] == u
      {
        assert s in SocketsOf(r, u) <==> s in r.owner && r.owner[s] == u;
      }
    } else {
      assert ws in SocketsOf(r, r.owner[ws]);
      assert ws in SocketsOf(after, r.owner[ws]);
    }
  }

  /** Removing without naming a user always keeps it, and naming one does
      exactly when that user, or nobody, owns the socket. */
  lemma DisconnectAgreesIff(r: Registry, ws: nat, user: Option<nat>)
    requires Agree(r)
    ensures Agree(Disconnected(r, ws, user)) <==> user.None? || OnlyOf(r, ws, user.value)
  {
    var after := Disconnected(r, ws, user);
    if user.None? || OnlyOf(r, ws, user.value) {
      forall u, s
        ensures s in SocketsOf(after, u) <==> s in after.owner && after.owner[s] == u
      {
        assert s in SocketsOf(r, u) <==> s in r.owner && r.owner[s] == u;
      }
    } else {
      assert ws in SocketsOf(r, r.owner[ws]);
      assert ws in SocketsOf(after, r.owner[ws]);
    }
  }

  /** Removing twice is removing once. */
  lemma DisconnectIsIdempotent(r: Registry, ws: nat, user: Option<nat>)
    requires Agree(r) && (user.None? || OnlyOf(r, ws, user.value))
    ensures Disconnected(Disconnected(r, ws, user), ws, user) == Disconnected(r, ws, user)
  {
    DisconnectAgreesIff(r, ws, user);
    var once := Disconnected(r, ws, user);
    assert ws !in once.owner;
    if user.Some? && user.value in once.users {
      assert ws !in SocketsOf(once, user.value);
      assert once.users[user.value] - {ws} == once.users[user.value];
      assert once.users[user.value := once.users[user.value]] == once.users;
    }
    assert once.owner - {ws} == once.owner && once.active - {ws} == once.active;
  }

  /** Pruning removes the dead and leaves everybody else where they were. */
  ghost predicate RemovedFrom(r: Registry, after: Registry, dead: seq<nat>) {
    && Agree(after)
    && (forall ws :: ws in after.owner <==> ws in r.owner && ws !in dead)
    && (forall ws :: ws in after.owner ==> after.owner[ws] == r.owner[ws])
  }

  lemma {:induction false} PrunedRemoves(r: Registry, dead: seq<nat>, user: Option<nat>)
    requires Agree(r) && (user.Some? ==> forall ws :: ws in dead ==> OnlyOf(r, ws, user.value))
    ensures RemovedFrom(r, Pruned(r, dead, user), dead)
  {
    if dead != [] {
      var front, last := dead[..|dead| - 1], dead[|dead| - 1];
      assert forall ws :: ws in front ==> ws in dead;
      assert dead == front + [last];
      PrunedRemoves(r, front, user);
      assert user.Some? ==> OnlyOf(r, last, user.value);
      DisconnectAgreesIff(Pruned(r, front, user), last, user);
    }
  }

  // --- What a new client sees -------------------------------------------------------------

  function Cached(history: seq<Frame>): seq<Frame> {
    if history == [] then [] else Remember(Cached(history[..|history| - 1]), history[|history| - 1])
  }

  /** The last broadcast of its kind and instrument, and of a replayed kind. */
  ghost predicate Latest(history: seq<Frame>, f: Frame) {
    && f.kind in REPLAY_ORDER
    && exists k :: 0 <= k < |history| && history[k] == f && NothingSince(history, k, f)
  }

  ghost predicate NothingSince(history: seq<Frame>, k: nat, f: Frame) {
    forall j :: k < j < |history| ==> !SameSlot(history[j], f)
  }

  ghost predicate OneASlot(cache: seq<Frame>) {
    && (forall i, j :: 0 <= i < j < |cache| ==> !SameSlot(cache[i], cache[j]))
    && (forall i :: 0 <= i < |cache| ==> cache[i].kind in REPLAY_ORDER)
  }

  lemma RememberKeepsSlots(cache: seq<Frame>, f: Frame)
    requires OneASlot(cache)
    ensures OneASlot(Remember(cache, f))
  {
  }

  /** Remembering replaces the slot's frame and leaves the others. */
  lemma RememberHolds(cache: seq<Frame>, f: Frame, g: Frame)
    requires OneASlot(cache)
    ensures g in Remember(cache, f) <==> if f.kind in REPLAY_ORDER && SameSlot(f, g) then g == f else g in cache
  {
    var i, after := SlotOf(cache, f), Remember(cache, f);
    if f.kind in REPLAY_ORDER {
      if i < |cache| {
        assert after[i] == f;
        assert forall k :: 0 <= k < |cache| && k != i ==> after[k] == cache[k];
        if g in cache && !SameSlot(f, g) {
          var k :| 0 <= k < |cache| && cache[k] == g;
          assert after[k] == g;
        }
        if g in after && SameSlot(f, g) {
          var k :| 0 <= k < |after| && after[k] == g;
          assert k == i;
        }
      } else {
        assert after[|cache|] == f;
        if g in after && SameSlot(f, g) {
          var k :| 0 <= k < |after| && after[k] == g;
          assert k == |cache|;
        }
      }
    }
  }

  lemma LatestGrows(history: seq<Frame>, last: Frame, f: Frame)
    ensures Latest(history + [last], f) <==> f.kind in REPLAY_ORDER && (if SameSlot(last, f) then f == last else Latest(history, f))
  {
    var longer := history + [last];
    if f == last {
      assert longer[|history|] == f && NothingSince(longer, |history|, f);
    }
    if !SameSlot(last, f) && Latest(history, f) {
      var k :| 0 <= k < |history| && history[k] == f && NothingSince(history, k, f);
      assert longer[k] == f && NothingSince(longer, k, f);
    }
    if Latest(longer, f) {
      var k :| 0 <= k < |longer| && longer[k] == f && NothingSince(longer, k, f);
      if k < |history| {
        assert !SameSlot(longer[|history|], f);
        assert history[k] == f;
        assert forall j :: k < j < |history| ==> longer[j] == history[j];
        assert NothingSince(history, k, f);
      }
    }
  }

  lemma {:induction false} CacheHoldsTheLatest(history: seq<Frame>, f: Frame)
    ensures OneASlot(Cached(history)) && (f in Cached(history) <==> Latest(history, f))
  {
    if history != [] {
      var front, last := history[..|history| - 1], history[|history| - 1];
      CacheHoldsTheLatest(front, f);
      assert history == front + [last];
      RememberKeepsSlots(Cached(front), last);
      RememberHolds(Cached(front), last, f);
      LatestGrows(front, last, f);
    }
  }

  lemma {:induction false} OfKindCounts(cache: seq<Frame>, kind: Kind, f: Frame)
    ensures multiset(OfKind(cache, kind))[f] == if f.kind == kind then multiset(cache)[f] else 0
  {
    if cache != [] {
      var front, last := cache[..|cache| - 1], cache[|cache| - 1];
      OfKindCounts(front, kind, f);
      assert cache == front + [last];
    }
  }

  ghost predicate DistinctKinds(order: seq<Kind>) {
    forall i, j :: 0 <= i < j < |order| ==> order[i] != order[j]
  }

  lemma {:induction false} ReplayCounts(cache: seq<Frame>, order: seq<Kind>, f: Frame)
    requires DistinctKinds(order)
    ensures multiset(Replay(cache, order))[f] == if f.kind in order then multiset(cache)[f] else 0
  {
    if order != [] {
      var front, last := order[..|order| - 1], order[|order| - 1];
      ReplayCounts(cache, front, f);
      OfKindCounts(cache, last, f);
      assert order == front + [last] && last !in front;
      assert f.kind in order <==> f.kind in front || f.kind == last;
    }
  }

  lemma {:induction false} OneASlotOnce(cache: seq<Frame>, f: Frame)
    requires OneASlot(cache)
    ensures multiset(cache)[f] == if f in cache then 1 else 0
  {
    if cache != [] {
      var front, last := cache[..|cache| - 1], cache[|cache| - 1];
      OneASlotOnce(front, f);
      assert cache == front + [last];
      assert last !in front;
    }
  }

  /** After any broadcasts a new client is sent exactly the latest frame of each
      replayed kind and instrument, once each. */
  lemma NewClientSeesTheLatest(history: seq<Frame>, f: Frame)
    ensures multiset(Replay(Cached(history), REPLAY_ORDER))[f] == if Latest(history, f) then 1 else 0
  {
    CacheHoldsTheLatest(history, f);
    ReplayCounts(Cached(history), REPLAY_ORDER, f);
    OneASlotOnce(Cached(history), f);
  }
}
