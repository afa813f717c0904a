/** scheduler_leadership.py: a renewable Redis lease elects the one process that
    runs state-changing jobs. Every command and every write of a process's own
    flags is a step of its own, so they interleave freely between processes and
    between the heartbeat and the stopping thread of one process. One clock is
    assumed; the local fallback is off. */
module Lease {
  import opened Wrappers

  datatype Grant = Grant(owner: nat, expires: real)

  function Live(key: Option<Grant>, now: real): Option<Grant> {
    if key.Some? && now < key.value.expires then key else None
  }

  // --- The three commands ------------------------------------------------------

  /** SET key token NX EX ttl */
  function SetNx(key: Option<Grant>, now: real, owner: nat, ttl: int): (Option<Grant>, bool) {
    if Live(key, now).None? then (Some(Grant(owner, now + ttl as real)), true) else (key, false)
  }

  /** Renew if the stored token is ours. */
  function Renew(key: Option<Grant>, now: real, owner: nat, ttl: int): (Option<Grant>, bool) {
    if Live(key, now).Some? && key.value.owner == owner then (Some(Grant(owner, now + ttl as real)), true) else (key, false)
  }

  /** Delete if the stored token is ours. */
  function Release(key: Option<Grant>, now: real, owner: nat): (Option<Grant>, bool) {
    if Live(key, now).Some? && key.value.owner == owner then (None, true) else (key, false)
  }

  /** A grant, by SET or by renewal, is its owner's alone for the whole TTL: no
      other process's SET, renewal or release does anything, the owner can
      extend and end it, and when it has run out anyone can take the key. */
  lemma GrantIsExclusive(before: Option<Grant>, now: real, owner: nat, ttl: int, key: Option<Grant>, other: nat, later: real)
    requires 0 < ttl && other != owner && now <= later
    requires (key, true) == SetNx(before, now, owner, ttl) || (key, true) == Renew(before, now, owner, ttl)
    ensures later < now + ttl as real ==>
              && SetNx(key, later, other, ttl) == (key, false)
              && Renew(key, later, other, ttl) == (key, false)
              && Release(key, later, other) == (key, false)
              && Renew(key, later, owner, ttl).1
              && Release(key, later, owner) == (None, true)
    ensures now + ttl as real <= later ==>
              && SetNx(key, later, other, ttl) == (Some(Grant(other, later + ttl as real)), true)
              && !Renew(key, later, owner, ttl).1
  {
  }

  const MIN_TTL := 9

  type Seconds = s: int | MIN_TTL <= s witness MIN_TTL

  /** Whatever is configured, a lease lasts at least nine seconds. */
  function Ttl(seconds: int): Seconds {
    if seconds < MIN_TTL then MIN_TTL else seconds
  }

  // --- One process, as the class --------------------------------------------------

  class Redis {
    var now: real
    var key: Option<Grant>

    constructor ()
      ensures now == 0.0 && key == None
    {
      now, key := 0.0, None;
    }

    method Set(owner: nat, ttl: int) returns (ok: bool)
      modifies this`key
      ensures ok <==> Live(old(key), now).None?
      ensures key == if ok then Some(Grant(owner, now + ttl as real)) else old(key)
      ensures (key, ok) == SetNx(old(key), now, owner, ttl)
    {
      if key.Some? && now < key.value.expires {
        return false;
      }
      key := Some(Grant(owner, now + ttl as real));
      ok := true;
    }

    method EvalRenew(owner: nat, ttl: int) returns (ok: bool)
      modifies this`key
      ensures ok <==> Live(old(key), now).Some? && old(key).value.owner == owner
      ensures key == if ok then Some(Grant(owner, now + ttl as real)) else old(key)
      ensures (key, ok) == Renew(old(key), now, owner, ttl)
    {
      ok := key.Some? && now < key.value.expires && key.value.owner == owner;
      if ok {
        key := Some(Grant(owner, now + ttl as real));
      }
    }

    method EvalRelease(owner: nat) returns (ok: bool)
      modifies this`key
      ensures ok <==> Live(old(key), now).Some? && old(key).value.owner == owner
      ensures key == if ok then None else old(key)
      ensures (key, ok) == Release(old(key), now, owner)
    {
      ok := key.Some? && now < key.value.expires && key.value.owner == owner;
      if ok {
        key := None;
      }
    }
  }

  class SchedulerLeadership {
    const redis: Redis
    const token: nat
    const ttl: Seconds
    var leader: bool
    var leaseActive: bool

    constructor (redis: Redis, token: nat, ttlSeconds: int)
      ensures this.redis == redis && this.token == token && ttl == Ttl(ttlSeconds)
      ensures !leader && !leaseActive
    {
      this.redis, this.token := redis, token;
      ttl := if ttlSeconds < MIN_TTL then MIN_TTL else ttlSeconds;
      leader, leaseActive := false, false;
    }

    /** Undisturbed, a refresh leads exactly when the key is free or ours, and
        then holds it for a full TTL; a Redis error pauses the jobs. */
    method Refresh(setFails: bool, renewFails: bool) returns (r: bool)
      modifies this, redis`key
      ensures leader == leaseActive == r
      ensures r ==> Live(redis.key, redis.now) == Some(Grant(token, redis.now + ttl as real))
      ensures !r ==> redis.key == old(redis.key)
      ensures r <==> !setFails && match Live(old(redis.key), redis.now)
                                  case None => true
                                  case Some(g) => g.owner == token && !renewFails
    {
      if setFails {
        leader, leaseActive := false, false;
        return false;
      }
      var acquired := redis.Set(token, ttl);
      if !acquired {
        if renewFails {
          leader, leaseActive := false, false;
          return false;
        }
        acquired := redis.EvalRenew(token, ttl);
      }
      leader, leaseActive := acquired, acquired;
      r := acquired;
    }

    method Stop(fails: bool)
      modifies this, redis`key
      ensures !leader && !leaseActive
      ensures redis.key == if old(leaseActive) && !fails then Release(old(redis.key), redis.now, token).0 else old(redis.key)
    {
      if leaseActive && !fails {
        var deleted := redis.EvalRelease(token);
      }
      leaseActive := false;
      leader := false;
    }
  }

  // --- Many processes ----------------------------------------------------------

  /** Where a refresh is: between calls, refused by SET and about to renew, or
      answered and about to write the flags. */
  datatype Call = Idle | Asked | Answered(ok: bool)

  /** `granted` is when Redis last granted this process the key, forgotten when
      its own release deletes it; `stopping` is the time between that release
      and the flags being cleared. */
  datatype Proc = Proc(leader: bool, leaseActive: bool, call: Call, stopping: bool, granted: Option<real>)

  datatype World = World(ttl: int, now: real, key: Option<Grant>, procs: seq<Proc>)

  datatype Step =
    | Tick(elapsed: real)
    | TrySet(p: nat)
    | TryRenew(p: nat)
    | Record(p: nat)
    | Fail(p: nat)
    | StopRelease(p: nat, reached: bool)
    | StopRecord(p: nat)

  function Update(w: World, p: nat, key: Option<Grant>, proc: Proc): World
    requires p < |w.procs|
  {
    w.(key := key, procs := w.procs[p := proc])
  }

  /** A step that is not due changes nothing. A failure can strike at any point
      of a call, also after Redis has carried it out. */
  function Next(w: World, s: Step): World {
    match s
    case Tick(elapsed) => if elapsed < 0.0 then w else w.(now := w.now + elapsed)
    case TrySet(p) =>
      if p >= |w.procs| || w.procs[p].call != Idle then w
      else
        var (key, ok) := SetNx(w.key, w.now, p, w.ttl);
        Update(w, p, key, if ok then w.procs[p].(call := Answered(true), granted := Some(w.now)) else w.procs[p].(call := Asked))
    case TryRenew(p) =>
      if p >= |w.procs| || w.procs[p].call != Asked then w
      else
        var (key, ok) := Renew(w.key, w.now, p, w.ttl);
        Update(w, p, key, w.procs[p].(call := Answered(ok), granted := if ok then Some(w.now) else w.procs[p].granted))
    case Record(p) =>
      if p >= |w.procs| || !w.procs[p].call.Answered? then w
      else
        var ok := w.procs[p].call.ok;
        Update(w, p, w.key, w.procs[p].(leader := ok, leaseActive := ok, call := Idle))
    case Fail(p) =>
      if p >= |w.procs| then w
      else Update(w, p, w.key, w.procs[p].(leader := false, leaseActive := false, call := Idle))
    case StopRelease(p, reached) =>
      if p >= |w.procs| then w
      else if !w.procs[p].leaseActive || !reached then Update(w, p, w.key, w.procs[p].(stopping := true))
      else
        var (key, ok) := Release(w.key, w.now, p);
        Update(w, p, key, w.procs[p].(stopping := true, granted := if ok then None else w.procs[p].granted))
    case StopRecord(p) =>
      if p >= |w.procs| then w
      else Update(w, p, w.key, w.procs[p].(leader := false, leaseActive := false, stopping := false))
  }

  function Run(w: World, steps: seq<Step>): World {
    if steps == [] then w else Next(Run(w, steps[..|steps| - 1]), steps[|steps| - 1])
  }

  const FRESH_PROC := Proc(false, false, Idle, false, None)

  function Start(ttlSeconds: int, procs: nat): World {
    World(Ttl(ttlSeconds), 0.0, None, seq(procs, p => FRESH_PROC))
  }

  // --- What the steps come to -------------------------------------------------------

  /** The whole of a refresh nobody gets in between of: ask, ask again to renew if
      the key was taken, note the answer. */
  function Refreshed(w: World, p: nat): World {
    var asked := Next(w, TrySet(p));
    Next(if p < |asked.procs| && asked.procs[p].call == Asked then Next(asked, TryRenew(p)) else asked, Record(p))
  }

  /** It leads, for a full TTL, exactly when the key was free, run out or the
      process's own; if not it leads no more and the key is left alone. */
  lemma RefreshLeadsIff(w: World, p: nat)
    requires p < |w.procs| && w.procs[p].call == Idle
    ensures var after := Refreshed(w, p);
            var leads := match w.key case None => true case Some(g) => g.expires <= w.now || g.owner == p;
            && after == w.(key := after.key, procs := w.procs[p := after.procs[p]])
            && after.procs[p] == w.procs[p].(leader := leads, leaseActive := leads,
                                             granted := if leads then Some(w.now) else w.procs[p].granted)
            && after.key == if leads then Some(Grant(p, w.now + w.ttl as real)) else w.key
  {
  }

  /** While a call is out no other is made; an error ends it and leadership with
      it, whatever Redis holds; and time only passes. */
  lemma OneCallAtATime(w: World, p: nat, elapsed: real)
    requires p < |w.procs| && 0.0 <= elapsed
    ensures Next(w, Tick(elapsed)) == w.(now := w.now + elapsed)
    ensures w.procs[p].call != Idle ==> Next(w, TrySet(p)) == w
    ensures Next(w, Fail(p)) == w.(procs := w.procs[p := w.procs[p].(leader := false, leaseActive := false, call := Idle)])
  {
  }

  /** Stopping deletes the key exactly if Redis is reached while the process
      believes in its lease and still owns it; the flags are cleared only after. */
  lemma StopReleasesIff(w: World, p: nat, reached: bool)
    requires p < |w.procs|
    ensures var released, after := Next(w, StopRelease(p, reached)), Next(Next(w, StopRelease(p, reached)), StopRecord(p));
            var deletes := reached && w.procs[p].leaseActive && w.key.Some? && w.now < w.key.value.expires && w.key.value.owner == p;
            && released.key == (if deletes then None else w.key)
            && released.procs == w.procs[p := w.procs[p].(stopping := true, granted := if deletes then None else w.procs[p].granted)]
            && after == released.(procs := w.procs[p := released.procs[p].(leader := false, leaseActive := false, stopping := false)])
  {
  }

  // --- Safety --------------------------------------------------------------------

  /** An unreleased grant younger than the TTL. */
  ghost predicate Fresh(w: World, p: nat) {
    p < |w.procs| && w.procs[p].granted.Some? && w.now < w.procs[p].granted.value + w.ttl as real
  }

  /** Redis holds the key for exactly the process whose grant is fresh. */
  ghost predicate Inv(w: World) {
    && MIN_TTL <= w.ttl
    && (forall p: nat :: p < |w.procs| && w.procs[p].granted.Some? ==> w.procs[p].granted.value <= w.now)
    && (forall p: nat :: Fresh(w, p) ==> w.key == Some(Grant(p, w.procs[p].granted.value + w.ttl as real)))
  }

  lemma NextKeeps(w: World, s: Step)
    requires Inv(w)
    ensures Inv(Next(w, s))
  {
    var after := Next(w, s);
    forall p: nat | Fresh(after, p)
      ensures after.key == Some(Grant(p, after.procs[p].granted.value + after.ttl as real))
    {
      assert after.procs[p] == w.procs[p] ==> Fresh(w, p);
      if !s.Tick? && p == s.p && after.procs[p].granted == w.procs[p].granted {
        assert Fresh(w, p);
      }
    }
  }

  lemma {:induction false} RunKeeps(w: World, steps: seq<Step>)
    requires Inv(w)
    ensures Inv(Run(w, steps))
  {
    if steps != [] {
      RunKeeps(w, steps[..|steps| - 1]);
      NextKeeps(Run(w, steps[..|steps| - 1]), steps[|steps| - 1]);
    }
  }

  /** Over every interleaving at most one process holds an unreleased grant
      younger than the TTL, so of two that both report leadership one is going
      by a grant that has run out or that it has itself released. */
  lemma AtMostOneFreshGrant(ttlSeconds: int, procs: nat, steps: seq<Step>, p: nat, q: nat)
    ensures var w := Run(Start(ttlSeconds, procs), steps);
            Fresh(w, p) && Fresh(w, q) ==> p == q
  {
    RunKeeps(Start(ttlSeconds, procs), steps);
  }

  /** A live lease ends only by running out or by its owner's own release; in
      particular stop() never deletes another process's lease. */
  lemma OnlyTheOwnerEndsALease(w: World, s: Step)
    requires MIN_TTL <= w.ttl && Live(w.key, w.now).Some?
    requires match Live(Next(w, s).key, Next(w, s).now)
             case None => true
             case Some(g) => g.owner != w.key.value.owner
    ensures (s.Tick? && w.key.value.expires <= Next(w, s).now) || (s.StopRelease? && s.p == w.key.value.owner)
  {
  }

  // --- Two leaders at once ---------------------------------------------------------

  /** The stopping thread waits for the heartbeat to end before it releases, and
      nothing refreshes until the flags are cleared. */
  predicate Orderly(w: World, s: Step) {
    match s
    case TrySet(p) => p < |w.procs| ==> !w.procs[p].stopping
    case StopRelease(p, _) => p < |w.procs| ==> w.procs[p].call == Idle
    case _ => true
  }

  ghost predicate OrderlyRun(w: World, steps: seq<Step>) {
    steps != [] ==> OrderlyRun(w, steps[..|steps| - 1]) && Orderly(Run(w, steps[..|steps| - 1]), steps[|steps| - 1])
  }

  /** Without a grant one leads only while stopping. */
  ghost predicate FlagsOk(proc: Proc) {
    && (proc.stopping ==> proc.call == Idle)
    && (proc.granted.None? && !proc.stopping ==> !proc.leader && proc.call != Answered(true))
    && (proc.leaseActive == proc.leader)
  }

  ghost predicate AllFlagsOk(w: World) {
    forall p :: 0 <= p < |w.procs| ==> FlagsOk(w.procs[p])
  }

  lemma {:induction false} OrderlyFlags(w: World, steps: seq<Step>)
    requires AllFlagsOk(w) && OrderlyRun(w, steps)
    ensures AllFlagsOk(Run(w, steps))
  {
    if steps != [] {
      OrderlyFlags(w, steps[..|steps| - 1]);
      var mid, s := Run(w, steps[..|steps| - 1]), steps[|steps| - 1];
      forall p | 0 <= p < |Next(mid, s).procs|
        ensures FlagsOk(Next(mid, s).procs[p])
      {
        assert FlagsOk(mid.procs[p]);
      }
    }
  }

  /** Every leader's last grant is younger than the TTL, as heartbeats every
      third of it are there to ensure. */
  ghost predicate Timely(w: World) {
    forall p: nat :: p < |w.procs| && w.procs[p].leader && w.procs[p].granted.Some? ==> Fresh(w, p)
  }

  /** In orderly runs two processes report leadership at once only if one of
      them is overdue or inside stop(), released and not yet cleared. */
  lemma TwoLeadersMeansOverdueOrStopping(ttlSeconds: int, procs: nat, steps: seq<Step>, p: nat, q: nat, w: World)
    requires w == Run(Start(ttlSeconds, procs), steps) && OrderlyRun(Start(ttlSeconds, procs), steps)
    requires p < |w.procs| && q < |w.procs| && p != q && w.procs[p].leader && w.procs[q].leader
    ensures !Timely(w) || w.procs[p].stopping || w.procs[q].stopping
  {
    RunKeeps(Start(ttlSeconds, procs), steps);
    OrderlyFlags(Start(ttlSeconds, procs), steps);
    assert FlagsOk(w.procs[p]) && FlagsOk(w.procs[q]);
    assert Timely(w) && !w.procs[p].stopping ==> Fresh(w, p);
    assert Timely(w) && !w.procs[q].stopping ==> Fresh(w, q);
  }

  lemma RunAppend(w: World, steps: seq<Step>, last: Step)
    ensures Run(w, steps + [last]) == Next(Run(w, steps), last)
  {
    assert (steps + [last])[..|steps|] == steps;
  }

  lemma OrderlyAppend(w: World, steps: seq<Step>, last: Step)
    ensures OrderlyRun(w, steps + [last]) <==> OrderlyRun(w, steps) && Orderly(Run(w, steps), last)
  {
    assert (steps + [last])[..|steps|] == steps;
  }

  ghost predicate BothLead(w: World) {
    |w.procs| == 2 && w.procs[0].leader && w.procs[1].leader
  }

  /** Each way is real. An overdue leader: nobody renews for a whole TTL. */
  lemma OverdueLeaderOverlaps()
    ensures var steps := [TrySet(0)] + [Record(0)] + [Tick(9.0)] + [TrySet(1)] + [Record(1)];
            OrderlyRun(Start(9, 2), steps) && BothLead(Run(Start(9, 2), steps))
  {
    var w, s1 := Start(9, 2), [TrySet(0)];
    assert s1[..0] == [];
    var s2, s3 := s1 + [Record(0)], s1 + [Record(0)] + [Tick(9.0)];
    RunAppend(w, s1, Record(0)); OrderlyAppend(w, s1, Record(0));
    RunAppend(w, s2, Tick(9.0)); OrderlyAppend(w, s2, Tick(9.0));
    RunAppend(w, s3, TrySet(1)); OrderlyAppend(w, s3, TrySet(1));
    RunAppend(w, s3 + [TrySet(1)], Record(1)); OrderlyAppend(w, s3 + [TrySet(1)], Record(1));
  }

  /** A leader inside stop(): the key is deleted before the flag is cleared. No
      time passes and nobody is overdue. */
  lemma StoppingLeaderOverlaps()
    ensures var steps := [TrySet(0)] + [Record(0)] + [StopRelease(0, true)] + [TrySet(1)] + [Record(1)];
            OrderlyRun(Start(9, 2), steps) && BothLead(Run(Start(9, 2), steps)) && Timely(Run(Start(9, 2), steps))
  {
    var w, s1 := Start(9, 2), [TrySet(0)];
    assert s1[..0] == [];
    var s2, s3 := s1 + [Record(0)], s1 + [Record(0)] + [StopRelease(0, true)];
    RunAppend(w, s1, Record(0)); OrderlyAppend(w, s1, Record(0));
    RunAppend(w, s2, StopRelease(0, true)); OrderlyAppend(w, s2, StopRelease(0, true));
    RunAppend(w, s3, TrySet(1)); OrderlyAppend(w, s3, TrySet(1));
    RunAppend(w, s3 + [TrySet(1)], Record(1)); OrderlyAppend(w, s3 + [TrySet(1)], Record(1));
  }

  /** The wait for the heartbeat gives up after three seconds. A refresh granted
      before the release and recorded after it leaves the process reporting
      leadership after stop() has returned, with no lease and no heartbeat. */
  lemma LateRefreshOutlivesStop()
    ensures var steps := [TrySet(0)] + [Record(0)] + [TrySet(0)] + [TryRenew(0)] + [StopRelease(0, true)] + [StopRecord(0)] + [Record(0)];
            var w := Run(Start(9, 2), steps);
            w.key == None && |w.procs| == 2 && w.procs[0].leader && !w.procs[0].stopping && w.procs[0].call == Idle
  {
    var w, s1 := Start(9, 2), [TrySet(0)];
    assert s1[..0] == [];
    var s2 := s1 + [Record(0)];
    var s3 := s2 + [TrySet(0)];
    var s4 := s3 + [TryRenew(0)];
    var s5 := s4 + [StopRelease(0, true)];
    var s6 := s5 + [StopRecord(0)];
    RunAppend(w, s1, Record(0));
    RunAppend(w, s2, TrySet(0));
    RunAppend(w, s3, TryRenew(0));
    RunAppend(w, s4, StopRelease(0, true));
    RunAppend(w, s5, StopRecord(0));
    RunAppend(w, s6, Record(0));
  }

  /** A refresh that Redis has granted, or can still grant, to be recorded. */
  ghost predicate GrantPending(w: World, p: nat)
    requires p < |w.procs|
  {
    || w.procs[p].call == Answered(true)
    || (w.procs[p].call == Asked && Live(w.key, w.now).Some? && w.key.value.owner == p)
  }

  ghost predicate NoNewRefresh(steps: seq<Step>, p: nat) {
    forall k :: 0 <= k < |steps| ==> steps[k] != TrySet(p)
  }

  ghost predicate LeadsAfter(w: World, steps: seq<Step>, p: nat) {
    NoNewRefresh(steps, p) && p < |Run(w, steps).procs| && Run(w, steps).procs[p].leader
  }

  lemma {:induction false} NothingPendingStaysOut(w: World, steps: seq<Step>, p: nat)
    requires p < |w.procs| && !w.procs[p].leader && !GrantPending(w, p) && NoNewRefresh(steps, p)
    ensures var after := Run(w, steps);
            p < |after.procs| && !after.procs[p].leader && !GrantPending(after, p)
  {
    if steps != [] {
      var front := steps[..|steps| - 1];
      assert forall k :: 0 <= k < |front| ==> front[k] == steps[k];
      NothingPendingStaysOut(w, front, p);
      assert steps[|steps| - 1] != TrySet(p);
    }
  }

  /** Once stop() has cleared the flag a process can report leadership again
      without a new refresh exactly when a grant was still pending. */
  lemma LeadsAfterStopIff(w: World, p: nat)
    requires p < |w.procs|
    ensures (exists steps :: LeadsAfter(Next(w, StopRecord(p)), steps, p)) <==> GrantPending(w, p)
  {
    var stopped := Next(w, StopRecord(p));
    if GrantPending(w, p) {
      var renew, record: seq<Step> := [TryRenew(p)], [Record(p)];
      assert renew[..0] == [] && record[..0] == [];
      if w.procs[p].call == Asked {
        RunAppend(stopped, renew, Record(p));
        assert LeadsAfter(stopped, renew + [Record(p)], p);
      } else {
        assert LeadsAfter(stopped, record, p);
      }
    } else {
      forall steps | NoNewRefresh(steps, p)
        ensures !LeadsAfter(stopped, steps, p)
      {
        NothingPendingStaysOut(stopped, steps, p);
      }
    }
  }

  /** In orderly runs, where the heartbeat has ended before the release, nothing
      is pending between release and clearing: stop() is final. */
  lemma OrderlyStopIsFinal(ttlSeconds: int, procs: nat, steps: seq<Step>, p: nat, w: World, later: seq<Step>)
    requires w == Run(Start(ttlSeconds, procs), steps) && OrderlyRun(Start(ttlSeconds, procs), steps)
    requires p < |w.procs| && w.procs[p].stopping && NoNewRefresh(later, p)
    ensures var after := Run(Next(w, StopRecord(p)), later); p < |after.procs| && !after.procs[p].leader
  {
    OrderlyFlags(Start(ttlSeconds, procs), steps);
    assert FlagsOk(w.procs[p]);
    NothingPendingStaysOut(Next(w, StopRecord(p)), later, p);
  }

  // --- Heartbeats ------------------------------------------------------------------

  /** The wait between two refreshes. */
  function HeartbeatInterval(ttl: int): real {
    if ttl as real / 3.0 < 2.0 then 2.0 else ttl as real / 3.0
  }
}
