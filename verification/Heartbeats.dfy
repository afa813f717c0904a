/** Heartbeats against the lease: when refreshing every third of the TTL keeps
    two processes from leading at once. */
module Heartbeats {
  import opened Wrappers
  import opened Lease

  /** When a process's latest refresh began, and when one was last recorded. */
  datatype Pulse = Pulse(begun: real, recorded: real)

  function PulseOf(w: World, steps: seq<Step>, p: nat): Pulse {
    if steps == [] then Pulse(w.now, w.now)
    else
      var before, last := Run(w, steps[..|steps| - 1]), steps[|steps| - 1];
      NextPulse(before, last, p, PulseOf(w, steps[..|steps| - 1], p))
  }

  function NextPulse(w: World, s: Step, p: nat, pulse: Pulse): Pulse {
    if p >= |w.procs| then pulse
    else if s == TrySet(p) && w.procs[p].call == Idle then pulse.(begun := w.now)
    else if s == Record(p) && w.procs[p].call.Answered? then pulse.(recorded := w.now)
    else pulse
  }

  /** The schedule, at one moment: a refresh under way is at most `takes` old,
      and a leader between refreshes recorded its last one at most an interval
      ago. */
  ghost predicate OnTime(w: World, p: nat, pulse: Pulse, takes: real)
    requires p < |w.procs|
  {
    if w.procs[p].call != Idle then w.now <= pulse.begun + takes
    else w.procs[p].leader ==> w.now <= pulse.recorded + HeartbeatInterval(w.ttl)
  }

  ghost predicate AllOnTime(w: World, steps: seq<Step>, takes: real) {
    forall p: nat :: p < |Run(w, steps).procs| ==> OnTime(Run(w, steps), p, PulseOf(w, steps, p), takes)
  }

  /** Every heartbeat of the run keeps the schedule: the next refresh begins at
      most one interval after the last was recorded, and every refresh is
      recorded, or has failed, within `takes`. */
  ghost predicate Scheduled(w: World, steps: seq<Step>, takes: real) {
    AllOnTime(w, steps, takes) && (steps != [] ==> Scheduled(w, steps[..|steps| - 1], takes))
  }

  /** How old a leader's grant can be, told by its pulse. */
  ghost predicate PulseOk(w: World, p: nat, pulse: Pulse, takes: real)
    requires p < |w.procs|
  {
    var proc := w.procs[p];
    && pulse.begun <= w.now && pulse.recorded <= w.now
    && (proc.call == Answered(true) && proc.granted.Some? ==> pulse.begun <= proc.granted.value)
    && (proc.leader && proc.call != Idle ==> pulse.begun <= pulse.recorded + HeartbeatInterval(w.ttl))
    && (proc.leader && proc.granted.Some? ==>
          pulse.recorded <= proc.granted.value + takes || (proc.call != Idle && pulse.begun <= proc.granted.value))
  }

  lemma StepKeepsPulse(w: World, s: Step, p: nat, pulse: Pulse, takes: real)
    requires p < |w.procs| && MIN_TTL <= w.ttl && PulseOk(w, p, pulse, takes) && OnTime(w, p, pulse, takes)
    ensures p < |Next(w, s).procs| && PulseOk(Next(w, s), p, NextPulse(w, s, p, pulse), takes)
  {
  }

  lemma {:induction false} RunKeepsPulse(w: World, steps: seq<Step>, p: nat, takes: real)
    requires MIN_TTL <= w.ttl && p < |w.procs| && w.procs[p] == FRESH_PROC && Scheduled(w, steps, takes)
    ensures p < |Run(w, steps).procs| && Run(w, steps).ttl == w.ttl
    ensures PulseOk(Run(w, steps), p, PulseOf(w, steps, p), takes)
  {
    if steps != [] {
      var front, last := steps[..|steps| - 1], steps[|steps| - 1];
      RunKeepsPulse(w, front, p, takes);
      assert OnTime(Run(w, front), p, PulseOf(w, front, p), takes) by {
        assert AllOnTime(w, front, takes);
      }
      StepKeepsPulse(Run(w, front), last, p, PulseOf(w, front, p), takes);
    }
  }

  /** A grant is at most as old as the refresh that got it took, one interval,
      and the refresh now under way. */
  lemma OnTimeIsFresh(w: World, p: nat, pulse: Pulse, takes: real)
    requires p < |w.procs| && PulseOk(w, p, pulse, takes) && OnTime(w, p, pulse, takes) && 0.0 <= takes
    requires HeartbeatInterval(w.ttl) + 2.0 * takes < w.ttl as real
    ensures w.procs[p].leader && w.procs[p].granted.Some? ==> Fresh(w, p)
  {
  }

  /** In every state of every run that keeps the schedule each leader's grant is
      younger than the TTL, as long as two refreshes and an interval fit into it. */
  lemma ScheduledIsTimely(ttlSeconds: int, procs: nat, steps: seq<Step>, takes: real)
    requires Scheduled(Start(ttlSeconds, procs), steps, takes) && 0.0 <= takes
    requires HeartbeatInterval(Ttl(ttlSeconds)) + 2.0 * takes < Ttl(ttlSeconds) as real
    ensures Timely(Run(Start(ttlSeconds, procs), steps))
  {
    var w0 := Start(ttlSeconds, procs);
    var w := Run(w0, steps);
    ProcsStay(w0, steps);
    forall p: nat | p < |w.procs| && w.procs[p].leader && w.procs[p].granted.Some?
      ensures Fresh(w, p)
    {
      RunKeepsPulse(w0, steps, p, takes);
      assert AllOnTime(w0, steps, takes);
      OnTimeIsFresh(w, p, PulseOf(w0, steps, p), takes);
    }
  }

  lemma {:induction false} ProcsStay(w: World, steps: seq<Step>)
    ensures |Run(w, steps).procs| == |w.procs|
  {
    if steps != [] {
      ProcsStay(w, steps[..|steps| - 1]);
    }
  }

  lemma ThirdOfTheTtl(ttl: int, takes: real)
    requires MIN_TTL <= ttl
    ensures HeartbeatInterval(ttl) * 3.0 == ttl as real
    ensures HeartbeatInterval(ttl) + 2.0 * takes < ttl as real <==> takes * 3.0 < ttl as real
  {
  }

  /** The promise of the lease: while every process heartbeats on schedule, and
      a refresh takes less than a third of the TTL, which is the interval, two
      processes never report leadership at once unless one of them is inside
      stop(). */
  lemma HeartbeatsKeepOneLeader(ttlSeconds: int, procs: nat, steps: seq<Step>, takes: real, w: World, p: nat, q: nat)
    requires w == Run(Start(ttlSeconds, procs), steps) && OrderlyRun(Start(ttlSeconds, procs), steps)
    requires Scheduled(Start(ttlSeconds, procs), steps, takes) && 0.0 <= takes
    requires takes * 3.0 < Ttl(ttlSeconds) as real
    requires p < |w.procs| && q < |w.procs| && p != q && w.procs[p].leader && w.procs[q].leader
    ensures w.procs[p].stopping || w.procs[q].stopping
  {
    ThirdOfTheTtl(Ttl(ttlSeconds), takes);
    ScheduledIsTimely(ttlSeconds, procs, steps, takes);
    TwoLeadersMeansOverdueOrStopping(ttlSeconds, procs, steps, p, q, w);
  }

  // --- No larger bound would do -----------------------------------------------------

  lemma ScheduledAppend(w: World, steps: seq<Step>, last: Step, takes: real)
    ensures Scheduled(w, steps + [last], takes) <==> Scheduled(w, steps, takes) && AllOnTime(w, steps + [last], takes)
  {
    assert (steps + [last])[..|steps|] == steps;
  }

  lemma PulseAppend(w: World, steps: seq<Step>, last: Step, p: nat)
    ensures PulseOf(w, steps + [last], p) == NextPulse(Run(w, steps), last, p, PulseOf(w, steps, p))
  {
    assert (steps + [last])[..|steps|] == steps;
  }

  /** One more step of a run of two processes, with its schedule. */
  ghost predicate At(w0: World, steps: seq<Step>, takes: real, w: World, first: Pulse, second: Pulse) {
    && Run(w0, steps) == w && |w.procs| == 2
    && PulseOf(w0, steps, 0) == first && PulseOf(w0, steps, 1) == second
    && Scheduled(w0, steps, takes) && OrderlyRun(w0, steps)
  }

  lemma BothOnTime(w0: World, steps: seq<Step>, takes: real, w: World, first: Pulse, second: Pulse)
    requires Run(w0, steps) == w && |w.procs| == 2
    requires PulseOf(w0, steps, 0) == first && PulseOf(w0, steps, 1) == second
    requires OnTime(w, 0, first, takes) && OnTime(w, 1, second, takes)
    ensures AllOnTime(w0, steps, takes)
  {
    forall p: nat | p < |Run(w0, steps).procs|
      ensures OnTime(Run(w0, steps), p, PulseOf(w0, steps, p), takes)
    {
      assert p == 0 || p == 1;
    }
  }

  lemma Extend(w0: World, steps: seq<Step>, takes: real, w: World, first: Pulse, second: Pulse, s: Step,
               after: World, first1: Pulse, second1: Pulse)
    requires At(w0, steps, takes, w, first, second) && Orderly(w, s)
    requires after == Next(w, s) && |after.procs| == 2
    requires first1 == NextPulse(w, s, 0, first) && second1 == NextPulse(w, s, 1, second)
    requires OnTime(after, 0, first1, takes) && OnTime(after, 1, second1, takes)
    ensures At(w0, steps + [s], takes, after, first1, second1)
  {
    RunAppend(w0, steps, s);
    OrderlyAppend(w0, steps, s);
    PulseAppend(w0, steps, s, 0);
    PulseAppend(w0, steps, s, 1);
    BothOnTime(w0, steps + [s], takes, after, first1, second1);
    ScheduledAppend(w0, steps, s, takes);
  }

  const LEADING := Proc(true, true, Idle, false, Some(0.0))
  const HELD := Some(Grant(0, 9.0))

  const FIRST_GRANT := [TrySet(0)] + [Tick(3.0)]
  const AFTER_FIRST_GRANT := World(9, 3.0, HELD, [FRESH_PROC.(call := Answered(true), granted := Some(0.0)), FRESH_PROC])
  const FIRST_BEAT := FIRST_GRANT + [Record(0)] + [Tick(3.0)]
  const AFTER_FIRST_BEAT := World(9, 6.0, HELD, [LEADING, FRESH_PROC])
  const ZERO := Pulse(0.0, 0.0)

  lemma FirstGrant()
    ensures At(Start(9, 2), FIRST_GRANT, 3.0, AFTER_FIRST_GRANT, ZERO, ZERO)
  {
    var w0 := Start(9, 2);
    assert w0.procs == [FRESH_PROC, FRESH_PROC];
    assert At(w0, [], 3.0, w0, ZERO, ZERO);
    var w1 := AFTER_FIRST_GRANT.(now := 0.0);
    Extend(w0, [], 3.0, w0, ZERO, ZERO, TrySet(0), w1, ZERO, ZERO);
    assert [] + [TrySet(0)] == [TrySet(0)];
    Extend(w0, [TrySet(0)], 3.0, w1, ZERO, ZERO, Tick(3.0), AFTER_FIRST_GRANT, ZERO, ZERO);
  }

  lemma FirstBeat()
    ensures At(Start(9, 2), FIRST_BEAT, 3.0, AFTER_FIRST_BEAT, Pulse(0.0, 3.0), ZERO)
  {
    var w0, w1, first := Start(9, 2), AFTER_FIRST_BEAT.(now := 3.0), Pulse(0.0, 3.0);
    FirstGrant();
    Extend(w0, FIRST_GRANT, 3.0, AFTER_FIRST_GRANT, ZERO, ZERO, Record(0), w1, first, ZERO);
    Extend(w0, FIRST_GRANT + [Record(0)], 3.0, w1, first, ZERO, Tick(3.0), AFTER_FIRST_BEAT, first, ZERO);
  }

  const ASKED_AGAIN := World(9, 9.0, HELD, [LEADING.(call := Asked), FRESH_PROC])

  lemma SecondAsk(w0: World, steps: seq<Step>)
    requires At(w0, steps, 3.0, AFTER_FIRST_BEAT, Pulse(0.0, 3.0), ZERO)
    ensures At(w0, steps + [TrySet(0)] + [Tick(3.0)], 3.0, ASKED_AGAIN, Pulse(6.0, 3.0), ZERO)
  {
    var w1, p := ASKED_AGAIN.(now := 6.0), Pulse(6.0, 3.0);
    Extend(w0, steps, 3.0, AFTER_FIRST_BEAT, Pulse(0.0, 3.0), ZERO, TrySet(0), w1, p, ZERO);
    Extend(w0, steps + [TrySet(0)], 3.0, w1, p, ZERO, Tick(3.0), ASKED_AGAIN, p, ZERO);
  }

  lemma OtherTakesOver(w0: World, steps: seq<Step>)
    requires At(w0, steps, 3.0, ASKED_AGAIN, Pulse(6.0, 3.0), ZERO)
    ensures var after := steps + [TrySet(1)] + [Record(1)];
            OrderlyRun(w0, after) && Scheduled(w0, after, 3.0) && BothLead(Run(w0, after))
  {
    var p := Pulse(6.0, 3.0);
    var granted := FRESH_PROC.(call := Answered(true), granted := Some(9.0));
    var w1 := World(9, 9.0, Some(Grant(1, 18.0)), [LEADING.(call := Asked), granted]);
    Extend(w0, steps, 3.0, ASKED_AGAIN, p, ZERO, TrySet(1), w1, p, Pulse(9.0, 0.0));
    var w2 := w1.(procs := [LEADING.(call := Asked), granted.(call := Idle, leader := true, leaseActive := true)]);
    Extend(w0, steps + [TrySet(1)], 3.0, w1, p, Pulse(9.0, 0.0), Record(1), w2, p, Pulse(9.0, 9.0));
  }

  /** Equality is too much: at nine seconds, with refreshes that take three, two
      processes that keep the schedule exactly both lead. */
  lemma AThirdIsTooLong()
    ensures var steps := FIRST_BEAT + [TrySet(0)] + [Tick(3.0)] + [TrySet(1)] + [Record(1)];
            && OrderlyRun(Start(9, 2), steps) && Scheduled(Start(9, 2), steps, 3.0)
            && HeartbeatInterval(9) + 2.0 * 3.0 == 9.0
            && BothLead(Run(Start(9, 2), steps))
  {
    FirstBeat();
    SecondAsk(Start(9, 2), FIRST_BEAT);
    OtherTakesOver(Start(9, 2), FIRST_BEAT + [TrySet(0)] + [Tick(3.0)]);
  }
}
