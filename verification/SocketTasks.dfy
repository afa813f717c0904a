/** The coroutines of market/websocket_manager.py, interleaved. A task runs alone
    up to its next await, which is a send; every send may be overtaken by other
    tasks. A task's step is what it does from one send to the next. */
module SocketTasks {
  import opened Wrappers
  import opened Sockets

  /** Sending one frame to a copy of some sockets, in the copy's order, or
      replaying: what is left of the present kind's list, and the kinds to come. */
  datatype Task =
    | Sending(user: Option<nat>, frame: Frame, order: seq<nat>, sends: nat, failed: seq<nat>, finished: bool)
    | Replaying(ws: nat, queue: seq<Frame>, kinds: seq<Kind>)

  /** A send that was made when so many frames had been broadcast. */
  datatype Sent = Sent(task: nat, ws: nat, frame: Frame, ok: bool, heard: nat)

  datatype Server = Server(registry: Registry, cache: seq<Frame>, history: seq<Frame>, tasks: seq<Task>, sent: seq<Sent>)

  const IDLE_SERVER := Server(NO_SOCKETS, [], [], [], [])

  /** The next frame to replay is listed when its kind's turn comes. */
  function Listed(cache: seq<Frame>, queue: seq<Frame>, kinds: seq<Kind>): (seq<Frame>, seq<Kind>)
    decreases |kinds|
  {
    if queue != [] || kinds == [] then (queue, kinds) else Listed(cache, OfKind(cache, kinds[0]), kinds[1..])
  }

  /** A task goes on to its next send, or to its end. */
  function Proceed(s: Server, t: nat, ok: bool): Server
    requires t < |s.tasks|
  {
    match s.tasks[t]
    case Sending(user, frame, order, sends, failed, finished) =>
      if sends < |order| then
        var task := s.tasks[t].(sends := sends + 1, failed := if ok then failed else failed + [order[sends]]);
        s.(tasks := s.tasks[t := task], sent := s.sent + [Sent(t, order[sends], frame, ok, |s.history|)])
      else if finished then s
      else s.(registry := Pruned(s.registry, failed, user), tasks := s.tasks[t := s.tasks[t].(finished := true)])
    case Replaying(ws, queue, kinds) =>
      var (left, later) := Listed(s.cache, queue, kinds);
      if left == [] then s.(tasks := s.tasks[t := Replaying(ws, [], [])])
      else
        s.(tasks := s.tasks[t := Replaying(ws, left[1..], later)],
           sent := s.sent + [Sent(t, ws, left[0], ok, |s.history|)])
  }

  datatype Step =
    | Accept(ws: nat, user: nat, ok: bool)
    | Broadcast(frame: Frame, order: seq<nat>, ok: bool)
    | Tell(user: nat, frame: Frame, order: seq<nat>, ok: bool)
    | Leave(ws: nat, named: Option<nat>)
    | Resume(t: nat, ok: bool)

  function Heard(s: Server, frame: Frame): Server {
    s.(cache := Remember(s.cache, frame), history := s.history + [frame])
  }

  function Begun(s: Server, task: Task): Server {
    s.(tasks := s.tasks + [task])
  }

  function SendTo(user: Option<nat>, frame: Frame, order: seq<nat>): Task {
    Sending(user, frame, order, 0, [], false)
  }

  function Next(s: Server, step: Step): Server {
    match step
    case Accept(ws, user, ok) =>
      var joined := s.(registry := Connected(s.registry, ws, user));
      Proceed(Begun(joined, Replaying(ws, [], REPLAY_ORDER)), |s.tasks|, ok)
    case Broadcast(frame, order, ok) =>
      if order == [] then Heard(s, frame)
      else Proceed(Begun(Heard(s, frame), SendTo(None, frame, order)), |s.tasks|, ok)
    case Tell(user, frame, order, ok) =>
      if order == [] then s else Proceed(Begun(s, SendTo(Some(user), frame, order)), |s.tasks|, ok)
    case Leave(ws, named) => s.(registry := Disconnected(s.registry, ws, named))
    case Resume(t, ok) => if t < |s.tasks| then Proceed(s, t, ok) else s
  }

  ghost predicate NoRepeats(order: seq<nat>) {
    forall i, j :: 0 <= i < j < |order| ==> order[i] != order[j]
  }

  /** The order in which a copy is gone through. */
  ghost predicate Lists(order: seq<nat>, sockets: set<nat>) {
    NoRepeats(order) && forall ws :: ws in order <==> ws in sockets
  }

  /** Copies are of the sockets there are, and whoever comes or goes is named,
      if at all, by the right user. */
  ghost predicate Possible(s: Server, step: Step, userOf: nat -> nat) {
    match step
    case Accept(ws, user, ok) => user == userOf(ws)
    case Broadcast(frame, order, ok) => Lists(order, s.registry.active)
    case Tell(user, frame, order, ok) => Lists(order, SocketsOf(s.registry, user))
    case Leave(ws, named) => named.None? || named.value == userOf(ws)
    case Resume(t, ok) => t < |s.tasks|
  }

  function Run(steps: seq<Step>): Server {
    if steps == [] then IDLE_SERVER else Next(Run(steps[..|steps| - 1]), steps[|steps| - 1])
  }

  ghost predicate PossibleRun(steps: seq<Step>, userOf: nat -> nat) {
    steps == []
    || (PossibleRun(steps[..|steps| - 1], userOf) && Possible(Run(steps[..|steps| - 1]), steps[|steps| - 1], userOf))
  }

  // --- The indices at every await ------------------------------------------------------

  ghost predicate Belongs(r: Registry, userOf: nat -> nat) {
    forall ws :: ws in r.owner ==> r.owner[ws] == userOf(ws)
  }

  /** Only a user's own sockets are ever sent, or dropped by, that user's events. */
  ghost predicate TaskBelongs(task: Task, userOf: nat -> nat) {
    match task
    case Sending(user, frame, order, sends, failed, finished) =>
      && NoRepeats(order)
      && (user.Some? ==> forall ws :: ws in order ==> userOf(ws) == user.value)
      && (forall ws :: ws in failed ==> ws in order)
    case Replaying(ws, queue, kinds) => true
  }

  ghost predicate InOrder(s: Server, userOf: nat -> nat) {
    && Agree(s.registry) && Belongs(s.registry, userOf)
    && forall t :: 0 <= t < |s.tasks| ==> TaskBelongs(s.tasks[t], userOf)
  }

  lemma ProceedStaysInOrder(s: Server, t: nat, ok: bool, userOf: nat -> nat)
    requires t < |s.tasks| && InOrder(s, userOf)
    ensures InOrder(Proceed(s, t, ok), userOf)
  {
    var task := s.tasks[t];
    assert TaskBelongs(task, userOf);
    if task.Sending? && task.sends >= |task.order| && !task.finished {
      PrunedRemoves(s.registry, task.failed, task.user);
    }
  }

  lemma StepStaysInOrder(s: Server, step: Step, userOf: nat -> nat)
    requires InOrder(s, userOf) && Possible(s, step, userOf)
    ensures InOrder(Next(s, step), userOf)
  {
    match step
    case Accept(ws, user, ok) =>
      ConnectAgreesIff(s.registry, ws, user);
      var joined := s.(registry := Connected(s.registry, ws, user));
      ProceedStaysInOrder(Begun(joined, Replaying(ws, [], REPLAY_ORDER)), |s.tasks|, ok, userOf);
    case Broadcast(frame, order, ok) =>
      ProceedStaysInOrder(Begun(Heard(s, frame), SendTo(None, frame, order)), |s.tasks|, ok, userOf);
    case Tell(user, frame, order, ok) =>
      ProceedStaysInOrder(Begun(s, SendTo(Some(user), frame, order)), |s.tasks|, ok, userOf);
    case Leave(ws, named) =>
      DisconnectAgreesIff(s.registry, ws, named);
    case Resume(t, ok) =>
      ProceedStaysInOrder(s, t, ok, userOf);
  }

  lemma {:induction false} RunStaysInOrder(steps: seq<Step>, userOf: nat -> nat)
    requires PossibleRun(steps, userOf)
    ensures InOrder(Run(steps), userOf)
  {
    if steps != [] {
      RunStaysInOrder(steps[..|steps| - 1], userOf);
      StepStaysInOrder(Run(steps[..|steps| - 1]), steps[|steps| - 1], userOf);
    }
  }

  lemma OwnSockets(r: Registry, userOf: nat -> nat, user: nat)
    requires Agree(r) && Belongs(r, userOf)
    ensures SocketsOf(r, user) == set ws | ws in r.active && userOf(ws) == user
  {
    forall ws
      ensures ws in SocketsOf(r, user) <==> ws in r.active && userOf(ws) == user
    {
      assert ws in SocketsOf(r, user) <==> ws in r.owner && r.owner[ws] == user;
    }
  }

  /** At every await of every interleaving the three indices agree, and a user's
      events go to the user's own open sockets and to no others. */
  lemma IndicesAlwaysAgree(steps: seq<Step>, userOf: nat -> nat, r: Registry)
    requires PossibleRun(steps, userOf) && r == Run(steps).registry
    ensures Agree(r)
    ensures forall user :: SocketsOf(r, user) == set ws | ws in r.active && userOf(ws) == user
  {
    RunStaysInOrder(steps, userOf);
    forall user
      ensures SocketsOf(r, user) == set ws | ws in r.active && userOf(ws) == user
    {
      OwnSockets(r, userOf, user);
    }
  }

  // --- One task among others ------------------------------------------------------------

  /** Whom a task has sent to, and who of them could not be reached. */
  function SentBy(sent: seq<Sent>, t: nat): seq<nat> {
    if sent == [] then []
    else
      var last := sent[|sent| - 1];
      SentBy(sent[..|sent| - 1], t) + if last.task == t then [last.ws] else []
  }

  function FailedBy(sent: seq<Sent>, t: nat): seq<nat> {
    if sent == [] then []
    else
      var last := sent[|sent| - 1];
      FailedBy(sent[..|sent| - 1], t) + if last.task == t && !last.ok then [last.ws] else []
  }

  ghost predicate Accounted(s: Server, t: nat)
    requires t < |s.tasks|
  {
    var task := s.tasks[t];
    task.Sending? ==> task.sends <= |task.order| && SentBy(s.sent, t) == task.order[..task.sends] && FailedBy(s.sent, t) == task.failed
  }

  ghost predicate AllAccounted(s: Server) {
    && (forall t: nat :: t < |s.tasks| ==> Accounted(s, t))
    && (forall k :: 0 <= k < |s.sent| ==> s.sent[k].task < |s.tasks|)
  }

  lemma OneMoreSend(sent: seq<Sent>, last: Sent, t: nat)
    ensures SentBy(sent + [last], t) == SentBy(sent, t) + if last.task == t then [last.ws] else []
    ensures FailedBy(sent + [last], t) == FailedBy(sent, t) + if last.task == t && !last.ok then [last.ws] else []
  {
    assert (sent + [last])[..|sent|] == sent;
  }

  lemma {:induction false} NothingSentYet(sent: seq<Sent>, t: nat)
    requires forall k :: 0 <= k < |sent| ==> sent[k].task != t
    ensures SentBy(sent, t) == [] && FailedBy(sent, t) == []
  {
    if sent != [] {
      NothingSentYet(sent[..|sent| - 1], t);
    }
  }

  lemma BegunIsAccounted(s: Server, task: Task)
    requires AllAccounted(s) && (task.Sending? ==> task.sends == 0 && task.failed == [])
    ensures AllAccounted(Begun(s, task))
  {
    NothingSentYet(s.sent, |s.tasks|);
    forall t: nat | t < |s.tasks|
      ensures Accounted(Begun(s, task), t)
    {
      assert Accounted(s, t);
    }
  }

  lemma OthersStayAccounted(s: Server, after: Server, t: nat)
    requires AllAccounted(s) && t < |s.tasks| && |after.tasks| == |s.tasks| && after.tasks == s.tasks[t := after.tasks[t]]
    requires after.sent == s.sent
             || (|after.sent| == |s.sent| + 1 && after.sent == s.sent + [after.sent[|s.sent|]] && after.sent[|s.sent|].task == t)
    ensures forall i: nat :: i < |s.tasks| && i != t ==> Accounted(after, i)
  {
    forall i: nat | i < |s.tasks| && i != t
      ensures Accounted(after, i)
    {
      assert Accounted(s, i);
      if after.sent != s.sent {
        OneMoreSend(s.sent, after.sent[|s.sent|], i);
      }
    }
  }

  lemma SenderStaysAccounted(s: Server, t: nat, ok: bool)
    requires t < |s.tasks| && s.tasks[t].Sending? && Accounted(s, t)
    ensures Accounted(Proceed(s, t, ok), t)
  {
    var task := s.tasks[t];
    if task.sends < |task.order| {
      OneMoreSend(s.sent, Sent(t, task.order[task.sends], task.frame, ok, |s.history|), t);
      assert task.order[..task.sends + 1] == task.order[..task.sends] + [task.order[task.sends]];
    }
  }

  lemma ProceedIsAccounted(s: Server, t: nat, ok: bool)
    requires t < |s.tasks| && AllAccounted(s)
    ensures AllAccounted(Proceed(s, t, ok))
  {
    var after := Proceed(s, t, ok);
    assert Accounted(s, t);
    if s.tasks[t].Sending? {
      SenderStaysAccounted(s, t, ok);
    }
    OthersStayAccounted(s, after, t);
  }

  lemma StepIsAccounted(s: Server, step: Step)
    requires AllAccounted(s)
    ensures AllAccounted(Next(s, step))
  {
    match step
    case Accept(ws, user, ok) =>
      var joined := s.(registry := Connected(s.registry, ws, user));
      assert forall t: nat :: t < |s.tasks| ==> Accounted(s, t) ==> Accounted(joined, t);
      BegunIsAccounted(joined, Replaying(ws, [], REPLAY_ORDER));
      ProceedIsAccounted(Begun(joined, Replaying(ws, [], REPLAY_ORDER)), |s.tasks|, ok);
    case Broadcast(frame, order, ok) =>
      var heard := Heard(s, frame);
      assert forall t: nat :: t < |s.tasks| ==> Accounted(s, t) ==> Accounted(heard, t);
      BegunIsAccounted(heard, SendTo(None, frame, order));
      ProceedIsAccounted(Begun(heard, SendTo(None, frame, order)), |s.tasks|, ok);
    case Tell(user, frame, order, ok) =>
      BegunIsAccounted(s, SendTo(Some(user), frame, order));
      ProceedIsAccounted(Begun(s, SendTo(Some(user), frame, order)), |s.tasks|, ok);
    case Leave(ws, named) =>
      var after := Next(s, step);
      assert forall t: nat :: t < |s.tasks| ==> Accounted(s, t) ==> Accounted(after, t);
    case Resume(t, ok) =>
      if t < |s.tasks| {
        ProceedIsAccounted(s, t, ok);
      }
  }

  lemma {:induction false} RunIsAccounted(steps: seq<Step>)
    ensures AllAccounted(Run(steps))
  {
    if steps != [] {
      RunIsAccounted(steps[..|steps| - 1]);
      StepIsAccounted(Run(steps[..|steps| - 1]), steps[|steps| - 1]);
    }
  }

  /** However it is interrupted, a task that has made its last send has tried
      each socket of its copy once, in the copy's order; going on, it takes out
      exactly those whose send failed, and leaves all others as they are then. */
  lemma EachIsTriedOnceAndTheFailedForgotten(steps: seq<Step>, userOf: nat -> nat, s: Server, t: nat, ok: bool)
    requires PossibleRun(steps, userOf) && s == Run(steps) && t < |s.tasks|
    requires s.tasks[t].Sending? && s.tasks[t].sends == |s.tasks[t].order|
    ensures SentBy(s.sent, t) == s.tasks[t].order && NoRepeats(SentBy(s.sent, t))
    ensures !s.tasks[t].finished ==> RemovedFrom(s.registry, Proceed(s, t, ok).registry, FailedBy(s.sent, t))
  {
    RunIsAccounted(steps);
    assert Accounted(s, t);
    RunStaysInOrder(steps, userOf);
    assert TaskBelongs(s.tasks[t], userOf);
    PrunedRemoves(s.registry, s.tasks[t].failed, s.tasks[t].user);
  }

  // --- What a client ends up with ---------------------------------------------------------

  /** The frame at `j` is the newest of its slot, and of a replayed kind. */
  ghost predicate NewestAt(history: seq<Frame>, j: nat) {
    j < |history| && history[j].kind in REPLAY_ORDER && NothingSince(history, j, history[j])
  }

  ghost predicate Awaits(s: Server, t: nat, ws: nat, f: Frame)
    requires t < |s.tasks|
  {
    match s.tasks[t]
    case Sending(user, frame, order, sends, failed, finished) => frame == f && sends <= |order| && ws in order[sends..]
    case Replaying(other, queue, kinds) => other == ws && (f in queue || f.kind in kinds)
  }

  ghost predicate SentSince(sent: seq<Sent>, k: nat, ws: nat, f: Frame, j: nat) {
    k < |sent| && sent[k].ws == ws && sent[k].frame == f && j < sent[k].heard
  }

  /** The frame has been sent to the socket since it was broadcast, or will be. */
  ghost predicate Reached(s: Server, ws: nat, j: nat)
    requires j < |s.history|
  {
    (exists t: nat :: t < |s.tasks| && Awaits(s, t, ws, s.history[j])) || (exists k: nat :: SentSince(s.sent, k, ws, s.history[j], j))
  }

  ghost predicate Tidy(s: Server) {
    && s.cache == Cached(s.history)
    && (forall t: nat :: t < |s.tasks| && s.tasks[t].Sending? ==> s.tasks[t].sends <= |s.tasks[t].order|)
    && (forall k :: 0 <= k < |s.sent| ==> s.sent[k].heard <= |s.history|)
    && (forall i, k :: 0 <= i < k < |s.sent| ==> s.sent[i].heard <= s.sent[k].heard)
  }

  lemma InOfKind(cache: seq<Frame>, kind: Kind, f: Frame)
    ensures f in OfKind(cache, kind) <==> f in cache && f.kind == kind
  {
    OfKindCounts(cache, kind, f);
    assert f in cache <==> multiset(cache)[f] > 0;
    assert f in OfKind(cache, kind) <==> multiset(OfKind(cache, kind))[f] > 0;
  }

  lemma {:induction false} ListedKeeps(cache: seq<Frame>, queue: seq<Frame>, kinds: seq<Kind>, f: Frame)
    requires f in queue || (f.kind in kinds && f in cache)
    ensures var (left, later) := Listed(cache, queue, kinds); left != [] && (f in left || f.kind in later)
    decreases |kinds|
  {
    if queue == [] {
      InOfKind(cache, kinds[0], f);
      ListedKeeps(cache, OfKind(cache, kinds[0]), kinds[1..], f);
    }
  }

  lemma NewestIsCached(history: seq<Frame>, j: nat)
    requires NewestAt(history, j)
    ensures history[j] in Cached(history)
  {
    CacheHoldsTheLatest(history, history[j]);
  }

  lemma SentStays(s: Server, after: Server, ws: nat, j: nat, k: nat)
    requires j < |s.history| && SentSince(s.sent, k, ws, s.history[j], j) && after.history == s.history && s.sent <= after.sent
    ensures Reached(after, ws, j)
  {
    assert SentSince(after.sent, k, ws, after.history[j], j);
  }

  lemma AwaitingGoesOn(s: Server, t: nat, ok: bool, ws: nat, j: nat)
    requires t < |s.tasks| && Tidy(s) && NewestAt(s.history, j) && Awaits(s, t, ws, s.history[j])
    ensures Reached(Proceed(s, t, ok), ws, j)
  {
    var f, after := s.history[j], Proceed(s, t, ok);
    match s.tasks[t]
    case Sending(user, frame, order, sends, failed, finished) =>
      if order[sends] == ws {
        assert SentSince(after.sent, |s.sent|, ws, f, j);
      } else {
        assert order[sends..][1..] == order[sends + 1..];
        assert Awaits(after, t, ws, f);
      }
    case Replaying(other, queue, kinds) =>
      NewestIsCached(s.history, j);
      ListedKeeps(s.cache, queue, kinds, f);
      var (left, later) := Listed(s.cache, queue, kinds);
      if left[0] == f {
        assert SentSince(after.sent, |s.sent|, ws, f, j);
      } else {
        assert Awaits(after, t, ws, f);
      }
  }

  lemma ProceedKeepsReached(s: Server, t: nat, ok: bool, ws: nat, j: nat)
    requires t < |s.tasks| && Tidy(s) && NewestAt(s.history, j) && Reached(s, ws, j)
    ensures Reached(Proceed(s, t, ok), ws, j)
  {
    var after := Proceed(s, t, ok);
    if k: nat :| SentSince(s.sent, k, ws, s.history[j], j) {
      SentStays(s, after, ws, j, k);
    } else {
      var i: nat :| i < |s.tasks| && Awaits(s, i, ws, s.history[j]);
      if i == t {
        AwaitingGoesOn(s, t, ok, ws, j);
      } else {
        assert Awaits(after, i, ws, after.history[j]);
      }
    }
  }

  ghost predicate AllReached(s: Server) {
    forall ws: nat, j: nat :: ws in s.registry.active && NewestAt(s.history, j) ==> Reached(s, ws, j)
  }

  lemma BegunKeepsReached(s: Server, task: Task, ws: nat, j: nat)
    requires j < |s.history| && Reached(s, ws, j)
    ensures Reached(Begun(s, task), ws, j)
  {
    if k: nat :| SentSince(s.sent, k, ws, s.history[j], j) {
      assert SentSince(Begun(s, task).sent, k, ws, s.history[j], j);
    } else {
      var i: nat :| i < |s.tasks| && Awaits(s, i, ws, s.history[j]);
      assert Awaits(Begun(s, task), i, ws, s.history[j]);
    }
  }

  lemma HeardKeepsReached(s: Server, frame: Frame, ws: nat, j: nat)
    requires j < |s.history| && Reached(s, ws, j)
    ensures Reached(Heard(s, frame), ws, j)
  {
    var after := Heard(s, frame);
    assert after.history[j] == s.history[j];
    if k: nat :| SentSince(s.sent, k, ws, s.history[j], j) {
      assert SentSince(after.sent, k, ws, after.history[j], j);
    } else {
      var i: nat :| i < |s.tasks| && Awaits(s, i, ws, s.history[j]);
      assert Awaits(after, i, ws, after.history[j]);
    }
  }

  lemma HeardIsTidy(s: Server, frame: Frame)
    requires Tidy(s)
    ensures Tidy(Heard(s, frame))
  {
    assert (s.history + [frame])[..|s.history|] == s.history;
  }

  lemma OlderStillNewest(history: seq<Frame>, frame: Frame, j: nat)
    requires j < |history| && NewestAt(history + [frame], j)
    ensures NewestAt(history, j)
  {
    assert forall i :: j < i < |history| ==> (history + [frame])[i] == history[i];
  }

  lemma BroadcastReaches(s: Server, frame: Frame, order: seq<nat>, ok: bool, ws: nat, j: nat)
    requires Tidy(s) && AllReached(s) && ws in s.registry.active && Lists(order, s.registry.active)
    requires NewestAt(s.history + [frame], j)
    ensures Reached(Next(s, Broadcast(frame, order, ok)), ws, j)
  {
    var heard := Heard(s, frame);
    var begun := Begun(heard, SendTo(None, frame, order));
    assert ws in order;
    HeardIsTidy(s, frame);
    if j < |s.history| {
      OlderStillNewest(s.history, frame, j);
      HeardKeepsReached(s, frame, ws, j);
      BegunKeepsReached(heard, SendTo(None, frame, order), ws, j);
    } else {
      assert order[0..] == order;
      assert Awaits(begun, |s.tasks|, ws, frame);
    }
    ProceedKeepsReached(begun, |s.tasks|, ok, ws, j);
  }

  lemma AcceptReaches(s: Server, joining: nat, user: nat, ok: bool, ws: nat, j: nat)
    requires Tidy(s) && AllReached(s) && (ws in s.registry.active || ws == joining) && NewestAt(s.history, j)
    ensures Reached(Next(s, Accept(joining, user, ok)), ws, j)
  {
    var joined := s.(registry := Connected(s.registry, joining, user));
    var task := Replaying(joining, [], REPLAY_ORDER);
    var begun := Begun(joined, task);
    if ws == joining {
      assert Awaits(begun, |s.tasks|, ws, s.history[j]);
    } else {
      BegunKeepsReached(s, task, ws, j);
      ReachedWhateverTheRegistry(Begun(s, task), begun, ws, j);
    }
    ProceedKeepsReached(begun, |s.tasks|, ok, ws, j);
  }

  lemma ReachedWhateverTheRegistry(s: Server, after: Server, ws: nat, j: nat)
    requires j < |s.history| && Reached(s, ws, j) && after == s.(registry := after.registry)
    ensures Reached(after, ws, j)
  {
    if k: nat :| SentSince(s.sent, k, ws, s.history[j], j) {
      assert SentSince(after.sent, k, ws, after.history[j], j);
    } else {
      var i: nat :| i < |s.tasks| && Awaits(s, i, ws, s.history[j]);
      assert Awaits(after, i, ws, after.history[j]);
    }
  }

  lemma {:induction false} PrunedShrinks(r: Registry, dead: seq<nat>, user: Option<nat>)
    ensures Pruned(r, dead, user).active <= r.active
  {
    if dead != [] {
      PrunedShrinks(r, dead[..|dead| - 1], user);
    }
  }

  lemma ProceedShrinks(s: Server, t: nat, ok: bool)
    requires t < |s.tasks|
    ensures Proceed(s, t, ok).registry.active <= s.registry.active && Proceed(s, t, ok).history == s.history
  {
    if s.tasks[t].Sending? {
      PrunedShrinks(s.registry, s.tasks[t].failed, s.tasks[t].user);
    }
  }

  lemma StepReaches(s: Server, step: Step, userOf: nat -> nat, ws: nat, j: nat)
    requires Tidy(s) && AllReached(s) && Possible(s, step, userOf)
    requires ws in Next(s, step).registry.active && NewestAt(Next(s, step).history, j)
    ensures Reached(Next(s, step), ws, j)
  {
    match step
    case Accept(joining, user, ok) =>
      var joined := s.(registry := Connected(s.registry, joining, user));
      ProceedShrinks(Begun(joined, Replaying(joining, [], REPLAY_ORDER)), |s.tasks|, ok);
      AcceptReaches(s, joining, user, ok, ws, j);
    case Broadcast(frame, order, ok) =>
      ProceedShrinks(Begun(Heard(s, frame), SendTo(None, frame, order)), |s.tasks|, ok);
      BroadcastReaches(s, frame, order, ok, ws, j);
    case Tell(user, frame, order, ok) =>
      var task := SendTo(Some(user), frame, order);
      ProceedShrinks(Begun(s, task), |s.tasks|, ok);
      BegunKeepsReached(s, task, ws, j);
      ProceedKeepsReached(Begun(s, task), |s.tasks|, ok, ws, j);
    case Leave(leaving, named) =>
      ReachedWhateverTheRegistry(s, Next(s, step), ws, j);
    case Resume(t, ok) =>
      ProceedShrinks(s, t, ok);
      ProceedKeepsReached(s, t, ok, ws, j);
  }

  lemma ProceedIsTidy(s: Server, t: nat, ok: bool)
    requires t < |s.tasks| && Tidy(s)
    ensures Tidy(Proceed(s, t, ok))
  {
  }

  lemma BegunProceedsTidily(s: Server, task: Task, ok: bool)
    requires Tidy(s) && (task.Sending? ==> task.sends == 0)
    ensures Tidy(Proceed(Begun(s, task), |s.tasks|, ok))
  {
    assert Tidy(Begun(s, task));
    ProceedIsTidy(Begun(s, task), |s.tasks|, ok);
  }

  lemma StepIsTidy(s: Server, step: Step)
    requires Tidy(s)
    ensures Tidy(Next(s, step))
  {
    match step
    case Accept(ws, user, ok) =>
      var joined := s.(registry := Connected(s.registry, ws, user));
      BegunProceedsTidily(joined, Replaying(ws, [], REPLAY_ORDER), ok);
    case Broadcast(frame, order, ok) =>
      HeardIsTidy(s, frame);
      BegunProceedsTidily(Heard(s, frame), SendTo(None, frame, order), ok);
    case Tell(user, frame, order, ok) =>
      BegunProceedsTidily(s, SendTo(Some(user), frame, order), ok);
    case Leave(ws, named) =>
    case Resume(t, ok) =>
      if t < |s.tasks| {
        ProceedIsTidy(s, t, ok);
      }
  }

  lemma {:induction false} RunReaches(steps: seq<Step>, userOf: nat -> nat)
    requires PossibleRun(steps, userOf)
    ensures Tidy(Run(steps)) && AllReached(Run(steps))
  {
    if steps != [] {
      var front, last := steps[..|steps| - 1], steps[|steps| - 1];
      RunReaches(front, userOf);
      StepIsTidy(Run(front), last);
      forall ws: nat, j: nat | ws in Run(steps).registry.active && NewestAt(Run(steps).history, j)
        ensures Reached(Run(steps), ws, j)
      {
        StepReaches(Run(front), last, userOf, ws, j);
      }
    }
  }

  /** No send is outstanding. */
  ghost predicate Quiet(s: Server) {
    forall t: nat :: t < |s.tasks| ==>
      match s.tasks[t]
      case Sending(user, frame, order, sends, failed, finished) => sends == |order|
      case Replaying(ws, queue, kinds) => queue == [] && kinds == []
  }

  lemma ReachedAndQuiet(s: Server, ws: nat, j: nat)
    requires j < |s.history| && Reached(s, ws, j) && Quiet(s)
    ensures exists k: nat :: SentSince(s.sent, k, ws, s.history[j], j)
  {
  }

  /** Whatever ran in between, once nothing is outstanding every open socket has
      been sent the newest frame of each replayed kind and instrument since it
      was broadcast: no client misses one between its replay and a broadcast. */
  lemma NobodyMissesTheNewest(steps: seq<Step>, userOf: nat -> nat, s: Server, ws: nat, j: nat)
    requires PossibleRun(steps, userOf) && s == Run(steps) && Quiet(s)
    requires ws in s.registry.active && NewestAt(s.history, j)
    ensures exists k: nat :: SentSince(s.sent, k, ws, s.history[j], j)
  {
    RunReaches(steps, userOf);
    ReachedAndQuiet(s, ws, j);
  }

  ghost predicate IsLastTo(sent: seq<Sent>, k: nat, ws: nat, f: Frame) {
    && k < |sent| && sent[k].ws == ws && SameSlot(sent[k].frame, f)
    && forall i :: k < i < |sent| && sent[i].ws == ws ==> !SameSlot(sent[i].frame, f)
  }

  /** The frame was the newest of its slot when it was sent. */
  ghost predicate WasFresh(s: Server, k: nat)
    requires k < |s.sent|
  {
    s.sent[k].heard <= |s.history| && Latest(s.history[..s.sent[k].heard], s.sent[k].frame)
  }

  lemma FreshIsNewest(history: seq<Frame>, heard: nat, f: Frame, j: nat)
    requires NewestAt(history, j) && j < heard <= |history| && SameSlot(f, history[j])
    ensures Latest(history[..heard], f) <==> f == history[j]
  {
    var before := history[..heard];
    if Latest(before, f) {
      var m :| 0 <= m < |before| && before[m] == f && NothingSince(before, m, f);
      assert before[j] == history[j] && before[m] == history[m];
      assert m == j;
    }
    if f == history[j] {
      assert before[j] == f && NothingSince(before, j, f);
    }
  }

  lemma LastIsHeardLater(s: Server, i: nat, k: nat, ws: nat, j: nat)
    requires Tidy(s) && j < |s.history| && SentSince(s.sent, i, ws, s.history[j], j) && IsLastTo(s.sent, k, ws, s.history[j])
    ensures j < s.sent[k].heard <= |s.history|
  {
    assert i <= k;
    assert s.sent[i].heard <= s.sent[k].heard;
  }

  /** It can be sent an older one after it. A client ends with the newest exactly
      when its last frame of that kind and instrument was still the newest as it
      was sent. */
  lemma ClientIsUpToDateIff(steps: seq<Step>, userOf: nat -> nat, s: Server, ws: nat, j: nat, k: nat)
    requires PossibleRun(steps, userOf) && s == Run(steps) && Quiet(s)
    requires ws in s.registry.active && NewestAt(s.history, j) && IsLastTo(s.sent, k, ws, s.history[j])
    ensures s.sent[k].frame == s.history[j] <==> WasFresh(s, k)
  {
    NobodyMissesTheNewest(steps, userOf, s, ws, j);
    RunReaches(steps, userOf);
    var i: nat :| SentSince(s.sent, i, ws, s.history[j], j);
    LastIsHeardLater(s, i, k, ws, j);
    FreshIsNewest(s.history, s.sent[k].heard, s.sent[k].frame, j);
  }

  /** A replayed frame is fresh exactly while the cache still holds it: always as
      its kind is listed, and then until the same slot is broadcast again. */
  lemma ReplayIsFreshIff(steps: seq<Step>, userOf: nat -> nat, s: Server, t: nat, ok: bool, left: seq<Frame>)
    requires PossibleRun(steps, userOf) && s == Run(steps) && t < |s.tasks| && s.tasks[t].Replaying?
    requires left == Listed(s.cache, s.tasks[t].queue, s.tasks[t].kinds).0 && left != []
    ensures WasFresh(Proceed(s, t, ok), |s.sent|) <==> left[0] in s.cache
    ensures s.tasks[t].queue == [] ==> left[0] in s.cache
  {
    RunReaches(steps, userOf);
    var after := Proceed(s, t, ok);
    assert after.sent[|s.sent|].frame == left[0];
    assert after.history[..|s.history|] == s.history;
    CacheHoldsTheLatest(s.history, left[0]);
    if s.tasks[t].queue == [] {
      ListedIsCached(s.cache, s.tasks[t].kinds, left[0]);
    }
  }

  lemma {:induction false} ListedIsCached(cache: seq<Frame>, kinds: seq<Kind>, f: Frame)
    requires f in Listed(cache, [], kinds).0
    ensures f in cache
    decreases |kinds|
  {
    if kinds != [] {
      var queue := OfKind(cache, kinds[0]);
      if queue == [] {
        ListedIsCached(cache, kinds[1..], f);
      } else {
        InOfKind(cache, kinds[0], f);
      }
    }
  }

  // --- A client left with an old frame --------------------------------------------------------

  const JOINED := Registry({0}, map[0 := {0}], map[0 := 0])
  const COMING := [OptionMetrics, OptionAnalytics]

  /** Two cached chains and a newer one of the second instrument. */
  ghost predicate Chains(f: Frame, g: Frame, newer: Frame) {
    && f.kind == g.kind == newer.kind == OptionChain
    && f.instrument != g.instrument && newer.instrument == g.instrument && newer != g
  }

  function Cached2(f: Frame, g: Frame): Server {
    Server(NO_SOCKETS, [f, g], [f, g], [], [])
  }

  function FirstReplayed(f: Frame, g: Frame): Server {
    Server(JOINED, [f, g], [f, g], [Replaying(0, [g], COMING)], [Sent(0, 0, f, true, 2)])
  }

  function Overtaken(f: Frame, g: Frame, newer: Frame): Server {
    Server(JOINED, [f, newer], [f, g, newer], [Replaying(0, [g], COMING), Sending(None, newer, [0], 1, [], false)],
           [Sent(0, 0, f, true, 2), Sent(1, 0, newer, true, 3)])
  }

  function Late(f: Frame, g: Frame, newer: Frame, replay: Task, finished: bool): Server {
    Server(JOINED, [f, newer], [f, g, newer], [replay, Sending(None, newer, [0], 1, [], finished)],
           [Sent(0, 0, f, true, 2), Sent(1, 0, newer, true, 3), Sent(0, 0, g, true, 3)])
  }

  lemma OfKindOfTwo(f: Frame, g: Frame, kind: Kind)
    ensures OfKind([f, g], kind) == (if f.kind == kind then [f] else []) + (if g.kind == kind then [g] else [])
  {
    assert [f, g][..1] == [f] && [f][..0] == [];
    assert OfKind([f], kind) == if f.kind == kind then [f] else [];
  }

  lemma NotOfThisKind(cache: seq<Frame>, kind: Kind, kinds: seq<Kind>)
    requires OfKind(cache, kind) == []
    ensures Listed(cache, [], [kind] + kinds) == Listed(cache, [], kinds)
  {
    assert ([kind] + kinds)[1..] == kinds;
  }

  lemma NothingOfTheseKinds(f: Frame, g: Frame, later: seq<Kind>)
    requires f.kind == g.kind == OptionChain && later == COMING
    ensures Listed([f, g], [], later) == ([], [])
  {
    OfKindOfTwo(f, g, OptionMetrics);
    OfKindOfTwo(f, g, OptionAnalytics);
    assert later == [OptionMetrics] + ([OptionAnalytics] + []);
    NotOfThisKind([f, g], OptionMetrics, [OptionAnalytics] + []);
    NotOfThisKind([f, g], OptionAnalytics, []);
  }

  lemma ChainsAreListed(f: Frame, g: Frame, order: seq<Kind>, chains: seq<Kind>)
    requires f.kind == g.kind == OptionChain && chains == [OptionChain] + COMING
    requires order == [MarketStatus] + ([BrokerStatus] + chains)
    ensures Listed([f, g], [], order) == ([f, g], COMING)
  {
    OfKindOfTwo(f, g, MarketStatus);
    OfKindOfTwo(f, g, BrokerStatus);
    OfKindOfTwo(f, g, OptionChain);
    NotOfThisKind([f, g], MarketStatus, [BrokerStatus] + chains);
    NotOfThisKind([f, g], BrokerStatus, chains);
    assert chains[1..] == COMING;
    assert OfKind([f, g], OptionChain) == [f, g];
    assert Listed([f, g], [], chains) == Listed([f, g], [f, g], COMING);
  }

  lemma RunGrows(steps: seq<Step>, last: Step, userOf: nat -> nat, s: Server)
    requires PossibleRun(steps, userOf) && Run(steps) == s && Possible(s, last, userOf)
    ensures PossibleRun(steps + [last], userOf) && Run(steps + [last]) == Next(s, last)
  {
    assert (steps + [last])[..|steps|] == steps;
  }

  lemma BothCached(f: Frame, g: Frame, userOf: nat -> nat) returns (steps: seq<Step>)
    requires f.kind == g.kind == OptionChain && f.instrument != g.instrument
    ensures PossibleRun(steps, userOf) && Run(steps) == Cached2(f, g)
  {
    RunGrows([], Broadcast(f, [], true), userOf, IDLE_SERVER);
    steps := [] + [Broadcast(f, [], true)];
    RunGrows(steps, Broadcast(g, [], true), userOf, Heard(IDLE_SERVER, f));
    steps := steps + [Broadcast(g, [], true)];
    assert Remember([], f) == [f];
    assert Remember([f], g) == [f, g];
  }

  lemma FirstSocket(r: Registry)
    requires r == Connected(NO_SOCKETS, 0, 0)
    ensures r == JOINED
  {
    assert r.active == JOINED.active;
    assert SocketsOf(NO_SOCKETS, 0) + {0} == {0};
    assert r.users == JOINED.users;
    assert r.owner == JOINED.owner;
  }

  lemma ClientJoins(f: Frame, g: Frame)
    requires f.kind == g.kind == OptionChain
    ensures Next(Cached2(f, g), Accept(0, 0, true)) == FirstReplayed(f, g)
  {
    ChainsAreListed(f, g, REPLAY_ORDER, [OptionChain] + COMING);
    assert [f, g][1..] == [g];
    FirstSocket(Connected(NO_SOCKETS, 0, 0));
  }

  lemma BroadcastOvertakes(f: Frame, g: Frame, newer: Frame)
    requires Chains(f, g, newer)
    ensures Next(FirstReplayed(f, g), Broadcast(newer, [0], true)) == Overtaken(f, g, newer)
  {
    SecondSlot(f, g, newer);
  }

  lemma SecondSlot(f: Frame, g: Frame, newer: Frame)
    requires Chains(f, g, newer)
    ensures Remember([f, g], newer) == [f, newer]
  {
    assert [f, g][1..] == [g];
    assert SlotOf([g], newer) == 0;
    assert SlotOf([f, g], newer) == 1;
    assert [f, g][1 := newer] == [f, newer];
  }

  lemma ReplayComesLate(f: Frame, g: Frame, newer: Frame)
    ensures Next(Overtaken(f, g, newer), Resume(0, true)) == Late(f, g, newer, Replaying(0, [], COMING), false)
  {
    assert Listed([f, newer], [g], COMING) == ([g], COMING);
    assert [g][1..] == [];
  }

  lemma ReplayEnds(f: Frame, g: Frame, newer: Frame)
    requires Chains(f, g, newer)
    ensures Next(Late(f, g, newer, Replaying(0, [], COMING), false), Resume(0, true)) == Late(f, g, newer, Replaying(0, [], []), false)
  {
    NothingOfTheseKinds(f, newer, COMING);
  }

  lemma BroadcastEnds(f: Frame, g: Frame, newer: Frame, replay: Task)
    ensures Next(Late(f, g, newer, replay, false), Resume(1, true)) == Late(f, g, newer, replay, true)
  {
  }

  lemma OldChainRun(f: Frame, g: Frame, newer: Frame, userOf: nat -> nat) returns (steps: seq<Step>)
    requires Chains(f, g, newer) && userOf(0) == 0
    ensures PossibleRun(steps, userOf) && Run(steps) == Late(f, g, newer, Replaying(0, [], []), true)
  {
    steps := BothCached(f, g, userOf);
    RunGrows(steps, Accept(0, 0, true), userOf, Cached2(f, g));
    ClientJoins(f, g);
    steps := steps + [Accept(0, 0, true)];
    RunGrows(steps, Broadcast(newer, [0], true), userOf, FirstReplayed(f, g));
    BroadcastOvertakes(f, g, newer);
    steps := steps + [Broadcast(newer, [0], true)];
    RunGrows(steps, Resume(0, true), userOf, Overtaken(f, g, newer));
    ReplayComesLate(f, g, newer);
    steps := steps + [Resume(0, true)];
    RunGrows(steps, Resume(0, true), userOf, Late(f, g, newer, Replaying(0, [], COMING), false));
    ReplayEnds(f, g, newer);
    steps := steps + [Resume(0, true)];
    RunGrows(steps, Resume(1, true), userOf, Late(f, g, newer, Replaying(0, [], []), false));
    BroadcastEnds(f, g, newer, Replaying(0, [], []));
    steps := steps + [Resume(1, true)];
  }

  ghost predicate HasOld(s: Server, ws: nat, j: nat, stale: Frame) {
    && Quiet(s) && ws in s.registry.active && NewestAt(s.history, j) && s.history[j] != stale
    && (forall k :: 0 <= k < |s.sent| ==> s.sent[k].ok)
    && exists k: nat :: IsLastTo(s.sent, k, ws, s.history[j]) && s.sent[k].frame == stale
  }

  lemma LateHasOld(f: Frame, g: Frame, newer: Frame, s: Server)
    requires Chains(f, g, newer) && s == Late(f, g, newer, Replaying(0, [], []), true)
    ensures HasOld(s, 0, 2, g)
  {
    assert IsLastTo(s.sent, 2, 0, newer);
  }

  /** A client that joins while two chains are cached is listed both, is sent the
      first, is broadcast a newer second, and then is replayed the old second.
      Every send succeeds, nothing is outstanding, and it is left with the old. */
  lemma ReplayCanLeaveAnOldFrame(f: Frame, g: Frame, newer: Frame, userOf: nat -> nat)
    requires Chains(f, g, newer) && userOf(0) == 0
    ensures exists steps :: PossibleRun(steps, userOf) && HasOld(Run(steps), 0, 2, g)
  {
    var steps := OldChainRun(f, g, newer, userOf);
    LateHasOld(f, g, newer, Run(steps));
  }
}
