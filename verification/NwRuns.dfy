/** What whole runs of the flow protocol show: how long an eviction loop can go on, how the
    reaper takes a flow that has just been active, and when dropping a guard closes the flow
    of a peer that has been adopted again. */
module NwRuns {
  import opened Common
  import opened FlowTable
  import opened NwFlows

  lemma AfterStep(s: State, run: seq<Action>, n: nat)
    requires n < |run|
    ensures After(s, run, n + 1) == Next(After(s, run, n), run[n])
  {
  }

  // ----- Eviction loops -----

  /** A round of an eviction loop that goes on. */
  predicate Continues(t: State, t': State) {
    (t.queue.Reaping? || t.queue.Reserving?) && t'.queue.Closed?
  }

  /** The continuing rounds among the steps from `m` to `n`. */
  function Rounds(s: State, run: seq<Action>, m: nat, n: nat): nat
    requires m <= n <= |run|
  {
    if m == n then 0
    else Rounds(s, run, m, n - 1) + if Continues(After(s, run, n - 1), After(s, run, n)) then 1 else 0
  }

  /** Until the next connection is added, whatever the threads do meanwhile, the eviction
      loops go round at most as often as there were flows: every round takes one off. */
  lemma {:induction false} RoundsAreBounded(s: State, run: seq<Action>, m: nat, n: nat)
    requires Initial(s) && m <= n <= |run|
    requires forall j :: m <= j < n ==> !After(s, run, j).queue.Adding?
    ensures Rounds(s, run, m, n) + |After(s, run, n).table| <= |After(s, run, m).table|
    decreases n
  {
    hide After;
    if m < n {
      RoundsAreBounded(s, run, m, n - 1);
      LoopsShrink(s, run, n - 1);
    }
  }

  // ----- A flow of a peer, ready and announced -----

  function Opening(p: Peer, now: nat): seq<Action> {
    [QueueEvent(NewConnection(Some(p))), QueueStep(now, true), QueueStep(now, true)]
  }

  function Added(s: State, p: Peer, now: nat): State {
    s.(table := [Flow(s.nextId + 1, Some(p), false, false, now)], nextId := s.nextId + 1)
  }

  lemma AddsFlow(s: State, run: seq<Action>, p: Peer, now: nat)
    requires Initial(s) && s.max > 0 && now < U64_MAX && Opening(p, now) <= run
    ensures After(s, run, 3) == Added(s, p, now)
  {
    var o := Opening(p, now);
    assert run[0] == o[0] && run[1] == o[1] && run[2] == o[2];
    AfterStep(s, run, 0);
    AfterStep(s, run, 1);
    AfterStep(s, run, 2);
    assert ScanFlows([], 0) == Scan(0, U64_MAX, 0);
    assert After(s, run, 1) == s.(queue := Reserving(Some(p)));
    assert After(s, run, 2) == s.(queue := Adding(Some(p)));
  }

  function Announcement(id: nat, now: nat): seq<Action> {
    [QueueEvent(FlowReady(id, now)), QueueStep(now, true), QueueStep(now, true), QueueStep(now, true)]
  }

  function Opened(s: State, p: Peer, now: nat): State {
    var id := s.nextId + 1;
    s.(table := [Flow(id, Some(p), true, false, now)], nextId := id, index := map[p := id], peers := map[id := p])
  }

  lemma OneFlow(f: Flow, now: nat)
    ensures IndexOf([f], f.id) == 0 && Find([f], f.id) == Some(f)
    ensures Touch([f], f.id, now, true) == [f.(lastActivity := now, ready := true)]
    ensures Touch([f], f.id, now, false) == [f.(lastActivity := now)]
    ensures Protect([f], f.id) == [f.(guarded := true)]
    ensures Take([f], f.id) == []
  {
    assert [f][..0] == [];
    assert IndexOf([f], f.id) == 0;
  }

  lemma OpensFlow(s: State, run: seq<Action>, p: Peer, now: nat)
    requires Initial(s) && s.max > 0 && now < U64_MAX
    requires |run| >= 7 && Opening(p, now) <= run && run[3..7] == Announcement(s.nextId + 1, now)
    ensures After(s, run, 7) == Opened(s, p, now)
  {
    var id := s.nextId + 1;
    var o := Announcement(id, now);
    assert run[3] == o[0] && run[4] == o[1] && run[5] == o[2] && run[6] == o[3];
    hide *;
    AddsFlow(s, run, p, now);
    AfterStep(s, run, 3);
    AfterStep(s, run, 4);
    AfterStep(s, run, 5);
    AfterStep(s, run, 6);
    BecomesReady(s, p, now);
    IsAnnounced(s, p, now);
  }

  function Ready(s: State, p: Peer, now: nat): State {
    Added(s, p, now).(table := [Flow(s.nextId + 1, Some(p), true, false, now)], queue := Announcing(s.nextId + 1, p))
  }

  lemma BecomesReady(s: State, p: Peer, now: nat)
    requires Initial(s) && now < U64_MAX
    ensures Next(Added(s, p, now), QueueEvent(FlowReady(s.nextId + 1, now))) == Ready(s, p, now)
  {
    hide IndexOf, Find, Touch;
    OneFlow(Flow(s.nextId + 1, Some(p), false, false, now), now);
  }

  lemma IsAnnounced(s: State, p: Peer, now: nat)
    requires Initial(s) && now < U64_MAX
    ensures var a := QueueStep(now, true);
            Next(Next(Next(Ready(s, p, now), a), a), a) == Opened(s, p, now)
  {
    var id, t, a := s.nextId + 1, Ready(s, p, now), QueueStep(now, true);
    var t1 := t.(index := map[p := id], queue := Indexed(id, p));
    assert Next(t, a) == t1;
    var t2 := t1.(peers := map[id := p], queue := Known(id, p));
    assert Next(t1, a) == t2;
  }

  // ----- The reaper's clock -----

  function Race(s: State, p: Peer, now: nat): seq<Action> {
    var id := s.nextId + 1;
    Opening(p, now) + Announcement(id, now) + [QueueEvent(ReaperTimer), Sent(id, now + 1), QueueStep(now, true)]
  }

  /** A datagram sent between the reaper's reading of the clock and its scan costs the peer its
      flow, which was active at every moment of the run. */
  lemma JustActiveFlowReaped(s: State, p: Peer, now: nat)
    requires Initial(s) && s.max > 0 && now < U64_MAX - 1
    ensures var t, t' := After(s, Race(s, p, now), 9), After(s, Race(s, p, now), 10);
            var f := Flow(s.nextId + 1, Some(p), true, false, now + 1);
            && t.table == [f] && t.index == map[p := f.id] && t.queue == Reaping
            && t'.table == [] && t'.queue == Closed(f, ToReap)
  {
    var id, run := s.nextId + 1, Race(s, p, now);
    assert run[3..7] == Announcement(id, now);
    OpensFlow(s, run, p, now);
    hide After, IndexOf, Find, Touch, Take, ReapChoice;
    AfterStep(s, run, 7);
    AfterStep(s, run, 8);
    AfterStep(s, run, 9);
    OneFlow(Flow(id, Some(p), true, false, now), now + 1);
    OneFlow(Flow(id, Some(p), true, false, now + 1), now + 1);
    FreshFlowReaped(id, p, s.max, now);
  }

  /** In every run, a flow the reaper takes was silent for three seconds if and only if its
      last activity is not after the clock reading: the limit never decides. */
  lemma ReapedWasIdleExactly(s: State, run: seq<Action>, n: nat, f: Flow)
    requires Initial(s) && n < |run| && run[n].QueueStep?
    requires var t := After(s, run, n);
             t.queue.Reaping? && f in t.table && Find(After(s, run, n + 1).table, f.id).None?
    ensures LeastRecent(After(s, run, n).table, f)
    ensures f.lastActivity + UNPROTECTED_IDLE_NS <= run[n].now <==> f.lastActivity <= run[n].now
  {
    var t, now := After(s, run, n), run[n].now;
    RunKeeps(s, run, n);
    AfterStep(s, run, n);
    FindIs(t.table, f);
    assert Inv(t) ==> TableSound(t);
    hide After, Find, Inv, ReapChoice, Sound, Unprotected;
    if ReapChoice(t.table, t.max, now) != f.id {
      EvictedTakes(t, ReapChoice(t.table, t.max, now), ToReap, f.id);
    }
    ReapedBelowLimitWasIdle(t.table, t.nextId, t.max, now, f);
  }

  // ----- Dropped guards -----

  /** A flow only ever leaves the table, and keeps its peer and its protection while it is
      there. */
  lemma FlowStays(t: State, a: Action, id: nat)
    requires Inv(t) && id <= t.nextId
    ensures id <= Next(t, a).nextId
    ensures var f, f' := Find(t.table, id), Find(Next(t, a).table, id);
            f'.Some? ==> f.Some? && f'.value.remote == f.value.remote && (f.value.guarded ==> f'.value.guarded)
  {
    hide Find, Touch, Protect, Take, Sound, Unprotected, QueueSound, IndexSound, PeersSound, GuardsSound, ProtectionSound;
    if a.QueueEvent? && t.queue.Idle? {
      EventStays(t, a.event, id);
    } else if a.QueueStep? && a.now < U64_MAX {
      StepStays(t, a.now, a.memory, id);
    } else if a.Sent? && a.now < U64_MAX {
      FindTouch(t.table, t.nextId, a.id, a.now, false, id);
    } else if a.ThreadStep? && a.t in t.sessions && t.sessions[a.t].Found? && t.sessions[a.t].flow.Some? {
      FindProtect(t.table, t.nextId, t.sessions[a.t].flow.value, id);
    }
  }

  predicate Stays(t: State, t': State, id: nat) {
    var f, f' := Find(t.table, id), Find(t'.table, id);
    && t.nextId <= t'.nextId
    && (f'.Some? ==> f.Some? && f'.value.remote == f.value.remote && (f.value.guarded ==> f'.value.guarded))
  }

  lemma EvictedStays(t: State, x: nat, next: Then, id: nat)
    requires TableSound(t)
    ensures Stays(t, Evicted(t, x, next), id)
  {
    FindTake(t.table, t.nextId, x, id);
  }

  lemma EventStays(t: State, e: Event, id: nat)
    requires TableSound(t)
    ensures Stays(t, QueueTakes(t, e), id)
  {
    hide Find, Touch, Take, Evicted, Sound, Unprotected;
    match e
    case FlowReady(x, now) =>
      if now < U64_MAX {
        FindTouch(t.table, t.nextId, x, now, true, id);
      }
    case Received(x, now) =>
      if now < U64_MAX {
        FindTouch(t.table, t.nextId, x, now, false, id);
      }
    case Failed(x) => EvictedStays(t, x, ToIdle, id);
    case CloseFlow(x) => EvictedStays(t.(closes := t.closes - {x}), x, ToIdle, id);
    case _ =>
  }

  lemma StepStays(t: State, now: nat, memory: bool, id: nat)
    requires TableSound(t) && id <= t.nextId && now < U64_MAX
    ensures Stays(t, QueueSteps(t, now, memory), id)
  {
    hide Find, Protect, Take, Evicted, Sound, Unprotected, ReapChoice, ReserveChoice;
    match t.queue
    case Guarding(x, _) => FindProtect(t.table, t.nextId, x, id);
    case Reaping => EvictedStays(t, ReapChoice(t.table, t.max, now), ToReap, id);
    case Reserving(remote) =>
      if ReserveChoice(t.table, t.max).Evict? {
        EvictedStays(t, ReserveChoice(t.table, t.max).id, ToReserve(remote), id);
      }
    case Adding(remote) => FindAppend(t.table, t.nextId, Flow(t.nextId + 1, remote, false, false, now), id);
    case _ =>
  }

  /** The flow a drop is about to close is of its own peer, if it still is in the table. */
  predicate DropSound(t: State, q: nat)
    requires q in t.sessions
  {
    var x := t.sessions[q];
    x.Closing? && x.flow.Some? ==>
      x.flow.value <= t.nextId && (Find(t.table, x.flow.value).Some? ==> Live(t.table, x.flow.value, x.peer))
  }

  predicate DropsSound(t: State) {
    forall q :: q in t.sessions ==> DropSound(t, q)
  }

  /** The queue changes neither threads nor guards, and takes closes up only. */
  predicate Leaves(t: State, t': State) {
    t'.sessions == t.sessions && t'.guards == t.guards && t'.closes <= t.closes
  }

  lemma EventLeaves(t: State, e: Event)
    ensures Leaves(t, QueueTakes(t, e))
  {
    hide Find, Touch, Take;
  }

  lemma RoundLeaves(t: State, now: nat)
    ensures Leaves(t, EvictionRound(t, now))
  {
    hide Find, Take, ReapChoice, ReserveChoice;
  }

  lemma StepLeaves(t: State, now: nat, memory: bool)
    ensures Leaves(t, QueueSteps(t, now, memory))
  {
    RoundLeaves(t, now);
    hide EvictionRound, Protect;
    assert Leaves(t, OnFlow(t)) && Leaves(t, OnClose(t));
  }

  lemma QueueLeaves(t: State, a: Action)
    requires a.QueueStep? || a.QueueEvent?
    ensures Leaves(t, Next(t, a))
  {
    hide QueueTakes, QueueSteps;
    if a.QueueStep? {
      StepLeaves(t, a.now, a.memory);
    } else {
      EventLeaves(t, a.event);
    }
  }

  /** A thread's step changes no other thread. */
  lemma OtherSessions(t: State, a: Action, q: nat)
    requires q in Next(t, a).sessions && a != ThreadStep(q) && !(a.Adopt? && a.t == q)
    ensures q in t.sessions && Next(t, a).sessions[q] == t.sessions[q]
  {
    hide Find, Touch, Protect, QueueSteps, QueueTakes;
    if a.QueueStep? || a.QueueEvent? {
      QueueLeaves(t, a);
    }
  }

  lemma LookedUp(t: State, p: Peer)
    requires Inv(t) && p in t.index
    ensures t.index[p] <= t.nextId
    ensures Find(t.table, t.index[p]).Some? ==> Live(t.table, t.index[p], p)
  {
    hide Live, TableSound, GuardsSound, ProtectionSound, PeersSound;
    assert IndexEntry(t, p);
  }

  lemma DropsStep(t: State, a: Action)
    requires Inv(t) && DropsSound(t)
    ensures DropsSound(Next(t, a))
  {
    var t' := Next(t, a);
    forall q | q in t'.sessions ensures DropSound(t', q) {
      DropStep(t, a, q);
    }
  }

  lemma DropStep(t: State, a: Action, q: nat)
    requires Inv(t) && DropsSound(t) && q in Next(t, a).sessions
    ensures DropSound(Next(t, a), q)
  {
    hide Inv, Find, Protect;
    var t' := Next(t, a);
    if a == ThreadStep(q) {
      var x := t.sessions[q];
      if x.Dropping? && x.peer in t.index {
        LookedUp(t, x.peer);
      }
    } else if a.Adopt? && a.t == q {
      assert t' == t || t'.sessions[q].Registered?;
    } else {
      OtherSessions(t, a, q);
      assert DropSound(t, q);
      var x := t.sessions[q];
      hide Next;
      if x.Closing? && x.flow.Some? {
        FlowStays(t, a, x.flow.value);
      }
    }
  }

  lemma {:induction false} DropsKeep(s: State, run: seq<Action>, n: nat)
    requires Initial(s) && n <= |run|
    ensures DropsSound(After(s, run, n))
    decreases n
  {
    if n > 0 {
      DropsKeep(s, run, n - 1);
      RunKeeps(s, run, n - 1);
      hide Inv, Next, DropsSound;
      DropsStep(After(s, run, n - 1), run[n - 1]);
    }
  }

  /** In every run, a drop asks for the closing of no other peer's flow. */
  lemma DropsCloseOwnFlow(s: State, run: seq<Action>, n: nat, q: nat, id: nat)
    requires Initial(s) && n <= |run|
    requires var t := After(s, run, n);
             q in t.sessions && t.sessions[q].Closing? && t.sessions[q].flow == Some(id) && Find(t.table, id).Some?
    ensures var t := After(s, run, n);
            Find(t.table, id).value.remote == Some(t.sessions[q].peer)
  {
    DropsKeep(s, run, n);
    assert DropSound(After(s, run, n), q);
  }

  /** A drop of the peer's last guard has not yet looked the flow up, or has and not yet asked
      for it to be closed, or the queue has not yet taken that up. */
  ghost predicate CloseUnderWay(t: State, p: Peer, id: nat) {
    id in t.closes || exists q :: q in t.sessions && Pursues(t.sessions[q], p, id)
  }

  predicate Pursues(x: Session, p: Peer, id: nat) {
    x == Dropping(p) || x == Closing(p, Some(id))
  }

  /** The flow is gone, or is the peer's and no drop is going to close it. */
  ghost predicate Calm(t: State, p: Peer, id: nat) {
    id <= t.nextId && (Find(t.table, id).Some? ==> Live(t.table, id, p) && !CloseUnderWay(t, p, id))
  }

  /** While the peer keeps a guard, no drop turns to its flow. */
  lemma NoNewClose(t: State, a: Action, p: Peer, id: nat)
    requires DropsSound(t) && Live(t.table, id, p) && !CloseUnderWay(t, p, id) && p in Next(t, a).guards
    ensures !CloseUnderWay(Next(t, a), p, id)
  {
    var t' := Next(t, a);
    forall q | q in t'.sessions ensures !Pursues(t'.sessions[q], p, id) {
      if a == ThreadStep(q) {
        NoNewPursuer(t, q, p, id);
      } else if !(a.Adopt? && a.t == q) {
        OtherSessions(t, a, q);
      } else {
        assert t' == t || t'.sessions[q].Registered?;
      }
    }
    NoNewRequest(t, a, p, id);
  }

  lemma NoNewPursuer(t: State, q: nat, p: Peer, id: nat)
    requires q in t.sessions && !Pursues(t.sessions[q], p, id) && p in Next(t, ThreadStep(q)).guards
    ensures q in Next(t, ThreadStep(q)).sessions ==> !Pursues(Next(t, ThreadStep(q)).sessions[q], p, id)
  {
    hide Protect;
  }

  lemma NoNewRequest(t: State, a: Action, p: Peer, id: nat)
    requires DropsSound(t) && Live(t.table, id, p) && !CloseUnderWay(t, p, id)
    ensures id !in Next(t, a).closes
  {
    hide Find, Touch, Protect, QueueSteps, QueueTakes;
    if a.QueueStep? || a.QueueEvent? {
      QueueLeaves(t, a);
    } else if a.ThreadStep? && a.t in t.sessions {
      assert DropSound(t, a.t) && !Pursues(t.sessions[a.t], p, id);
    }
  }

  lemma CalmStep(t: State, a: Action, p: Peer, id: nat)
    requires Inv(t) && DropsSound(t) && Calm(t, p, id) && p in Next(t, a).guards
    ensures Calm(Next(t, a), p, id)
  {
    FlowStays(t, a, id);
    hide Inv, Next, Find, DropsSound, CloseUnderWay;
    if Find(Next(t, a).table, id).Some? {
      NoNewClose(t, a, p, id);
    }
  }

  /** The peer keeps a guard throughout, and the last step closes the flow as a drop asked. */
  predicate ClosedByDrop(t: State, more: seq<Action>, p: Peer, id: nat) {
    var n := |more| - 1;
    && n >= 0 && more[n] == QueueEvent(CloseFlow(id))
    && (forall k: nat :: k <= |more| ==> p in After(t, more, k).guards)
    && Find(After(t, more, n).table, id).Some? && Find(After(t, more, n + 1).table, id).None?
  }

  lemma {:induction false} CalmStays(t: State, more: seq<Action>, n: nat, p: Peer, id: nat)
    requires Inv(t) && DropsSound(t) && Calm(t, p, id) && n <= |more|
    requires forall k: nat :: k <= n ==> p in After(t, more, k).guards
    ensures var u := After(t, more, n); Inv(u) && DropsSound(u) && Calm(u, p, id)
    decreases n
  {
    hide Inv, Next, DropsSound, Calm;
    if n > 0 {
      CalmStays(t, more, n - 1, p, id);
      var u := After(t, more, n - 1);
      assert After(t, more, n) == Next(u, more[n - 1]);
      StepKeeps(u, more[n - 1]);
      DropsStep(u, more[n - 1]);
      CalmStep(u, more[n - 1], p, id);
    }
  }

  lemma NotClosed(t: State, more: seq<Action>, p: Peer, id: nat)
    requires Inv(t) && DropsSound(t) && Calm(t, p, id)
    ensures !ClosedByDrop(t, more, p, id)
  {
    if ClosedByDrop(t, more, p, id) {
      var n := |more| - 1;
      AfterStep(t, more, n);
      CalmStays(t, more, n, p, id);
    }
  }

  /** Two or three steps close a flow that a drop is already after. */
  lemma AskedClose(t: State, p: Peer, id: nat)
    requires Inv(t) && t.queue.Idle? && p in t.guards && Find(t.table, id).Some? && id in t.closes
    ensures ClosedByDrop(t, [QueueEvent(CloseFlow(id))], p, id)
  {
    var more := [QueueEvent(CloseFlow(id))];
    AfterStep(t, more, 0);
    TakeTable(t.(closes := t.closes - {id}), id);
    hide Find, Take;
    forall k: nat | k <= 1 ensures p in After(t, more, k).guards {
      assert k == 0 || k == 1;
    }
  }

  /** One step of a thread that is dropping a guard in front. */
  lemma StepFirst(t: State, q: nat, more: seq<Action>, p: Peer, id: nat)
    requires p in t.guards && ClosedByDrop(Next(t, ThreadStep(q)), more, p, id)
    ensures ClosedByDrop(t, [ThreadStep(q)] + more, p, id)
  {
    hide After, Next, Find;
    var a, all := ThreadStep(q), [ThreadStep(q)] + more;
    assert all[|all| - 1] == more[|more| - 1];
    AfterCons(t, a, more, |more| - 1);
    AfterCons(t, a, more, |more|);
    forall k: nat | k <= |all| ensures p in After(t, all, k).guards {
      if k == 0 {
        AfterNone(t, all);
      } else {
        AfterCons(t, a, more, k - 1);
      }
    }
  }

  lemma AfterNone(t: State, run: seq<Action>)
    ensures After(t, run, 0) == t
  {
  }

  lemma {:induction false} AfterCons(t: State, a: Action, more: seq<Action>, k: nat)
    requires k <= |more|
    ensures After(t, [a] + more, k + 1) == After(Next(t, a), more, k)
    decreases k
  {
    hide Next;
    if k == 0 {
      assert After(t, [a] + more, 0) == t;
    } else {
      AfterCons(t, a, more, k - 1);
    }
  }

  lemma ClosingCloses(t: State, q: nat, p: Peer, id: nat) returns (more: seq<Action>)
    requires Inv(t) && t.queue.Idle? && p in t.guards && Find(t.table, id).Some?
    requires q in t.sessions && t.sessions[q] == Closing(p, Some(id))
    ensures ClosedByDrop(t, more, p, id)
  {
    StepKeeps(t, ThreadStep(q));
    hide Inv, Find, After, ClosedByDrop;
    AskedClose(Next(t, ThreadStep(q)), p, id);
    more := [ThreadStep(q)] + [QueueEvent(CloseFlow(id))];
    StepFirst(t, q, [QueueEvent(CloseFlow(id))], p, id);
  }

  lemma DroppingCloses(t: State, q: nat, p: Peer, id: nat) returns (more: seq<Action>)
    requires Inv(t) && t.queue.Idle? && p in t.guards && Find(t.table, id).Some? && p in t.index && t.index[p] == id
    requires q in t.sessions && t.sessions[q] == Dropping(p)
    ensures ClosedByDrop(t, more, p, id)
  {
    StepKeeps(t, ThreadStep(q));
    hide Inv, Find, After, ClosedByDrop;
    more := ClosingCloses(Next(t, ThreadStep(q)), q, p, id);
    StepFirst(t, q, more, p, id);
    more := [ThreadStep(q)] + more;
  }

  /** Exactly when a peer that has a guard can lose its flow to an earlier drop: when a drop of
      its last guard was already under way as it was adopted again. As long as the peer keeps
      a guard after that, no other drop closes its flow. */
  lemma DropClosesExactly(s: State, run: seq<Action>, n: nat, p: Peer, id: nat)
    requires Initial(s) && n <= |run|
    requires var t := After(s, run, n);
             t.queue.Idle? && p in t.guards && p in t.index && t.index[p] == id
    ensures var t := After(s, run, n);
            (exists more :: ClosedByDrop(t, more, p, id)) <==> CloseUnderWay(t, p, id)
  {
    var t := After(s, run, n);
    RunKeeps(s, run, n);
    DropsKeep(s, run, n);
    IndexAtRest(s, run, n);
    LookedUp(t, p);
    assert Find(t.table, id).Some?;
    hide After, Inv, DropsSound, Find, Live, ClosedByDrop;
    if id in t.closes {
      AskedClose(t, p, id);
    } else if q :| q in t.sessions && Pursues(t.sessions[q], p, id) {
      if t.sessions[q].Dropping? {
        var more := DroppingCloses(t, q, p, id);
      } else {
        var more := ClosingCloses(t, q, p, id);
      }
    } else {
      forall more ensures !ClosedByDrop(t, more, p, id) {
        NotClosed(t, more, p, id);
      }
    }
  }

  function Readopted(s: State, p: Peer, now: nat): seq<Action> {
    var id := s.nextId + 1;
    Opening(p, now) + Announcement(id, now)
    + [Adopt(0, p), ThreadStep(0), ThreadStep(0), ThreadStep(0), Adopt(1, p), ThreadStep(1), ThreadStep(1)]
  }

  /** It does happen: a peer is adopted again between the drop of its last guard and that
      drop's look at the index. Its flow is protected, and is closed all the same. */
  lemma StaleCloseHappens(s: State, p: Peer, now: nat) returns (more: seq<Action>)
    requires Initial(s) && s.max > 0 && now < U64_MAX
    ensures var t, id := After(s, Readopted(s, p, now), 14), s.nextId + 1;
            && t.sessions == map[0 := Dropping(p), 1 := Guard(p)] && t.index == map[p := id]
            && t.table == [Flow(id, Some(p), true, true, now)] && ClosedByDrop(t, more, p, id)
  {
    var id, run := s.nextId + 1, Readopted(s, p, now);
    ReadoptedIs(s, p, now);
    hide *;
    ReachesReadopted(s, run, p, now);
    RunKeeps(s, run, 14);
    FoundReadopted(s, p, now);
    more := DroppingCloses(AdoptedAgain(s, p, now), 0, p, id);
  }

  /** The run adopts the peer, drops the guard, and adopts the peer again. */
  predicate AdoptsTwice(run: seq<Action>, p: Peer) {
    && |run| == 14
    && run[7] == Adopt(0, p) && run[8] == ThreadStep(0) && run[9] == ThreadStep(0) && run[10] == ThreadStep(0)
    && run[11] == Adopt(1, p) && run[12] == ThreadStep(1) && run[13] == ThreadStep(1)
  }

  lemma ReadoptedIs(s: State, p: Peer, now: nat)
    ensures var run := Readopted(s, p, now);
            Opening(p, now) <= run && |run| == 14 && run[3..7] == Announcement(s.nextId + 1, now) && AdoptsTwice(run, p)
  {
  }

  lemma ReachesReadopted(s: State, run: seq<Action>, p: Peer, now: nat)
    requires Initial(s) && s.max > 0 && now < U64_MAX
    requires Opening(p, now) <= run && AdoptsTwice(run, p) && run[3..7] == Announcement(s.nextId + 1, now)
    ensures After(s, run, 14) == AdoptedAgain(s, p, now)
  {
    OpensFlow(s, run, p, now);
    IsAdopted(s, p, now);
    IsReadopted(s, p, now);
    hide After, Next, Opening, Announcement, Opened, Adopted, AdoptedAgain, Initial;
    AfterStep(s, run, 7);
    AfterStep(s, run, 8);
    AfterStep(s, run, 9);
    AfterStep(s, run, 10);
    AfterStep(s, run, 11);
    AfterStep(s, run, 12);
    AfterStep(s, run, 13);
  }

  function Adopted(s: State, p: Peer, now: nat): State {
    Opened(s, p, now).(table := [Flow(s.nextId + 1, Some(p), true, true, now)], guards := map[p := 1],
                       sessions := map[0 := Guard(p)])
  }

  function AdoptedAgain(s: State, p: Peer, now: nat): State {
    Adopted(s, p, now).(sessions := map[0 := Dropping(p), 1 := Guard(p)])
  }

  lemma FoundReadopted(s: State, p: Peer, now: nat)
    requires Initial(s)
    ensures var t, id := AdoptedAgain(s, p, now), s.nextId + 1;
            && t.sessions == map[0 := Dropping(p), 1 := Guard(p)] && t.index == map[p := id] && t.guards == map[p := 1]
            && t.table == [Flow(id, Some(p), true, true, now)] && t.queue.Idle? && Find(t.table, id).Some?
  {
    OneFlow(Flow(s.nextId + 1, Some(p), true, true, now), now);
  }

  lemma IsAdopted(s: State, p: Peer, now: nat)
    requires Initial(s)
    ensures Next(Next(Next(Opened(s, p, now), Adopt(0, p)), ThreadStep(0)), ThreadStep(0)) == Adopted(s, p, now)
  {
    hide IndexOf, Find, Protect;
    var id, t := s.nextId + 1, Opened(s, p, now);
    OneFlow(Flow(id, Some(p), true, false, now), now);
    var t1 := t.(guards := map[p := 1], sessions := map[0 := Registered(p)]);
    assert Next(t, Adopt(0, p)) == t1;
    assert Next(t1, ThreadStep(0)) == t1.(sessions := map[0 := Found(p, Some(id))]);
  }

  lemma IsReadopted(s: State, p: Peer, now: nat)
    requires Initial(s)
    ensures var t := Next(Next(Adopted(s, p, now), ThreadStep(0)), Adopt(1, p));
            Next(Next(t, ThreadStep(1)), ThreadStep(1)) == AdoptedAgain(s, p, now)
  {
    hide IndexOf, Find, Protect;
    var id, t := s.nextId + 1, Adopted(s, p, now);
    OneFlow(Flow(id, Some(p), true, true, now), now);
    var t1 := t.(guards := map[], sessions := map[0 := Dropping(p)]);
    assert Next(t, ThreadStep(0)) == t1;
    var t2 := t.(sessions := map[0 := Dropping(p), 1 := Registered(p)]);
    assert Next(t1, Adopt(1, p)) == t2;
    assert Next(t2, ThreadStep(1)) == t2.(sessions := map[0 := Dropping(p), 1 := Found(p, Some(id))]);
  }
}
