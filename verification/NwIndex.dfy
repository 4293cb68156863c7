/** The index from peers to flows over whole runs: it names the flow announced last, so a
    peer with two flows in the table loses the other one from sight, and what becomes of such
    a flow when the peer's last guard is dropped. */
module NwIndex {
  import opened Common
  import opened FlowTable
  import opened NwFlows
  import opened NwRuns

  // ----- The flow announced last -----

  /** The step points the index at a flow of this peer. */
  predicate Announced(t: State, t': State, p: Peer) {
    t.queue.Announcing? && t.queue.peer == p && t'.queue == Indexed(t.queue.id, p)
  }

  /** The flow the index was last pointed at for this peer. */
  function Last(s: State, run: seq<Action>, n: nat, p: Peer): Option<nat>
    requires n <= |run|
  {
    if n == 0 then None
    else if Announced(After(s, run, n - 1), After(s, run, n), p) then Some(After(s, run, n - 1).queue.id)
    else Last(s, run, n - 1, p)
  }

  /** The index names no other flow than the last one, and names that one as long as `peers`
      holds it. */
  predicate LastSound(t: State, last: Option<nat>, p: Peer) {
    && (p in t.index ==> last == Some(t.index[p]))
    && (last.Some? ==>
          && last.value <= t.nextId
          && (last.value in t.peers ==> p in t.index && t.index[p] == last.value)
          && (Find(t.table, last.value).Some? ==> Live(t.table, last.value, p)))
  }

  predicate SameMaps(t: State, t': State) {
    t'.index == t.index && t'.peers == t.peers
  }

  /** Only `on_flow` and `on_close` change the index and `peers`. */
  lemma MapsStay(t: State, a: Action)
    requires !(a.QueueStep? && (t.queue.Announcing? || t.queue.Indexed? || t.queue.Closed? || t.queue.Forgotten?))
    ensures SameMaps(t, Next(t, a))
    ensures forall p :: !Announced(t, Next(t, a), p)
  {
    hide Find, Touch, Protect, QueueTakes, EvictionRound, AddRound;
    if a.QueueStep? {
      RoundMaps(t, a.now, a.memory);
    } else if a.QueueEvent? {
      EventMaps(t, a.event);
    }
  }

  lemma RoundMaps(t: State, now: nat, memory: bool)
    ensures SameMaps(t, EvictionRound(t, now)) && SameMaps(t, AddRound(t, now, memory))
  {
    hide Find, Take, ReapChoice, ReserveChoice;
  }

  lemma EventMaps(t: State, e: Event)
    ensures SameMaps(t, QueueTakes(t, e))
  {
    hide Find, Touch, Take;
  }

  /** The flow keeps its peer, whatever the step. */
  lemma StillLive(t: State, a: Action, id: nat, p: Peer)
    requires Inv(t) && id <= t.nextId && (Find(t.table, id).Some? ==> Live(t.table, id, p))
    ensures id <= Next(t, a).nextId && (Find(Next(t, a).table, id).Some? ==> Live(Next(t, a).table, id, p))
  {
    FlowStays(t, a, id);
  }

  lemma OnFlowLast(t: State, last: Option<nat>, p: Peer)
    requires Inv(t) && LastSound(t, last, p) && (t.queue.Announcing? || t.queue.Indexed?)
    ensures LastSound(OnFlow(t), if Announced(t, OnFlow(t), p) then Some(t.queue.id) else last, p)
  {
    assert Live(t.table, t.queue.id, t.queue.peer);
    FoundFlow(t, t.queue.id);
    hide Inv, Find;
  }

  lemma OnCloseLast(t: State, last: Option<nat>, p: Peer)
    requires Inv(t) && LastSound(t, last, p) && (t.queue.Closed? || t.queue.Forgotten?)
    ensures LastSound(OnClose(t), last, p)
  {
    assert t.queue.Forgotten? ==> t.queue.id !in t.peers;
    hide Inv, Find, Live;
    if t.queue.Closed? {
      ForgetPeer(t, t.queue.flow.id, OnClose(t).queue, last, p);
    } else {
      ForgetIndex(t, t.queue.id, t.queue.peer, OnClose(t).queue, last, p);
    }
  }

  lemma ForgetPeer(t: State, id: nat, q: Queue, last: Option<nat>, p: Peer)
    requires LastSound(t, last, p)
    ensures LastSound(t.(peers := t.peers - {id}, queue := q), last, p) && LastSound(t.(queue := q), last, p)
  {
    hide Find, Live;
  }

  lemma ForgetIndex(t: State, id: nat, p0: Peer, q: Queue, last: Option<nat>, p: Peer)
    requires LastSound(t, last, p) && id !in t.peers
    ensures var index := if p0 in t.index && t.index[p0] == id then t.index - {p0} else t.index;
            LastSound(t.(index := index, queue := q), last, p)
  {
    hide Find, Live;
  }

  lemma LastStep(t: State, a: Action, last: Option<nat>, p: Peer)
    requires Inv(t) && LastSound(t, last, p)
    ensures var t' := Next(t, a);
            LastSound(t', if Announced(t, t', p) then Some(t.queue.id) else last, p)
  {
    if a.QueueStep? && (t.queue.Announcing? || t.queue.Indexed?) {
      OnFlowLast(t, last, p);
      hide Inv, LastSound, OnFlow;
    } else if a.QueueStep? && (t.queue.Closed? || t.queue.Forgotten?) {
      OnCloseLast(t, last, p);
      hide Inv, LastSound, OnClose;
      assert Next(t, a) == OnClose(t) || Next(t, a) == t;
      assert !Announced(t, Next(t, a), p);
    } else {
      MapsStay(t, a);
      hide Inv, Next, Find, Live;
      if last.Some? {
        StillLive(t, a, last.value, p);
      }
    }
  }

  lemma {:induction false} LastKeeps(s: State, run: seq<Action>, n: nat, p: Peer)
    requires Initial(s) && n <= |run|
    ensures LastSound(After(s, run, n), Last(s, run, n, p), p)
    decreases n
  {
    hide *;
    if n == 0 {
      LastStarts(s, run, p);
    } else {
      LastKeeps(s, run, n - 1, p);
      RunKeeps(s, run, n - 1);
      LastNext(s, run, n - 1, p);
      AfterStep(s, run, n - 1);
      LastStep(After(s, run, n - 1), run[n - 1], Last(s, run, n - 1, p), p);
    }
  }

  lemma LastStarts(s: State, run: seq<Action>, p: Peer)
    requires Initial(s)
    ensures LastSound(After(s, run, 0), Last(s, run, 0, p), p)
  {
  }

  lemma LastNext(s: State, run: seq<Action>, n: nat, p: Peer)
    requires n < |run|
    ensures Last(s, run, n + 1, p) ==
            if Announced(After(s, run, n), After(s, run, n + 1), p) then Some(After(s, run, n).queue.id)
            else Last(s, run, n, p)
  {
    hide After;
  }

  /** Exactly when the index is the inverse of `peers`: in every reachable state, for a flow
      that `peers` gives to the peer, the index names it if and only if no other flow of the
      peer was announced after it. */
  lemma IndexIsLast(s: State, run: seq<Action>, n: nat, p: Peer, id: nat)
    requires Initial(s) && n <= |run|
    requires var t := After(s, run, n); id in t.peers && t.peers[id] == p
    ensures var t := After(s, run, n);
            (p in t.index && t.index[p] == id) <==> Last(s, run, n, p) == Some(id)
  {
    LastKeeps(s, run, n, p);
    hide After, Last;
  }

  /** A drop asks for the flow announced last, or for none. */
  lemma DropAsksForLast(s: State, run: seq<Action>, n: nat, q: nat, p: Peer)
    requires Initial(s) && n < |run| && run[n] == ThreadStep(q)
    requires var t := After(s, run, n); q in t.sessions && t.sessions[q] == Dropping(p)
    ensures var t := After(s, run, n + 1);
            && q in t.sessions && t.sessions[q].Closing? && t.sessions[q].peer == p
            && (t.sessions[q].flow.Some? ==> t.sessions[q].flow == Last(s, run, n, p))
            && (t.sessions[q].flow.None? <==> p !in After(s, run, n).index)
  {
    LastKeeps(s, run, n, p);
    AfterStep(s, run, n);
    hide After, Last;
  }

  // ----- Flows that outlive the last guard -----

  /** Nobody guards the peer or is about to, and every drop of its guards has looked. */
  predicate Abandoned(t: State, p: Peer) {
    p !in t.guards && forall q :: q in t.sessions && t.sessions[q].peer == p ==> t.sessions[q].Closing?
  }

  /** A protected flow of the peer. */
  predicate Protected(t: State, p: Peer, id: nat) {
    id <= t.nextId && Live(t.table, id, p) && Find(t.table, id).value.guarded
  }

  /** The steps adopt the peer no more, and the connection does not fail. */
  predicate LeftAlone(more: seq<Action>, p: Peer, id: nat) {
    forall a :: a in more ==> !(a.Adopt? && a.peer == p) && a != QueueEvent(Failed(id))
  }

  lemma SessionPeers(t: State, a: Action, p: Peer, q: nat)
    requires Abandoned(t, p) && !(a.Adopt? && a.peer == p)
    requires q in Next(t, a).sessions && Next(t, a).sessions[q].peer == p
    ensures q in t.sessions && t.sessions[q] == Next(t, a).sessions[q] && t.sessions[q].Closing?
  {
    if a == ThreadStep(q) {
      hide Protect;
    } else if !(a.Adopt? && a.t == q) {
      OtherSessions(t, a, q);
    }
  }

  lemma StaysAbandoned(t: State, a: Action, p: Peer)
    requires Abandoned(t, p) && !(a.Adopt? && a.peer == p)
    ensures Abandoned(Next(t, a), p)
  {
    forall q | q in Next(t, a).sessions && Next(t, a).sessions[q].peer == p ensures Next(t, a).sessions[q].Closing? {
      SessionPeers(t, a, p, q);
    }
    GuardsNotAdded(t, a, p);
  }

  lemma GuardsNotAdded(t: State, a: Action, p: Peer)
    requires p !in t.guards && !(a.Adopt? && a.peer == p)
    ensures p !in Next(t, a).guards
  {
    hide Find, Touch, Protect, QueueSteps, QueueTakes;
    if a.QueueStep? || a.QueueEvent? {
      QueueLeaves(t, a);
    }
  }

  /** No drop turns to the flow any more. */
  lemma StaysUnasked(t: State, a: Action, p: Peer, id: nat)
    requires DropsSound(t) && Abandoned(t, p) && Live(t.table, id, p) && !CloseUnderWay(t, p, id)
    requires !(a.Adopt? && a.peer == p)
    ensures !CloseUnderWay(Next(t, a), p, id)
  {
    NoNewRequest(t, a, p, id);
    forall q | q in Next(t, a).sessions ensures !Pursues(Next(t, a).sessions[q], p, id) {
      if Next(t, a).sessions[q].peer == p {
        SessionPeers(t, a, p, q);
      }
    }
  }

  lemma StaysProtected(t: State, a: Action, p: Peer, id: nat)
    requires Inv(t) && Protected(t, p, id) && !CloseUnderWay(t, p, id) && a != QueueEvent(Failed(id))
    ensures Protected(Next(t, a), p, id)
  {
    var f := Find(t.table, id).value;
    FindNone(t.table, id);
    FlowStays(t, a, id);
    hide Next, Inv;
    if Find(Next(t, a).table, id).None? {
      StillThere(t, a, f);
    }
  }

  lemma StillThere(t: State, a: Action, f: Flow)
    requires Inv(t) && f in t.table && Find(t.table, f.id) == Some(f) && f.guarded && f.id !in t.closes
    requires a != QueueEvent(Failed(f.id))
    ensures Find(Next(t, a).table, f.id).Some?
  {
    hide Find, Next;
    if Find(Next(t, a).table, f.id).None? {
      LeavesOnlyBy(t, a, f);
    }
  }

  ghost predicate Kept(t: State, p: Peer, id: nat) {
    Inv(t) && DropsSound(t) && Abandoned(t, p) && Protected(t, p, id) && !CloseUnderWay(t, p, id)
  }

  lemma KeptStep(t: State, a: Action, p: Peer, id: nat)
    requires Kept(t, p, id) && !(a.Adopt? && a.peer == p) && a != QueueEvent(Failed(id))
    ensures Kept(Next(t, a), p, id)
  {
    assert Live(t.table, id, p);
    hide Next, Inv, DropsSound, Abandoned, Protected, CloseUnderWay;
    StepKeeps(t, a);
    DropsStep(t, a);
    StaysAbandoned(t, a, p);
    StaysProtected(t, a, p, id);
    StaysUnasked(t, a, p, id);
  }

  lemma {:induction false} KeptStays(t: State, more: seq<Action>, n: nat, p: Peer, id: nat)
    requires Kept(t, p, id) && LeftAlone(more, p, id) && n <= |more|
    ensures Kept(After(t, more, n), p, id)
    decreases n
  {
    hide Kept, Next;
    if n > 0 {
      KeptStays(t, more, n - 1, p, id);
      KeptStep(After(t, more, n - 1), more[n - 1], p, id);
    }
  }

  /** Some steps that leave peer and connection alone take the flow off the table. */
  ghost predicate CanGo(t: State, p: Peer, id: nat) {
    exists more :: LeftAlone(more, p, id) && Find(After(t, more, |more|).table, id).None?
  }

  lemma AskedGoes(t: State, p: Peer, id: nat)
    requires Inv(t) && t.queue.Idle? && id in t.closes
    ensures Find(After(t, [QueueEvent(CloseFlow(id))], 1).table, id).None?
  {
    AfterStep(t, [QueueEvent(CloseFlow(id))], 0);
    TakeTable(t.(closes := t.closes - {id}), id);
    hide Find, Take;
  }

  lemma AskingGoes(t: State, q: nat, p: Peer, id: nat)
    requires Inv(t) && t.queue.Idle? && q in t.sessions && t.sessions[q] == Closing(p, Some(id))
    ensures Find(After(t, [ThreadStep(q), QueueEvent(CloseFlow(id))], 2).table, id).None?
  {
    var more := [QueueEvent(CloseFlow(id))];
    StepKeeps(t, ThreadStep(q));
    hide Inv, Find;
    AskedGoes(Next(t, ThreadStep(q)), p, id);
    AfterCons(t, ThreadStep(q), more, 1);
    assert [ThreadStep(q)] + more == [ThreadStep(q), QueueEvent(CloseFlow(id))];
  }

  /** Exactly which protected flows outlive the last guard of their peer: once every drop has
      looked, a protected flow can leave the table, short of its connection failing or the
      peer being adopted again, if and only if a drop asked for it to be closed or is about to.
      Drops ask only for the flow announced last. */
  lemma OutlivesExactly(s: State, run: seq<Action>, n: nat, p: Peer, id: nat)
    requires Initial(s) && n <= |run|
    requires var t := After(s, run, n); t.queue.Idle? && Abandoned(t, p) && Protected(t, p, id)
    ensures CanGo(After(s, run, n), p, id) <==> CloseUnderWay(After(s, run, n), p, id)
  {
    var t := After(s, run, n);
    RunKeeps(s, run, n);
    DropsKeep(s, run, n);
    if id in t.closes {
      AskedGoes(t, p, id);
      GoesBy(t, [QueueEvent(CloseFlow(id))], p, id);
    } else if q :| q in t.sessions && Pursues(t.sessions[q], p, id) {
      AskingGoes(t, q, p, id);
      GoesBy(t, [ThreadStep(q), QueueEvent(CloseFlow(id))], p, id);
    } else {
      hide After, Inv, DropsSound, Find, Live, Abandoned;
      forall more | LeftAlone(more, p, id) ensures Find(After(t, more, |more|).table, id).Some? {
        KeptStays(t, more, |more|, p, id);
        assert Protected(After(t, more, |more|), p, id);
        LiveIsFound(After(t, more, |more|), p, id);
      }
    }
  }

  lemma GoesBy(t: State, more: seq<Action>, p: Peer, id: nat)
    requires LeftAlone(more, p, id) && Find(After(t, more, |more|).table, id).None?
    ensures CanGo(t, p, id)
  {
  }

  lemma LiveIsFound(t: State, p: Peer, id: nat)
    requires Live(t.table, id, p)
    ensures Find(t.table, id).Some?
  {
  }

  // ----- It does happen -----

  function FirstFlow(s: State, p: Peer, now: nat): Flow {
    Flow(s.nextId + 1, Some(p), true, true, now)
  }

  lemma TwoFlows(f: Flow, g: Flow, now: nat)
    requires f.id != g.id
    ensures IndexOf([f, g], g.id) == 1 && Find([f, g], g.id) == Some(g)
    ensures Touch([f, g], g.id, now, true) == [f, g.(lastActivity := now, ready := true)]
    ensures Protect([f, g], g.id) == [f, g.(guarded := true)]
    ensures Take([f, g], g.id) == [f]
  {
    assert IndexOf([f, g], g.id) == 1;
  }

  /** A second connection of an adopted peer is accepted, ... */
  function Second(s: State, p: Peer, now: nat): State {
    Adopted(s, p, now).(table := [FirstFlow(s, p, now), Flow(s.nextId + 2, Some(p), false, false, now)],
                        nextId := s.nextId + 2)
  }

  lemma IsAccepted(s: State, p: Peer, now: nat)
    requires Initial(s) && s.max > 0 && now < U64_MAX
    ensures var a := QueueStep(now, true);
            Next(Next(Next(Adopted(s, p, now), QueueEvent(NewConnection(Some(p)))), a), a) == Second(s, p, now)
  {
    var t, f := Adopted(s, p, now), FirstFlow(s, p, now);
    assert ScanFlows([f], 1) == ScanFlows([f], 0) == Scan(0, U64_MAX, 0);
    var t1 := t.(queue := Reserving(Some(p)));
    assert Next(t, QueueEvent(NewConnection(Some(p)))) == t1;
    assert Next(t1, QueueStep(now, true)) == t.(queue := Adding(Some(p)));
    assert [f] + [Flow(s.nextId + 2, Some(p), false, false, now)] == Second(s, p, now).table;
  }

  /** ... becomes ready, ... */
  function SecondReady(s: State, p: Peer, now: nat): State {
    Second(s, p, now).(table := [FirstFlow(s, p, now), Flow(s.nextId + 2, Some(p), true, false, now)],
                       queue := Announcing(s.nextId + 2, p))
  }

  lemma SecondBecomesReady(s: State, p: Peer, now: nat)
    requires Initial(s) && now < U64_MAX
    ensures Next(Second(s, p, now), QueueEvent(FlowReady(s.nextId + 2, now))) == SecondReady(s, p, now)
  {
    hide IndexOf, Find, Touch;
    TwoFlows(FirstFlow(s, p, now), Flow(s.nextId + 2, Some(p), false, false, now), now);
  }

  /** ... and takes the first one's place in the index. */
  function Replaced(s: State, p: Peer, now: nat): State {
    Second(s, p, now).(table := [FirstFlow(s, p, now), Flow(s.nextId + 2, Some(p), true, true, now)],
                       index := map[p := s.nextId + 2], peers := map[s.nextId + 1 := p, s.nextId + 2 := p])
  }

  lemma IsReplaced(s: State, p: Peer, now: nat)
    requires Initial(s) && now < U64_MAX
    ensures var a := QueueStep(now, true);
            Next(Next(Next(Next(SecondReady(s, p, now), a), a), a), a) == Replaced(s, p, now)
  {
    hide IndexOf, Find, Protect;
    var id, t, a := s.nextId + 2, SecondReady(s, p, now), QueueStep(now, true);
    TwoFlows(FirstFlow(s, p, now), Flow(id, Some(p), true, false, now), now);
    var t1 := t.(index := map[p := id], queue := Indexed(id, p));
    assert Next(t, a) == t1;
    var t2 := t1.(peers := map[s.nextId + 1 := p, id := p], queue := Known(id, p));
    assert Next(t1, a) == t2;
    assert Next(t2, a) == t2.(queue := Guarding(id, p));
  }

  function Dropped(s: State, p: Peer, now: nat): State {
    Replaced(s, p, now).(guards := map[], sessions := map[], closes := {s.nextId + 2})
  }

  lemma IsDropped(s: State, p: Peer, now: nat)
    requires Initial(s)
    ensures var a := ThreadStep(0);
            Next(Next(Next(Replaced(s, p, now), a), a), a) == Dropped(s, p, now)
  {
    var id, t, a := s.nextId + 2, Replaced(s, p, now), ThreadStep(0);
    var t1 := t.(guards := map[], sessions := map[0 := Dropping(p)]);
    assert Next(t, a) == t1;
    var t2 := t1.(sessions := map[0 := Closing(p, Some(id))]);
    assert Next(t1, a) == t2;
    assert t2.closes + {id} == {id};
  }

  /** The flow that is left: protected, in `peers`, and not in the index. */
  function Orphaned(s: State, p: Peer, now: nat): State {
    s.(table := [FirstFlow(s, p, now)], nextId := s.nextId + 2, peers := map[s.nextId + 1 := p])
  }

  lemma IsOrphaned(s: State, p: Peer, now: nat)
    requires Initial(s) && now < U64_MAX
    ensures var a := QueueStep(now, true);
            Next(Next(Next(Dropped(s, p, now), QueueEvent(CloseFlow(s.nextId + 2))), a), a) == Orphaned(s, p, now)
  {
    hide IndexOf, Find, Take;
    var id, t, a := s.nextId + 2, Dropped(s, p, now), QueueStep(now, true);
    var f, g := FirstFlow(s, p, now), Flow(id, Some(p), true, true, now);
    TwoFlows(f, g, now);
    var t1 := t.(table := [f], closes := {}, queue := Closed(g, ToIdle));
    assert t.closes - {id} == {};
    assert Next(t, QueueEvent(CloseFlow(id))) == t1;
    assert t1.peers - {id} == map[s.nextId + 1 := p];
    var t2 := t1.(peers := map[s.nextId + 1 := p], queue := Forgotten(id, p, ToIdle));
    assert Next(t1, a) == t2;
    assert t2.index - {p} == map[];
  }

  function Orphaning(s: State, p: Peer, now: nat): seq<Action> {
    var a, b := QueueStep(now, true), ThreadStep(0);
    Opening(p, now) + Announcement(s.nextId + 1, now)
    + [Adopt(0, p), b, b, QueueEvent(NewConnection(Some(p))), a, a, QueueEvent(FlowReady(s.nextId + 2, now)), a, a, a, a,
       b, b, b, QueueEvent(CloseFlow(s.nextId + 2)), a, a]
  }

  predicate Orphans(run: seq<Action>, s: State, p: Peer, now: nat) {
    var a, b := QueueStep(now, true), ThreadStep(0);
    && |run| == 24 && run[7] == Adopt(0, p) && run[8] == b && run[9] == b
    && run[10] == QueueEvent(NewConnection(Some(p))) && run[11] == a && run[12] == a
    && run[13] == QueueEvent(FlowReady(s.nextId + 2, now)) && run[14] == a && run[15] == a && run[16] == a && run[17] == a
    && run[18] == b && run[19] == b && run[20] == b
    && run[21] == QueueEvent(CloseFlow(s.nextId + 2)) && run[22] == a && run[23] == a
  }

  lemma OrphaningIs(s: State, p: Peer, now: nat)
    ensures var run := Orphaning(s, p, now);
            Orphans(run, s, p, now) && Opening(p, now) <= run && run[3..7] == Announcement(s.nextId + 1, now)
  {
  }

  lemma ReachesReplaced(s: State, run: seq<Action>, p: Peer, now: nat)
    requires Initial(s) && s.max > 0 && now < U64_MAX
    requires Orphans(run, s, p, now) && Opening(p, now) <= run && run[3..7] == Announcement(s.nextId + 1, now)
    ensures After(s, run, 18) == Replaced(s, p, now)
  {
    OpensFlow(s, run, p, now);
    IsAdopted(s, p, now);
    IsAccepted(s, p, now);
    SecondBecomesReady(s, p, now);
    IsReplaced(s, p, now);
    hide After, Next, Opening, Announcement, Opened, Adopted, Second, SecondReady, Replaced, Initial;
    AfterStep(s, run, 7);
    AfterStep(s, run, 8);
    AfterStep(s, run, 9);
    AfterStep(s, run, 10);
    AfterStep(s, run, 11);
    AfterStep(s, run, 12);
    AfterStep(s, run, 13);
    AfterStep(s, run, 14);
    AfterStep(s, run, 15);
    AfterStep(s, run, 16);
    AfterStep(s, run, 17);
  }

  lemma ReachesOrphaned(s: State, run: seq<Action>, p: Peer, now: nat)
    requires Initial(s) && s.max > 0 && now < U64_MAX
    requires Orphans(run, s, p, now) && Opening(p, now) <= run && run[3..7] == Announcement(s.nextId + 1, now)
    ensures After(s, run, 24) == Orphaned(s, p, now)
  {
    ReachesReplaced(s, run, p, now);
    IsDropped(s, p, now);
    IsOrphaned(s, p, now);
    hide After, Next, Opening, Announcement, Replaced, Dropped, Orphaned, Initial;
    AfterStep(s, run, 18);
    AfterStep(s, run, 19);
    AfterStep(s, run, 20);
    AfterStep(s, run, 21);
    AfterStep(s, run, 22);
    AfterStep(s, run, 23);
  }

  /** It does happen: a peer opens a second flow and its only guard is dropped. Everything is
      at rest, nothing is guarded, and the first flow is left in the table: protected, so no
      eviction loop takes it, and not in the index, so nothing is sent on it. */
  lemma OrphanHappens(s: State, p: Peer, now: nat)
    requires Initial(s) && s.max > 0 && now < U64_MAX
    ensures var t, id := After(s, Orphaning(s, p, now), 24), s.nextId + 1;
            && t.queue.Idle? && t.guards == map[] && t.sessions == map[] && t.closes == {}
            && t.table == [Flow(id, Some(p), true, true, now)] && t.peers == map[id := p] && p !in t.index
            && !CanGo(t, p, id)
  {
    var run, id := Orphaning(s, p, now), s.nextId + 1;
    OrphaningIs(s, p, now);
    ReachesOrphaned(s, run, p, now);
    OneFlow(FirstFlow(s, p, now), now);
    assert Protected(Orphaned(s, p, now), p, id);
    hide After, Find, CanGo, Orphaning;
    OutlivesExactly(s, run, 24, p, id);
  }
}
